/** The server's sending side: every message is encoded and framed, and the transport may refuse any frame. */
module ServerTransport {
  import opened Bytes
  import opened Protocol
  import opened TransportFrame

  datatype Attempt = Attempt(playerId: u32, frame: seq<byte>, ok: bool)

  /** The answers the transport will give, in order (none left: it refuses), and the attempts made so far. */
  datatype Line = Line(answers: seq<bool>, attempts: seq<Attempt>)

  function SendFrame(t: Line, playerId: u32, frame: seq<byte>): (Line, bool) {
    var ok := t.answers != [] && t.answers[0];
    (Line(if t.answers == [] then [] else t.answers[1..], t.attempts + [Attempt(playerId, frame, ok)]), ok)
  }

  /** A message that cannot be encoded is refused before the transport sees anything. */
  function SendMessage(t: Line, playerId: u32, m: Message): (Line, bool) {
    match Wire(m)
    case None => (t, false)
    case Some(frame) => SendFrame(t, playerId, frame)
  }

  /** Sending one after the other, stopping at the first refusal. */
  function SendAll(t: Line, playerId: u32, ms: seq<Message>): (Line, bool)
    decreases ms
  {
    if ms == [] then (t, true)
    else
      var (t1, ok) := SendMessage(t, playerId, ms[0]);
      if ok then SendAll(t1, playerId, ms[1..]) else (t1, false)
  }

  /** One message put to a player, and whether the transport took it. */
  datatype Said = Said(message: Message, ok: bool)

  /** All that was put to a player, in order. */
  function TalkTo(attempts: seq<Attempt>, playerId: u32): seq<Said> {
    if attempts == [] then []
    else
      var last := attempts[|attempts| - 1];
      TalkTo(attempts[..|attempts| - 1], playerId) +
      if last.playerId != playerId then []
      else match Deliver(last.frame) case Some(m) => [Said(m, last.ok)] case None => []
  }

  /** What a player hears of it. */
  function Heard(talk: seq<Said>): seq<Message> {
    if talk == [] then []
    else
      var last := talk[|talk| - 1];
      Heard(talk[..|talk| - 1]) + if last.ok then [last.message] else []
  }

  /** How a batch goes when the transport answers like this: in order, up to and including the first refusal. */
  function Spoken(ms: seq<Message>, answers: seq<bool>): seq<Said>
    decreases ms
  {
    if ms == [] then []
    else if answers == [] || !answers[0] then [Said(ms[0], false)]
    else [Said(ms[0], true)] + Spoken(ms[1..], answers[1..])
  }

  /** The transport takes the next `n` frames. */
  predicate Takes(answers: seq<bool>, n: nat) {
    n == 0 || (answers != [] && answers[0] && Takes(answers[1..], n - 1))
  }

  lemma {:induction false} HeardConcat(a: seq<Said>, b: seq<Said>)
    ensures Heard(a + b) == Heard(a) + Heard(b)
  {
    if b == [] {
      assert a + b == a;
    } else {
      HeardConcat(a, b[..|b| - 1]);
      assert (a + b)[..|a + b| - 1] == a + b[..|b| - 1];
    }
  }

  /** A batch is said front to back; all of it when the transport takes it all, and then it is all heard;
      otherwise what is heard is what was said before the last thing said. */
  lemma {:induction false} SpokenShape(ms: seq<Message>, answers: seq<bool>)
    ensures var talk := Spoken(ms, answers);
            && |talk| <= |ms|
            && (forall i | 0 <= i < |talk| :: talk[i].message == ms[i])
            && (Takes(answers, |ms|) ==> |talk| == |ms| && Heard(talk) == ms)
            && (!Takes(answers, |ms|) ==> talk != [] && Heard(talk) == ms[..|talk| - 1])
    decreases ms
  {
    hide Heard;
    var talk := Spoken(ms, answers);
    if ms == [] {
      HeardNothing();
    } else {
      HeardOne(Said(ms[0], answers != [] && answers[0]));
      if answers != [] && answers[0] {
        SpokenShape(ms[1..], answers[1..]);
        HeardConcat([Said(ms[0], true)], Spoken(ms[1..], answers[1..]));
        assert talk == [Said(ms[0], true)] + Spoken(ms[1..], answers[1..]);
      }
    }
  }

  lemma HeardNothing()
    ensures Heard([]) == []
  {}

  lemma HeardOne(s: Said)
    ensures Heard([s]) == if s.ok then [s.message] else []
  {
    assert [s][..0] == [] && Heard([]) == [];
  }

  /** A message is sent exactly if it can be encoded and the transport takes it; one that cannot be encoded uses up no answer. */
  lemma SentExactly(t: Line, playerId: u32, m: Message)
    ensures var (t', ok) := SendMessage(t, playerId, m);
            && (ok <==> IsEncodable(m) && t.answers != [] && t.answers[0])
            && (!IsEncodable(m) ==> t' == t)
  {
    hide Wire, IsEncodable;
    if Wire(m).Some? {
      WireExactness(m, Wire(m).value);
    }
    WireExactness(m, []);
  }

  /** One encodable message: the transport's answer alone decides. */
  lemma SendMessageTalk(t: Line, playerId: u32, m: Message, q: u32)
    requires IsEncodable(m)
    ensures var (t', ok) := SendMessage(t, playerId, m);
            && ok == (t.answers != [] && t.answers[0])
            && t'.answers == (if t.answers == [] then [] else t.answers[1..])
            && TalkTo(t'.attempts, q) == TalkTo(t.attempts, q) + (if q == playerId then [Said(m, ok)] else [])
  {
    hide Wire, Deliver, IsEncodable;
    WireRoundTrip(m);
    var t' := SendMessage(t, playerId, m).0;
    assert t'.attempts[..|t.attempts|] == t.attempts;
  }

  /** A batch of encodable messages is put to its addressee and to nobody else, and fails only where the
      transport refuses, never for an encoding reason. */
  lemma {:induction false} SendAllTalk(t: Line, playerId: u32, ms: seq<Message>, q: u32)
    requires forall m | m in ms :: IsEncodable(m)
    ensures var (t', ok) := SendAll(t, playerId, ms);
            && ok == Takes(t.answers, |ms|)
            && TalkTo(t'.attempts, q) ==
               TalkTo(t.attempts, q) + (if q == playerId then Spoken(ms, t.answers) else [])
    decreases ms
  {
    hide IsEncodable, SendMessage, TalkTo;
    if ms == [] {
      assert SendAll(t, playerId, ms) == (t, true);
      assert TalkTo(t.attempts, q) + [] == TalkTo(t.attempts, q);
    } else {
      assert ms[0] in ms;
      SendMessageTalk(t, playerId, ms[0], q);
      var (t1, ok1) := SendMessage(t, playerId, ms[0]);
      var before := TalkTo(t.attempts, q);
      if ok1 {
        SendAllTalk(t1, playerId, ms[1..], q);
        var rest := Spoken(ms[1..], t1.answers);
        assert Spoken(ms, t.answers) == [Said(ms[0], true)] + rest;
        assert before + [Said(ms[0], true)] + rest == before + ([Said(ms[0], true)] + rest);
        assert SendAll(t, playerId, ms) == SendAll(t1, playerId, ms[1..]);
      } else {
        assert SendAll(t, playerId, ms) == (t1, false);
      }
    }
  }

  // The object.

  class ServerTransport {
    var answers: seq<bool>
    var attempts: seq<Attempt>

    function View(): Line
      reads this
    {
      Line(answers, attempts)
    }

    constructor (answers: seq<bool>)
      ensures View() == Line(answers, [])
    {
      this.answers, attempts := answers, [];
    }

    method Send(playerId: u32, frame: seq<byte>) returns (ok: bool)
      modifies this
      ensures (View(), ok) == SendFrame(old(View()), playerId, frame)
    {
      ok := answers != [] && answers[0];
      attempts := attempts + [Attempt(playerId, frame, ok)];
      answers := if answers == [] then [] else answers[1..];
    }
  }
}
