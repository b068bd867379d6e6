/** Digest text: 64 lowercase hexadecimal characters and nothing else. */
module Sha256Hex {
  import opened Bytes
  import opened Assets

  /** The value of a digit; None for any byte that is not 0-9 or a-f. */
  function HexValue(c: byte): Option<byte> {
    if '0' as int <= c <= '9' as int then Some(c - '0' as int)
    else if 'a' as int <= c <= 'f' as int then Some(c - 'a' as int + 10)
    else None
  }

  function HexDigit(v: byte): byte
    requires v < 16
  {
    if v < 10 then '0' as int + v else 'a' as int + (v - 10)
  }

  /** Digest text as the hex printer writes it: high digit first, lowercase. */
  function Hex(bytes: seq<byte>): (text: seq<byte>)
    ensures |text| == 2 * |bytes|
  {
    if bytes == [] then []
    else Hex(bytes[..|bytes| - 1]) + [HexDigit(bytes[|bytes| - 1] / 16), HexDigit(bytes[|bytes| - 1] % 16)]
  }

  lemma {:induction false} HexAt(bytes: seq<byte>, i: nat)
    requires i < |bytes|
    ensures Hex(bytes)[2 * i] == HexDigit(bytes[i] / 16) && Hex(bytes)[2 * i + 1] == HexDigit(bytes[i] % 16)
  {
    if i < |bytes| - 1 {
      HexAt(bytes[..|bytes| - 1], i);
    }
  }

  lemma LowercaseDigit(v: byte)
    requires v < 16
    ensures HexDigit(v) == "0123456789abcdef"[v] as int
  {}

  /** The text, digit by digit. */
  lemma LowercaseText(bytes: seq<byte>, i: nat)
    requires i < |bytes|
    ensures Hex(bytes)[2 * i] == "0123456789abcdef"[bytes[i] / 16] as int
    ensures Hex(bytes)[2 * i + 1] == "0123456789abcdef"[bytes[i] % 16] as int
  {
    hide HexDigit;
    HexAt(bytes, i);
    LowercaseDigit(bytes[i] / 16);
    LowercaseDigit(bytes[i] % 16);
  }

  lemma DigitRoundTrip(v: byte, c: byte)
    ensures v < 16 ==> HexValue(HexDigit(v)) == Some(v)
    ensures HexValue(c).Some? ==> HexValue(c).value < 16 && HexDigit(HexValue(c).value) == c
  {}

  /** Different byte strings have different texts. */
  lemma {:induction false} HexInjective(a: seq<byte>, b: seq<byte>)
    requires Hex(a) == Hex(b)
    ensures a == b
  {
    assert |a| == |b|;
    forall i | 0 <= i < |a|
      ensures a[i] == b[i]
    {
      HexAt(a, i);
      HexAt(b, i);
      DigitRoundTrip(a[i] / 16, 0);
      DigitRoundTrip(a[i] % 16, 0);
      DigitRoundTrip(b[i] / 16, 0);
      DigitRoundTrip(b[i] % 16, 0);
    }
  }

  /** The parser: accepts exactly the texts the printer writes for 32-byte digests, and returns that digest. */
  method ParseSha256Hex(text: seq<byte>) returns (digest: Option<Digest>)
    ensures forall d: Digest :: digest == Some(d) <==> text == Hex(d)
  {
    if |text| != 64 {
      return None;
    }
    var bytes: seq<byte> := [];
    for index := 0 to 32
      invariant |bytes| == index
      invariant Hex(bytes) == text[..2 * index]
    {
      var high := HexValue(text[index * 2]);
      var low := HexValue(text[index * 2 + 1]);
      DigitRoundTrip(0, text[index * 2]);
      DigitRoundTrip(0, text[index * 2 + 1]);
      if high == None || low == None {
        forall d: Digest
          ensures text != Hex(d)
        {
          HexAt(d, index);
          DigitRoundTrip(d[index] / 16, 0);
          DigitRoundTrip(d[index] % 16, 0);
        }
        return None;
      }
      ghost var before := bytes;
      bytes := bytes + [high.value * 16 + low.value];
      assert bytes[..index] == before;
      assert bytes[index] / 16 == high.value && bytes[index] % 16 == low.value;
      assert text[..2 * (index + 1)] == text[..2 * index] + [text[2 * index], text[2 * index + 1]];
    }
    assert text[..64] == text;
    forall d: Digest | text == Hex(d)
      ensures d == bytes
    {
      HexInjective(d, bytes);
    }
    return Some(bytes);
  }
}
