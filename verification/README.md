# CustomModel, verified

CustomModel distributes assets from a game server to its clients. The server keeps a registry of assets and,
once a player's handshake has succeeded, publishes it to the player as a bounded stream of CMOD packets. The client
rebuilds the manifest; a worker thread fetches, verifies and caches each asset by its SHA-256 digest; the client
reports back per asset, and the server records who has what.

This project models that behaviour in Dafny and proves what the system is for, ending in one statement about all of
it at once: if the server holds an asset of a player ready, the player's client really had the registered bytes on
disk, verified, in that same connection, however the parts interleave and whatever fails
(`TruthfulReadiness.ReadyIsTrue`).

`dafny verify dfyconfig.toml` checks everything.

## How the model is built

Every object of the program that updates its fields is a class here with the same fields, and each of its methods is
proved to compute a step function of the old state. The step functions are what the theorems about whole runs are
stated on.

- `Bytes`, `Assets`, `Sha256Hex`: fixed-width integers and bit sets, the validators and their grammars, hexadecimal
  digests. Hashing itself is a parameter, any function from bytes to a 32-byte digest.
- `Protocol`, `Encoder`, `Decoder`, `ProtocolExactness`, `WireLayout`, `TransportFrame`: the ten messages, the byte writer
  and the byte reader, the proof that encoding and decoding are inverse bijections between encodable messages and accepted
  packets, and their agreement with the documented tables.
- `AssetRegistry`, `ManifestConfig`: the two-index registry and the all-or-nothing loader.
- `ManifestStream`: the receiver as an acceptor of the language of manifest streams.
- `AssetCache`, `AssetManager`, `AssetEngine`: the content-addressed cache over a map from paths to files, the
  mutex-protected manager, and the running engine in which every critical section, disk call and download is one step.
  Disk calls may fail at will, and a download may leave anything at the temporary path and report anything.
- `GenerationFence`, `AssetSession`, `SessionOrigin`, `AssetTruth`, `CacheRefinement`, `AssetWorker`: what holds in every
  state the engine can reach. `FailureReasons`: what a failed asset's report says.
- `ServerTransport`, `AssetPublication`, `PlayerCapabilities`, `HandshakeEndpoint`, `ServerComponent`, `PublicationGate`,
  `PublicationStanding`: the server. The transport may refuse any frame.
- `ClientHandshake`, `ClientRuntime`, `ReceiveHook`, `HookRuns`, `HookHistory`: the client's network side. The connection query may
  answer anything, and any packet may be unreadable.
- `HandshakeAgreement`, `EndToEnd`, `TruthfulReadiness`, `SettledAgreement`, `ReadyRuns`: server and client put
  together.

Channels are first in, first out. They lose what is in flight only when a connection breaks off: when the server sees the
player disconnect, or sees it connect again without having seen it go. A player's first connection event empties nothing, so
a Hello may be on its way before the server has heard of the player, as it normally is. The connection number of the
end-to-end model (`engine.stamp`) counts the connections broken off, and a client that has not yet noticed is part of every
statement.

## Main results

- Both sides' picture of a player: `TruthfulReadiness.ReadyIsTrue` (what the server holds ready is true) and
  `SettledAgreement.SettledSidesAgree` (once everything has settled, the server holds all of it). Settling with every asset
  ready is within reach from any registry and any client disk, through the cache or through downloads, if both transports
  take what they are given and the server takes the client (`ReadyRuns.ReadinessReached`, and `ReadyRuns.SampleRun` for a
  concrete start with an empty cache).
- The client engine: `AssetSession.EventsFollowGrammar`, `AssetSession.PhaseSpells`, `AssetSession.UnfinishedIsQueuedOrHeld`,
  `AssetSession.WorkerFinishes`, `SessionOrigin.OnlyThisSession`, `GenerationFence.MatchesExactlyOnFullTurns`,
  `AssetTruth.ReadyMeansVerified`, `FailureReasons.GivesUpFor`.
- The cache: `CacheRefinement.CacheHoldsOwnContent`, `FetchLeavesNothing`, `CommittedAtMostOnce`, `ReadyStaysCached`.
- The wire: `ProtocolExactness.CodecExactness`, `TruncatedPacket`, `ExtendedPacket`, `TransportFrame.WireExactness`,
  `WireLayout.EncodedByTable`, `WireLayout.RefusedByHeader`.
- The stream: `ManifestStream.CompletesExactlyOnStreams`, `FailedExactlyOffStream`, `RefusedFor`, `ChargedBytes`,
  `AssetPublication.PublicationDelivers`.
- The server: `AssetRegistry.ReachableManifest`, `AssetRegistry.RegisterAnswers`, `ManifestConfig.LoadedLine`,
  `PlayerCapabilities.WelcomedExactly`, `PlayerCapabilities.RefusedFor`, `PublicationGate.PublishedAtMostOnce`, `PublicationGate.RecordedUntilEnd`,
  `PublicationStanding.PublishedAndCompatible`, `AssetPublication.LastReportWins`, `HandshakeAgreement.LoopbackAgreement`.
- The hook: `HookRuns.HookIsFilter`, `HookRuns.ConnectionEventsAlternate`, `HookHistory.HistoryDecides`,
  `HookHistory.EventsFollow`, `HookHistory.OneHelloPerConnection`.

## Where the code is weaker than one might hope

Each of these has the inputs at which it fails and the exact condition under which it does not.

- A session generation is a 64-bit counter that skips zero. An item in hand matches a later session again after exactly
  2^64-1 resets (`GenerationFence.FullTurnLeaks`), so statements about sessions assume fewer resets while one item is
  in hand (`IsFenced`); `GenerationFence.MatchesExactlyOnFullTurns` says exactly when the code tells sessions apart.
- After a manifest is complete, a stray manifest message fails the receiver but the manifest stays
  (`ManifestStream.StrayAfterStream`). "A manifest is kept exactly in the complete state" holds if and only if no manifest
  message has followed a finished stream (`KeptExactlyWhenComplete`); the guard before the call is `KeptUntilStray`.
- A cached file can be lost to a lookup: of a description that disagrees about its size, or by a lookup that finds the file,
  cannot read it, and can remove it (`AssetCache.LookupSpares`, for every combination of failing calls). Ready therefore
  means verified at the moment it is recorded; with one announced size per content and no such lookup it stays true
  (`CacheRefinement.ReadyStaysCached`).
- A rejection after a publication does not undo the publication (`PublicationStanding.RejectedButPublished`, at two kinds of
  input). An active publication means a compatible player exactly until the first such input
  (`PublicationStanding.PublishedAndCompatible`).
- The endpoint rejects everything it cannot decode (`HandshakeEndpoint.NonHelloRejected`); the component does not let such a
  payload reach it (`ServerComponent.UndecodableDropped`) and rejects, of what is no Hello, exactly what has the wrong shape
  (`ServerComponent.RejectsOnlyMisshapen`).
- Loading a configuration installs a fresh registry whose revision starts over (`ManifestConfig.RevisionFalls`). A load
  raises the revision if and only if the old one is below one plus the number of lines with fields
  (`ManifestConfig.LoadManifestConfig`). Registration, removal and clearing only ever raise it
  (`AssetRegistry.RevisionGrows`).

## Model

Theorems, algorithms and loops come first. The last rows, from `AssetWorker.AssetWorker.Download` on, are one group: the
straight-line methods of the classes, each proved to compute its step function. They tie the objects to the theorems and
say nothing beyond that.

| member | source | states |
|---|---|---|
| TruthfulReadiness.ReadyIsTrue | server/src/asset_publication.cpp:99-110 | Truthful readiness over every interleaving of server, both channels, the client network thread and its worker: an id in a player's ready set was recorded Ready by that client in this connection, for the published revision, while its cache path held a file of exactly the size and digest registered for that id at the publication |
| SettledAgreement.SettledSidesAgree | client/src/core/runtime.cpp:80-152 | The converse: on every run on which no report was refused, once the manifest is complete in a session of this connection, the worker is through, events are pumped and frames have arrived, the ready set is exactly the ids the client shows Ready, the failed set exactly those it shows Failed, together all expected, and the session is ready exactly when all are Ready |
| ReadyRuns.ReadinessReached | client/src/core/runtime.cpp:80-280 | From any loaded registry and any client disk, if the server has nothing against the client, both transports take what they are given and bytes of each announced size and digest exist, a run with the Hello under way before the player connects settles with every asset ready at the server |
| ReadyRuns.SampleRun | client/src/core/runtime.cpp:242-280 | A concrete such start, with one registered asset and an empty cache, for every hash and cache root |
| ReadyRuns.WorkAll | client/src/assets/manager.cpp:240-324 | With nothing failing, worker steps serve the whole queue, from the cache or by a download, one Ready report for each item |
| ReadyRuns.ServeEffect | client/src/assets/manager.cpp:256-324 | A step at which nothing fails goes on towards Ready and lets go of its item with a Ready report only |
| ReadyRuns.HelloArrives | server/openmp/component.cpp:219-298 | A Hello that was under way before the player connected is welcomed and answered with the whole stream |
| SettledAgreement.AgreementStep | client/src/core/runtime.cpp:80-280 | Every step keeps: what an unfailed session of this connection has reported ends the list of recorded and travelling reports |
| SettledAgreement.PumpSends | client/src/core/runtime.cpp:88-148 | A pump whose sends are accepted puts exactly the reports of its events on their way, in order |
| SettledAgreement.PayloadAnswered | client/src/core/runtime.cpp:154-240 | A compatible client answers a refused asset with an error of reason 1 about it, then reports all waiting events, and its manager has heard the message |
| ClientRuntime.PayloadBeforehand | client/src/core/runtime.cpp:154-240 | Before the client is compatible a payload has no effect but to make it compatible or rejected by an answer the handshake takes |
| ClientRuntime.WelcomedOnItsTerms | client/src/core/runtime.cpp:154-280 | On every run a compatible client has been welcomed in this protocol and granted no capability it did not offer |
| SettledAgreement.FinalReport | client/src/core/runtime.cpp:127-146 | The reports made about a finished asset end in the one that matches its end |
| TruthfulReadiness.WorldStep | client/src/core/runtime.cpp:80-280 | Every step of server, network, runtime and worker keeps the end-to-end invariant: reports on their way up are vouched for or will meet a server that has published nothing |
| TruthfulReadiness.CompletedIsTold | client/src/assets/manager.cpp:33-111 | A receiver that has heard only pieces of one published stream can complete only with the published manifest |
| TruthfulReadiness.NewFramesTold | server/openmp/component.cpp:219-298 | Every manifest message among the frames a server step puts on the wire for a player belongs to the stream published in that connection |
| TruthfulReadiness.EventVouched | client/src/core/runtime.cpp:127-135 | A pending Ready event of a session begun in this connection stands on a verified file of the published manifest |
| TruthfulReadiness.FrameVerdict | server/openmp/component.cpp:232-258 | What the server decodes from a carried frame is what a receiver of the frame would deliver |
| EndToEnd.StepsAreCallbacks | client/src/core/runtime.cpp:154-280 | The client steps of the composed system are exactly the runtime callbacks; an incoming payload is its step followed by a pump |
| AssetSession.EventsFollowGrammar | client/src/assets/manager.cpp:256-324 | In every reachable state the events of a session about an id form a prefix of Queued, then CacheHit Ready, or Failed, or Downloading with its continuations; they agree with the shown state and concern only ids of the completed manifest |
| AssetSession.PhaseSpells | client/src/assets/manager.cpp:256-324 | The events about an asset have taken the phase automaton to a phase exactly when they spell one of the listed words of the grammar, so at most one Ready or Failed |
| AssetSession.StepKeeps | client/src/assets/manager.cpp:159-344 | Every step of either thread keeps the session invariant, behind the generation fence |
| AssetSession.QueueAll | client/src/assets/manager.cpp:221-238 | Queueing a completed manifest into a fresh session queues every asset once, in order: the skip branch is never taken |
| AssetSession.TableFollowsGrammar | client/src/assets/manager.cpp:256-324 | Each worker step moves the item and its asset's phase together, and lets go only of a finished asset or one dropped before it started |
| AssetSession.UnfinishedIsQueuedOrHeld | client/src/assets/manager.cpp:221-254 | Conservation: while not stopping, an unfinished asset of the session is in the queue once, at its manifest place, or is the item in hand |
| AssetSession.WorkDrains | client/src/assets/manager.cpp:240-324 | Worker steps count down the work left, however messages, drains and exceptions fall between them |
| AssetSession.WorkerFinishes | client/src/assets/manager.cpp:240-324 | From a completed manifest, on any run without reset or stop that holds ten worker steps per waiting item and nine for the one in hand, every asset ends Ready or Failed, whatever is heard, drained or thrown in between and whatever the disk and the downloads do |
| AssetSession.ProgressStep | client/src/assets/manager.cpp:180-324 | In a session with a completed manifest no action but a reset or stop adds work, and a worker step takes some away |
| GenerationFence.GenerationRun | client/src/assets/manager.cpp:168-178 | Over every run the manager carries generation 1 + k mod (2^64-1) after k resets, its queue carries the same, and the worker's item that of the session it was taken in |
| GenerationFence.MatchesExactlyOnFullTurns | client/src/assets/manager.cpp:326-344 | An item's generation matches again exactly when a whole multiple of 2^64-1 resets has passed |
| GenerationFence.FenceDecides | client/src/assets/manager.cpp:357-360 | Behind the fence an item matches exactly in its own session |
| GenerationFence.StaleWorkIsSilent | client/src/assets/manager.cpp:326-344 | Nothing the worker does for a past session reaches states, events or queue |
| GenerationFence.FullTurnLeaks | client/src/assets/manager.cpp:170-173 | The fence is needed: after exactly 2^64-1 resets a stale item reports into a session that has heard nothing |
| SessionOrigin.OnlyThisSession | client/src/assets/manager.cpp:168-344 | In every reachable state each event of a session, drained or pending, stems from a message this session heard or from an asset of its completed manifest, with its revision; each state entry is about one of its assets; and a worker step that changes anything belongs to this session |
| AssetTruth.ReadyMeansVerified | client/src/assets/manager.cpp:256-324 | A Ready event of a session is about an asset of its manifest and was recorded in that session while the cache path held the announced bytes |
| FailureReasons.GivesUpFor | client/src/assets/manager.cpp:256-324 | A step of the worker gives up for a reason exactly in the listed cases of disk and download, for every reason from 2 to 8, and otherwise goes on |
| FailureReasons.SaysWhy | client/src/assets/manager.cpp:326-354 | The failure is then recorded and reported with that reason, revision and id, or not at all in another session |
| FailureReasons.DropsStale | client/src/assets/manager.cpp:256-260 | An item of another generation, or any after a stop, is dropped with no effect; every other one goes on to the cache |
| AssetTruth.ReadyOnlyWhenCached | client/src/assets/manager.cpp:263-268 | The worker reports Ready only at a step where the cache path holds the announced bytes |
| AssetTruth.StepTruth | client/src/assets/manager.cpp:159-344 | Every step keeps: the disk holds what the worker's position promises, Ready records are true, Ready events are backed |
| CacheRefinement.CacheHoldsOwnContent | client/src/assets/manager.cpp:275-320 | Over a whole run a file at a cache path is one that was there before, or has that path's digest |
| CacheRefinement.FetchLeavesNothing | client/src/assets/manager.cpp:270-323 | From any engine on any disk: once an item has been fetched, no temporary file of its asset is left whenever the worker waits or handles anything else, as long as no exception strikes and no removal fails in the handlings at that path; other assets may fail as they like |
| CacheRefinement.PathStep | client/src/assets/manager.cpp:270-323 | One step of the same: a free or properly held temporary path stays so, and a fetch makes it so |
| CacheRefinement.ThrowLeavesTemporary | client/src/assets/manager.cpp:321-323 | The failing input: an exception between download and commit leaves the temporary file |
| CacheRefinement.NoTemporaryStays | client/src/assets/manager.cpp:270-323 | Companion for contents nobody fetches: a disk without temporary files has none whenever the worker waits, on runs without exceptions and with working deletes |
| CacheRefinement.CommittedAtMostOnce | client/src/assets/manager.cpp:256-324 | With one announced size per content and no lookup that removes a good file, no cache path is committed twice in a run, across sessions |
| CacheRefinement.ReadyStaysCached | client/src/assets/manager.cpp:256-324 | Under the same conditions whatever was recorded Ready in any session of the run is in the cache still, and so is the asset of every Ready event of the session |
| AssetWorker.AssetWorker.Process | client/src/assets/manager.cpp:256-324 | One item processed start to finish leaves manager and disk as the engine's worker stepping until it waits |
| AssetWorker.AssetWorker.WorkerLoop | client/src/assets/manager.cpp:240-254 | The loop left alone serves the queue item by item, as the engine does |
| AssetWorker.ServedFinishes | client/src/assets/manager.cpp:240-324 | Serving the queue of a completed manifest leaves it empty and every asset Ready or Failed |
| AssetManager.ClientAssetManager.QueueManifest | client/src/assets/manager.cpp:221-238 | Queues exactly the assets without a state or with a failed one |
| AssetCache.PathsIdentifyContent | client/src/assets/cache.cpp:51-64 | Two descriptions share a cache path exactly when digest and extension agree; temporary and cache paths never meet |
| AssetCache.DocumentedPaths | client/src/assets/cache.cpp:51-64 | The paths are the documented ones: directory, first two digits, digest text and .dff or .txd; the temporary one apart, with .tmp behind |
| AssetCache.LookupSound | client/src/assets/cache.cpp:25-49 | A hit is truthful and changes nothing; any other answer touches only that path; without faults it hits exactly when cached |
| AssetCache.LookupSpares | client/src/assets/cache.cpp:25-49 | What a lookup does to a cached file, for every combination of failing calls: it survives exactly when the paths differ, or the lookup cannot look or cannot remove, or the sizes agree and kind, size and contents can be read; a cached file is missed exactly when MissesCached says so |
| AssetCache.LookupExactly | client/src/assets/cache.cpp:25-49 | For every combination of failing calls, when a lookup hits, misses and fails, and what it leaves |
| AssetCache.CommitExactly | client/src/assets/cache.cpp:66-94 | For every combination of failing calls, when a commit succeeds, and where the bytes are then |
| AssetCache.CommitSound | client/src/assets/cache.cpp:66-94 | A successful commit of a verified temporary file leaves the announced bytes at the cache path and touches no third path |
| ManifestStream.CompletesExactlyOnStreams | client/src/assets/manager.cpp:33-111 | The receiver completes on a message exactly when the manifest messages since the reset are the stream of a well-formed manifest, and keeps precisely that manifest |
| ManifestStream.StepDescribed | client/src/assets/manager.cpp:33-111 | For any history the answer is Ignored, Accepted or Complete by what the stream of manifest messages is, and the fields keep their meaning |
| ManifestStream.RefusedFor | client/src/assets/manager.cpp:33-111 | After any messages the next one is refused for its order exactly if it has no place in the stream so far, and for its content exactly if it has its place but the stream is past repair with it |
| AssetManager.HearsExactly | client/src/assets/manager.cpp:180-206 | What a message changes in the manager, by the receiver's answer: the note of a beginning with its count, the note of a completion with the wanted assets queued, and nothing else |
| AssetManager.QueuesWanted | client/src/assets/manager.cpp:221-239 | For any state table, exactly the unknown and failed assets are queued, noticed and marked, in manifest order |
| ManifestStream.FailedExactlyOffStream | client/src/assets/manager.cpp:35-37 | Failed exactly when the manifest messages since the reset are no prefix of an acceptable stream |
| ManifestStream.LatchedUntilReset | client/src/assets/manager.cpp:105-121 | Failed stays failed, and a completed manifest is neither changed nor completed again, until a reset |
| ManifestStream.CompletedOnce | client/src/assets/manager.cpp:105-107 | A completed manifest appears with the completing message and no other |
| ManifestStream.KeptExactlyWhenComplete | client/src/assets/manager.cpp:105-106 | A completed manifest is kept exactly in the complete state, if and only if no manifest message has followed a finished stream |
| ManifestStream.KeptUntilStray | client/src/assets/manager.cpp:33-37 | The guard before the call: what ends that correspondence is exactly a manifest message met in the complete state |
| ManifestStream.StrayAfterStream | client/src/assets/manager.cpp:35-37 | The failing input: after any published stream and any manifest message the receiver has failed and keeps the manifest |
| ManifestStream.CompletedIsManifest | client/src/assets/manager.cpp:58-107 | Whatever is kept as completed is well formed: valid assets, distinct ids and names, sizes adding up |
| ManifestStream.ChargedBytes | client/src/assets/manager.cpp:50-103 | While a stream is accepted the receiver has charged exactly the encoded payload lengths, at most 564776 |
| ManifestStream.OpenBudget | client/src/assets/manager.cpp:66-68 | The metadata budget is never exceeded by valid assets, so its check cannot fire and its subtraction cannot underflow |
| ManifestStream.ManifestReceiver.End | client/src/assets/manager.cpp:79-108 | The End part: the summing loop decides by the true total |
| ProtocolExactness.CodecExactness | shared/src/protocol.cpp:487-565 | A byte string decodes to a message exactly when it is that message's encoding |
| WireLayout.EncodedByTable | docs/protocol.md:29-118 | Every message becomes the bytes its documented table says, row by row; a message that breaks a field rule becomes none |
| WireLayout.RefusedByTable | shared/src/protocol.cpp:332-478 | The tables' bytes with any bytes behind them: fields that break a rule are refused as such, else bytes left over as a length mismatch, else the message is decoded |
| WireLayout.RulesAreChecked | shared/src/protocol.cpp:166-188 | A message is encodable exactly when its fields keep the documented rules, number by number |
| WireLayout.RefusedByHeader | shared/src/protocol.cpp:520-565 | Each error about the header is given exactly for its own fault of the 12 bytes and the length, the first that applies |
| ProtocolExactness.DecodeOfEncode | shared/src/protocol.cpp:487-565 | Decoding an encodable message's packet gives the message back |
| ProtocolExactness.EncodeOfDecode | shared/src/protocol.cpp:487-565 | Encoding a decoded message gives the packet back, byte for byte |
| ProtocolExactness.TruncatedPacket | shared/src/protocol.cpp:520-555 | Every proper prefix of a packet is refused as a truncated header or payload |
| ProtocolExactness.ExtendedPacket | shared/src/protocol.cpp:520-555 | Every proper extension is refused for its payload length |
| Protocol.PayloadLength | shared/src/assets.cpp:103-111 | The accounting formula is the encoded payload length; every encodable message fits 2206 payload and 2218 packet bytes |
| Encoder.EncodePacket | shared/src/protocol.cpp:487-518 | The writer-driven encoder computes the packet function: every field, header and error |
| Encoder.EncodePayload | shared/src/protocol.cpp:248-330 | Appends exactly the payload of an encodable message, or reports an invalid field |
| Decoder.DecodePacket | shared/src/protocol.cpp:520-565 | The cursor-driven decoder computes the packet-reading function: every message and every error |
| Decoder.DecodePayload | shared/src/protocol.cpp:332-478 | The same for payloads, including trailing bytes |
| Decoder.ReadAssetDescription | shared/src/protocol.cpp:199-219 | Reads and validates a description |
| TransportFrame.FrameExactness | shared/src/transport_frame.cpp:14-50 | Framing and inspecting undo each other on everything that fits a packet |
| TransportFrame.WireExactness | shared/src/transport_frame.cpp:14-50 | Every encodable message has a frame and no other does; a frame delivers a message exactly when it is that message's frame |
| TransportFrame.WireRoundTrip | shared/src/transport_frame.cpp:35-50 | An encodable message survives the trip over the wire |
| Assets.LogicalNameGrammar | shared/src/assets.cpp:53-61 | A name is accepted exactly when it is 1 to 96 bytes and the slash-join of good segments |
| Assets.IsLogicalNameValid | shared/src/assets.cpp:53-61 | The validator decides exactly that |
| Assets.HasInvalidPathSegment | shared/src/assets.cpp:15-32 | The scan finds a bad segment exactly when the slash-split has one |
| Assets.StartsWithCaseInsensitive | shared/src/assets.cpp:34-45 | The loop decides the case-blind prefix test |
| Assets.DownloadUrlGrammar | shared/src/assets.cpp:63-94 | A URL is accepted exactly when it has a reading as scheme, authority and rest, and that reading is unique |
| Assets.SchemeEndFound | shared/src/assets.cpp:72-75 | After the prefix test the separator is always found right behind the scheme: the missing-separator branch is unreachable |
| Assets.IsDownloadUrlValid | shared/src/assets.cpp:63-94 | The validator decides exactly the accepted URLs |
| Assets.IsAssetDescriptionValid | shared/src/assets.cpp:96-101 | The validator decides exactly the valid descriptions |
| Sha256Hex.ParseSha256Hex | shared/src/sha256.cpp:79-94 | Accepts exactly the lowercase hexadecimal texts of 32-byte digests and returns that digest |
| Sha256Hex.HexInjective | shared/src/sha256.cpp:75-77 | Different digests print differently |
| AssetRegistry.ReachableManifest | server/src/asset_registry.cpp:55-67 | After any operations the built manifest is well formed: the strictly id-sorted list of exactly the registered assets, with their total |
| AssetRegistry.RevisionGrows | server/src/asset_registry.cpp:82-86 | The revision grows by one with each change of content, until it saturates, and with nothing else |
| AssetRegistry.RegisterKeeps | server/src/asset_registry.cpp:8-30 | Registering keeps the invariant (exact total within the limit, name index the exact inverse, at most 256 entries) and adds one entry at its sorted place, or changes nothing |
| AssetRegistry.RegisterAnswers | server/src/asset_registry.cpp:8-30 | An asset is added exactly when the manifest with it in its place is still a manifest; each refusal names the first of: invalid, id listed, name listed, 256 listed, total over 512 MiB |
| AssetRegistry.RemoveKeeps | server/src/asset_registry.cpp:32-42 | Removing keeps the invariant and is undone by inserting the entry again |
| AssetRegistry.ClearKeeps | server/src/asset_registry.cpp:44-53 | Clearing keeps the invariant and publishes an empty manifest |
| AssetRegistry.SortedInsert | server/src/asset_registry.cpp:60-65 | Insertion into the sorted list is the sorted list of the extended table, in whatever order entries come |
| AssetRegistry.AssetRegistry.BuildManifest | server/src/asset_registry.cpp:55-67 | Copy and sort give the unique sorted list of the table |
| ManifestConfig.LoadManifestConfig | server/src/manifest_config.cpp:22-86 | From tokenised lines, all or nothing: the registry becomes the file's own or is untouched; the first bad line is reported; a load raises the revision exactly when the old one is below one plus the number of lines with fields, and lowers it exactly when above |
| ManifestConfig.LoadRevision | server/src/manifest_config.cpp:31-84 | A loaded registry has one entry for each line with fields and a revision one higher than their number, at most 257 |
| ManifestConfig.RevisionFalls | server/src/manifest_config.cpp:84-84 | The failing input: a registry at revision 3 and an empty file, which takes it to 1 |
| ManifestConfig.LoadIsFold | server/src/manifest_config.cpp:31-79 | A file that loads installs the registry its registrations build from a fresh one |
| ManifestConfig.LoadedLine | server/src/manifest_config.cpp:52-79 | A loaded registry has, for every line of six fields, the asset that line asks for, with type 1 for DFF and 2 for TXD and the digest its text spells, and nothing else |
| ManifestConfig.NextLine | server/src/manifest_config.cpp:31-79 | After any good lines the next one is refused for its field count, else its digest, else its type, else with the answer of the registry; and that ends the load |
| AssetPublication.PublicationDelivers | server/src/asset_publication.cpp:24-83 | The frames of a publication carry the stream of the registry's manifest, to that player only; only the transport can make it fail; a fresh receiver accepts every message, completes on the last and holds the manifest |
| AssetPublication.StreamEncodable | server/src/asset_publication.cpp:135-146 | No message of a well-formed manifest's stream can fail to encode |
| AssetPublication.StreamAnswers | client/src/assets/manager.cpp:33-111 | Fed a published stream, a fresh receiver answers Accepted to every message but the last, and Complete to that |
| AssetPublication.LastReportWins | server/src/asset_publication.cpp:85-124 | After any messages the ready and failed assets are exactly the expected ones whose last report says so, and the session is ready exactly when all expected assets are, although only sizes are compared |
| AssetPublication.ReportsTaken | server/src/asset_publication.cpp:85-124 | After a publication and any reports, a report is recorded exactly when it names the published revision and one of its assets, and nothing is out of order any more |
| AssetPublication.OutOfTurn | server/src/asset_publication.cpp:25-84 | Reports from anybody without a publication are out of order, and publishing is refused, with the answer that says why, to all but a waiting player |
| AssetPublication.AssetPublication.OnPlayerCompatible | server/src/asset_publication.cpp:24-83 | Record, frames put to the transport and result are exactly those of publishing the registry's manifest, however sends fail |
| ServerTransport.SendAllTalk | server/src/asset_publication.cpp:58-77 | A batch is put to its addressee and nobody else, up to the first refusal, and fails only by refusal |
| ServerTransport.SentExactly | server/src/asset_publication.cpp:135-148 | A message is sent exactly if it can be encoded and the transport takes it; one that cannot uses up no answer |
| ServerTransport.SpokenShape | server/src/asset_publication.cpp:58-77 | A batch is said front to back; all is heard exactly when the transport takes all |
| HandshakeAgreement.LoopbackAgreement | server/src/handshake_endpoint.cpp:46-100 | With both messages delivered a fresh connection ends with both sides compatible on the same negotiated set exactly if version, build and capabilities fit, and else both rejected for the same reason |
| ClientHandshake.AnswerExactly | client/src/protocol/handshake.cpp:43-76 | After its Hello the client takes every Reject, and a Welcome exactly if both versions are this protocol's and it grants nothing undeclared or not offered; nothing else changes anything |
| HandshakeAgreement.AgreedCapabilities | server/src/player_capabilities.cpp:103-112 | The negotiated bits are those declared, offered and known, and miss no required one |
| HandshakeAgreement.AnswerTaken | client/src/protocol/handshake.cpp:46-76 | The client takes the server's answer for what it says |
| PlayerCapabilities.WelcomedExactly | server/src/player_capabilities.cpp:88-116 | A waiting player is welcomed exactly when its protocol is this one, its runtime has the major version and is not older than the minimum, its build is R1 or R3-1, and its capabilities fit; it negotiates exactly the shared bits |
| PlayerCapabilities.RefusedFor | server/src/player_capabilities.cpp:88-115 | Any other waiting player is turned away for the first of: protocol, runtime, build, undeclared bits, missing required bits; the record keeps the reason and what the Hello declared |
| PlayerCapabilities.HelloOutOfTurn | server/src/player_capabilities.cpp:74-87 | Out of turn, an identical Hello is welcomed again, a rejected player hears its old reason, and everything else is malformed |
| PlayerCapabilities.RepeatedHello | server/src/player_capabilities.cpp:74-87 | A repeated Hello gets the same answer and changes nothing, whatever the record was |
| PlayerCapabilities.ShutOutUntilBegin | server/src/player_capabilities.cpp:64-130 | A rejected or unknown player stays out through any history until its next connection begins |
| PlayerCapabilities.HearKeeps | server/src/player_capabilities.cpp:70-116 | Every answer is encodable and says what the record says; all records stay meaningful |
| PlayerCapabilities.FindSampBuild | shared/src/version.cpp:30-38 | The search finds a build exactly when the table has its version |
| HandshakeEndpoint.NonHelloRejected | server/src/handshake_endpoint.cpp:46-79 | A claimed payload that is not a Hello in a legal packet leaves its sender rejected and told so, for its protocol version when that stopped the decoder |
| HandshakeEndpoint.HelloAnswered | server/src/handshake_endpoint.cpp:62-100 | A Hello is answered from the record it leads to, and the result says what became of the answer |
| PublicationGate.PublishedAtMostOnce | server/openmp/component.cpp:219-298 | Per connection at most one manifest beginning is put to a player, each manifest message comes after a Welcome that was sent, and together they are one front piece of one stream |
| PublicationGate.RecordedUntilEnd | server/openmp/component.cpp:182-202 | Manifest, revision and expected set of a publication do not change until disconnect, reconnect or reset, whatever is sent or registered; ready assets are decided by the last reports since |
| PublicationGate.EventKeeps | server/openmp/component.cpp:182-318 | Every server event keeps the gate invariant of every watched player |
| ServerComponent.RejectsOnlyMisshapen | server/openmp/component.cpp:239-245 | Of the claimed payloads that are no Hello exactly those of wrong shape get their sender rejected and told so; every other one leaves the handshake records and the wire alone |
| ServerComponent.PassesOnTheRest | server/openmp/component.cpp:219-238 | Other handlers see a payload exactly when the player id is negative, or it does not start, at a byte boundary, with the four letters; and then nothing has changed |
| ServerComponent.UndecodableDropped | server/openmp/component.cpp:308-310 | The input at which the component does not reject: the magic alone is claimed, cannot be decoded and is dropped |
| PublicationStanding.PublishedAndCompatible | server/src/player_capabilities.cpp:74-87 | From the publishing event until the connection ends, the player is compatible exactly as long as it has sent no misshapen payload and no Hello other than the one it was welcomed for; the publication stands either way |
| PublicationStanding.CompatibleExactly | server/src/player_capabilities.cpp:70-126 | The same for any run within a connection that starts compatible |
| PublicationStanding.CompatibleStep | server/src/player_capabilities.cpp:70-126 | One event: a compatible player stays so, record and all, exactly when the event is no such input, and is rejected otherwise |
| PublicationStanding.PublicationBegins | server/openmp/component.cpp:273-277 | A publication begins with a compatible player |
| PublicationStanding.RejectedButPublished | server/openmp/component.cpp:239-245 | Two failing inputs at any published compatible player: a payload with odd bits, and a Hello with other capabilities; both leave it rejected with its publication standing |
| ServerComponent.CustomModelComponent.OnReceive | server/openmp/component.cpp:219-298 | Tracker, publication, frames and whether other handlers see the packet are exactly those of the receive function |
| HookRuns.HookIsFilter | client/src/samp/raknet_transport.cpp:457-503 | Over any run the game gets back, unchanged and in order, exactly the pulled packets that carry no CMOD frame; each that does is freed once and never returned; readable ones of legal size are dispatched in order; at most 64 pulls a call |
| HookRuns.ConnectionEventsAlternate | client/src/samp/raknet_transport.cpp:402-455 | Connected and Disconnected strictly alternate, and Connected comes only after a packet of its connection was pulled and another pull was made |
| HookHistory.HistoryDecides | client/src/samp/raknet_transport.cpp:402-503 | Over any run, after every answer and every packet there is exactly the reaction that the history before it calls for, then the next query or pull: the four flags and nothing else are explained by the history |
| HookHistory.EventsFollow | client/src/samp/raknet_transport.cpp:402-455 | A true answer opens a connection unless it echoes a loss; the first pull after a packet seen in it announces it at once; a false answer or a packet of type 32 or 33 closes it, with Disconnected exactly when announced |
| HookHistory.OneHelloPerConnection | client/src/core/runtime.cpp:242-280 | With the client runtime driven by the hook, its handshake is disconnected at each Connected, and it says Hello exactly once for each pull made after a packet was seen in an unannounced connection |
| HookRuns.AlternationGreets | client/src/protocol/handshake.cpp:12-44 | The same for any trace whose connection events alternate |
| ReceiveHook.RakNetTransport.ReceivePacket | client/src/samp/raknet_transport.cpp:457-503 | One hook call does exactly what the call function says |
| ReceiveHook.RakNetTransport.ConsumePackets | client/src/samp/raknet_transport.cpp:466-502 | The bounded loop does exactly what the consuming recursion says |
| ClientRuntime.ClientRuntime.HandleIncomingProtocol | client/src/core/runtime.cpp:154-240 | Handshake, manager and frames sent are exactly those of the incoming function: complaint about a refused asset included |
| ClientRuntime.ClientRuntime.PumpAssetResults | client/src/core/runtime.cpp:80-152 | Only a compatible client drains events; every Ready and Failed is reported in order |
| ClientRuntime.SilentAfterUnload | client/src/core/runtime.cpp:63-69 | After unloading nothing is sent, the handshake stays unconnected and the manager stopped, whatever callbacks still come |
| AssetWorker.AssetWorker.Download | client/src/assets/manager.cpp:270-292 | The download part of the same, from the fetch on |
| AssetWorker.AssetWorker.VerifyDownload | client/src/assets/manager.cpp:294-314 | The verification part of the same |
| AssetWorker.AssetWorker.CommitDownload | client/src/assets/manager.cpp:315-320 | The commit part of the same |
| AssetManager.ClientAssetManager.RequestStop | client/src/assets/manager.cpp:159-166 | Stops and empties the queue, nothing else |
| AssetManager.ClientAssetManager.ResetSession | client/src/assets/manager.cpp:168-178 | Next generation, zero skipped; receiver, queue, events and states cleared |
| AssetManager.ClientAssetManager.HandleMessage | client/src/assets/manager.cpp:180-206 | Feeds the receiver and records its progress; a completed manifest is queued |
| AssetManager.ClientAssetManager.DrainEvents | client/src/assets/manager.cpp:208-213 | Hands over all pending events and keeps none |
| AssetManager.ClientAssetManager.TakeWork | client/src/assets/manager.cpp:242-252 | Takes the front item unless stopping |
| AssetManager.ClientAssetManager.SetState | client/src/assets/manager.cpp:326-344 | A report of another generation is dropped; of this one, recorded in states and events together |
| AssetCache.AssetCache.Lookup | client/src/assets/cache.cpp:25-49 | Returns and does exactly what the lookup function says, for every combination of failing calls |
| AssetCache.AssetCache.CommitVerified | client/src/assets/cache.cpp:66-94 | The same for the commit |
| AssetCache.AssetCache.RemoveTemporary | client/src/assets/cache.cpp:96-102 | Removes the path unless the call fails |
| ManifestStream.ManifestReceiver.Handle | client/src/assets/manager.cpp:33-111 | Returns and becomes exactly what the step function says |
| ManifestStream.ManifestReceiver.Begin | client/src/assets/manager.cpp:34-56 | The Begin part of the same |
| ManifestStream.ManifestReceiver.Asset | client/src/assets/manager.cpp:58-77 | The Asset part, including the id left behind by a duplicate name |
| ManifestStream.ManifestReceiver.Reset | client/src/assets/manager.cpp:113-121 | Back to the initial receiver |
| Encoder.ByteWriter.WriteU64 | shared/src/protocol.cpp:30-33 | Appends the big-endian field |
| Encoder.ByteWriter.WriteString | shared/src/protocol.cpp:43-50 | Appends length and bytes, refusing what a 16-bit length cannot say |
| Encoder.ByteWriter.WriteAssetDescription | shared/src/protocol.cpp:190-197 | Appends exactly the description's wire image |
| Decoder.ByteReader.ReadU64 | shared/src/protocol.cpp:103-112 | Reads the big-endian field and advances, or reports the shortage |
| Decoder.ByteReader.ReadString | shared/src/protocol.cpp:123-135 | Reads a length-prefixed string within its bound |
| AssetRegistry.AssetRegistry.RegisterAsset | server/src/asset_registry.cpp:8-30 | Returns and becomes exactly what the operation says |
| AssetRegistry.AssetRegistry.RemoveAsset | server/src/asset_registry.cpp:32-42 | The same for removal; the subtraction never underflows |
| AssetRegistry.AssetRegistry.ClearAssets | server/src/asset_registry.cpp:44-53 | The same for clearing |
| AssetPublication.AssetPublication.OnPlayerConnected | server/src/asset_publication.cpp:14-18 | A fresh waiting record |
| AssetPublication.AssetPublication.OnPlayerDisconnected | server/src/asset_publication.cpp:20-22 | The record is gone, all others stay |
| AssetPublication.AssetPublication.HandleIncoming | server/src/asset_publication.cpp:85-124 | Record and result are exactly those of the report function |
| AssetPublication.AssetPublication.Say | server/src/asset_publication.cpp:135-146 | Encodes, frames and sends one message, or sends nothing |
| PlayerCapabilities.PlayerCapabilityTracker.constructor | server/src/player_capabilities.cpp:58-62 | Undeclared policy bits are masked away |
| PlayerCapabilities.PlayerCapabilityTracker.HandleHello | server/src/player_capabilities.cpp:70-116 | Record and answer are exactly those of the Hello function |
| PlayerCapabilities.PlayerCapabilityTracker.RejectPlayer | server/src/player_capabilities.cpp:117-126 | A rejected record with the reason, and the Reject |
| HandshakeEndpoint.HandshakeEndpoint.DispatchIncoming | server/src/handshake_endpoint.cpp:22-32 | Tracker, frames and result are exactly those of dispatching the frame |
| HandshakeEndpoint.HandshakeEndpoint.DispatchProtocolPayload | server/src/handshake_endpoint.cpp:34-44 | The same for a payload without its carrier byte |
| HandshakeEndpoint.HandshakeEndpoint.DispatchClaimedProtocol | server/src/handshake_endpoint.cpp:46-68 | The same for a claimed payload |
| HandshakeEndpoint.HandshakeEndpoint.RejectMalformed | server/src/handshake_endpoint.cpp:70-72 | Rejects as malformed |
| HandshakeEndpoint.HandshakeEndpoint.Respond | server/src/handshake_endpoint.cpp:81-100 | Sends the response and reports its kind, or its loss |
| ClientHandshake.ClientHandshake.OnConnected | client/src/protocol/handshake.cpp:12-18 | Connects only a disconnected handshake and forgets earlier answers |
| ClientHandshake.ClientHandshake.OnDisconnected | client/src/protocol/handshake.cpp:20-24 | Back to the unconnected handshake |
| ClientHandshake.ClientHandshake.TakeHello | client/src/protocol/handshake.cpp:26-44 | Yields the Hello packet once per connection |
| ClientHandshake.ClientHandshake.HandleIncoming | client/src/protocol/handshake.cpp:46-76 | State and result are exactly those of the packet function |
| ClientHandshake.ClientHandshake.ConfirmWelcome | client/src/protocol/handshake.cpp:78-85 | Confirms only a received Welcome |
| ServerComponent.CustomModelComponent.DispatchProtocol | server/openmp/component.cpp:300-318 | Undecodable payloads are dropped, Hellos go to the endpoint, everything else to the publication |
| ServerComponent.CustomModelComponent.OnPlayerConnect | server/openmp/component.cpp:187-192 | Both records begin; negative ids are ignored |
| ServerComponent.CustomModelComponent.OnPlayerDisconnect | server/openmp/component.cpp:194-202 | Both records go |
| ServerComponent.CustomModelComponent.Reset | server/openmp/component.cpp:182-185 | All records go |
| ReceiveHook.RakNetTransport.Observe | client/src/samp/raknet_transport.cpp:402-425 | Flags and notifications are exactly those of the observation step |
| ReceiveHook.RakNetTransport.TellConnected | client/src/samp/raknet_transport.cpp:427-438 | Announces a pending connection once |
| ReceiveHook.RakNetTransport.TellDisconnected | client/src/samp/raknet_transport.cpp:440-455 | Closes, and announces it if the connection had been announced |
| ClientRuntime.ClientRuntime.HandleConnectionEvent | client/src/core/runtime.cpp:242-280 | A new session on every event; a Hello on Connected |
| ClientRuntime.ClientRuntime.SendAssetReport | client/src/core/runtime.cpp:63-78 | Encodes, frames and sends, or loses the report |
| ClientRuntime.ClientRuntime.RequestShutdown | client/src/core/runtime.cpp:395-407 | The transport is given up, the handshake disconnects and the manager stops |

## Left out

- The WinHTTP transfer, URL cracking and its diagnostics: a download is any outcome at all.
- SHA-256 itself: an arbitrary function; nothing proved depends on collisions being hard to find. Lowercase printing is taken from the project's own tests.
- Module inspection, vtable resolution, hook installation, memory queries and the unload path's thread handling: Windows interfaces. Whether a packet is readable is part of the packet.
- Hook calls for another RakNet client object, which go straight to the original function.
- Portable-executable parsing, build names and the compatibility tables.
- Logging, packet previews and every ToString, with the flag that logs a malformed packet once.
- Splitting configuration lines into fields, including numeric extraction and trimming: the loader starts from tokenised lines.
- Out-of-memory exceptions, other than an exception inside the handling of an item, which may strike at any of its steps before its final report when the engine is started with `throws`. The same exceptions in the handlers of server and runtime are not modelled.
- The open.mp send path's own refusals (no such player, no core, too large): the transport's answers are arbitrary.
- Creating the cache directories, starting and joining the worker thread, and condition-variable wake-ups: the worker may step or not step at any moment.
- Null byte views and transports that are unavailable from the start.
- `SerializedAssetBytes`'s guard against size overflow: no string is that long.
- Player ids of 2^31 and above: the component's players have signed ids and it ignores negative ones.
- Identity of shared objects: the step functions of the composed models are on values, and the classes tie them to objects one class at a time.
- AssetWorker.AssetWorker.Process: runs an item with nothing in between and without exceptions, as the straight code reads; interleavings and exceptions are in the engine, whose steps it is proved to follow.
- AssetWorker.AssetWorker.WorkerLoop: ends when the queue is empty, where the thread would wait; a stop in the middle is in the engine.
- CacheRefinement.CommittedAtMostOnce: assumes one announced size per content and no lookup that finds a good file, cannot read it and removes it, because after either the code may download the content again.
- CacheRefinement.ReadyStaysCached: assumes the same, for the same reason, and nobody else changing the cache directory.
- SettledAgreement.SettledSidesAgree: assumes that the client's transport refuses no report, because a lost report is never repeated.
- ManifestConfig.LoadManifestConfig: takes the trimming and field extraction of lines 33 to 51 as done.
- CacheRefinement.NoTemporaryStays: is about disks that start without temporary files and runs without exceptions, for the contents nobody fetches; `CacheRefinement.FetchLeavesNothing` is the statement for every disk and every run.
- CacheRefinement.FetchLeavesNothing: assumes that no exception strikes and no removal fails in the handlings at that one path, because an exception between download and commit leaves the file (`CacheRefinement.ThrowLeavesTemporary`) until the next fetch for that path removes it.
- A connect event that follows a reset of the component, in a connection that has had its manifest, counts in `EndToEnd` as a new connection, though the component itself drops no frame there: reports in flight across such a reset are not modelled.
