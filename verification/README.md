# Voice daemon and client engine: a verified model

This project models the parts of the repository where a mistake would be hard to see by reading, and
proves what they are for. Nothing here executes the original program.

| area | files | main results |
|---|---|---|
| Lock-free audio ring | `RingSteps`, `RingBuffer`, `RingRefines` | `RingSafety`, `PopIsLinear`, `FifoWithoutDrops`, `PacingIsExact`, `UnpacedRunOverruns`, `CapStrikesExactly` |
| Call control, atomic handlers | `Registry`, `Handlers`, `CallControl`, `CallTraffic`, `CallLaws` | `RegistryInvariant`, `WhatACallerGets`, `NoFrameWithoutStandingConsent`, `FrameReachesExactlyOne`, `FrameHeardBy`, `NoDuplicatePrompts` |
| Call control, lock-sized steps | `LockSteps`, `LockRevocation`, `LockExact`, `LockPrompts`, `LockRuns` | `AcceptanceUnderInterleaving`, `HangupHoldsExactly`, `PromptsOnceExactly`, `PromptsUnderInterleaving`, and the runs `HangupOutrun`, `RequestOutlivesClearing`, `TwoChannelsPromptTwice` |
| The code the runs stand for | `RegistryObject`, `Dispatch` | `OnMessage`: limiter, decoder and handlers, statement by statement, make exactly the steps that the run theorems quantify over |
| Rooms | `Rooms`, `RoomHistory`, `RoomRelay` | `TopThreeOfHistory`, `VoicesAreHistory`, `ChangeFlagIsExact`, `RelayRoomAudio` |
| Mesh flooding | `Mesh` | `FloodingIsBounded`, `EveryCopyIsFaithful`, `FloodReachesExactly` |
| Tables that forget | `RateLimit`, `AntiReplay` | `PurgeUnobservableExactly`, `NoInterference`, `LimiterEnvelope`, `FirstPresentation`, `AcceptedAgainExactly` |
| Resampler and playback | `Resample`, `Traffic`, `Playback`, `Session` | `Resampler.Process`, `LineIsReproduced`, `StreamLength`, `PlaySession` |
| Wire codec, addresses | `Bytes`, `Addresses`, `Codec`, `CodecRoundTrip`, `WireLayout` | `RoundTrip`, `EncodedAsLaidOut`, `AcceptedSurvives`, `ShortIdSurvivesWire` |

`Arith` holds the modular arithmetic the ring needs, `Basics` the types and the clock that several components share.

How the pieces are modelled:

- **Ring.** One action is one atomic load, store or compare-exchange. Counters wrap at 2^64 as in the
  code; `pushed` and `fates` are a history no step reads. A run is any interleaving of one producer
  (`push`, `cap_latency`) with any number of popping consumers, weak-exchange failures included.
- **Registry and handlers.** `Tables` is the registry as one value. `Handlers.Micro` is what one
  acquisition of the registry lock does, and `Handlers.Handle` is a handler that nobody interrupts.
  `CallControl.Next` runs whole handlers; `LockSteps.Moves` interleaves the acquisitions of all data
  channels, several of which may belong to one client, with connects and disconnects.
  `RegistryObject.ClientRegistry` is the mutable object and `Dispatch` the handlers written against it.
  Hash-map iteration order is left open wherever it can show.
- **Mesh.** Any finite graph, cycles and lost packets included; frames travel as encoded bytes, so the
  results rest on the codec.
- **Limiter, cache.** The clock and the outcome of signature checks are inputs. Tokens and times are reals.
- **Resampler.** The phase is an integer in units of 1/dst of an input sample, so nothing rounds.
- **Playback.** The network side may use the ring between any two pops of the output callback; a
  ledger accounts for every sample as taken, waiting or dropped.

Where the code falls short of a property one would expect, the model keeps the code, a lemma gives the
input or run that shows it, and another says exactly when the property holds:

- `cap_latency` keeps the tail behind the head if and only if at most `target` pops land between its
  length snapshot and its exchange (`PacingIsExact`); for all limits below the capacity there is a run
  that breaks it (`UnpacedRunOverruns`).
- A packet survives the wire if and only if it is well formed (`RoundTrip`); a broadcast of 32 or more
  payload bytes is read back as a client assignment (`LongBroadcastMisread`).
- A short ID means the same before and after the wire if and only if it does not end in `0`
  (`ShortIdSurvivesWire`, `TrailingZeroChangesLookup`).
- Purging idle buckets goes unnoticed on all runs if and only if an idle minute refills a whole bucket or
  a bucket never holds a whole token (`PurgeUnobservableExactly`).
- A full anti-replay cache evicts live entries (`EvictionAdmitsReplay`). A header presented again inside
  its window is accepted if and only if an eviction since its last acceptance threw it out
  (`AcceptedAgainExactly`), which 5000 strictly older headers beside it prevent (`OlderHeadersProtect`).
- A hangup takes back the sender's own approval if and only if it names the full address, not a short ID
  (`HangupRevokesExactly`).
- A hangup can be outrun: a handler that has passed its checks still sends its frame, and by making the
  other end its target opens the way back (`HangupOutrun`). On every continuation of a hangup all frames
  between the two have an acceptance before them if and only if the hangup leaves no handler, of either
  end, that can lead to one (`HangupHoldsExactly`, for all states). Unless somebody is calling a
  connection that is no longer registered, those are just the handlers past their checks with something
  to send, and the handlers of registered clients about to choose the other end as their target
  (`PlainThreat`); calls to lost connections add those with an old approval and chains of such handlers.
- A callee can be prompted twice with no clearing between the two requests: when the clearing falls
  between marking and sending, or when two channels of the caller look before either marks
  (`RequestOutlivesClearing`, `TwoChannelsPromptTwice`); these are the only ways
  (`PromptsUnderInterleaving`). From any state in which the callee is marked, every later request has a
  clearing before it if and only if no handler of the caller stands between looking and sending
  (`PromptsOnceExactly`).
- A ring that holds `net_needed` samples is not enough for a request of more than 1920 frames when the
  latency cap strikes during the callback (`CapCausesPadding`); a turn plays no silence exactly when what
  its pops find resamples to enough frames (`NoPaddingExactly`).
- A call's audio is not all forwarded: a frame is broadcast only by a client that has not chosen what its
  key denotes, and the broadcast makes that choice, after which audio for the same key is room audio
  (`BroadcastChooses`, `InCallIsRoomAudio`); `WhatACallerGets` says exactly when a frame is broadcast.
- A broadcast frame is passed on by the loops of the resolved target and by those of outdated connections
  that still match, so it is heard once exactly when these number one in all (`FrameHeardBy`).
- A relayed frame keeps its addresses if and only if they are canonical lower-case hex; the relay also
  forces the codec to Opus (`EveryCopyIsFaithful`).

## Model

| member | source | states |
|---|---|---|
| RingSteps.StepPreserves | crates/wpapi/src/audio/buffer.rs:56-122 | every atomic load, store or exchange of push, pop or cap_latency keeps the ring invariant: counters within one capacity, live slots hold the samples of their logical positions, stale snapshots still mean what they meant |
| RingSteps.RingSafety | crates/wpapi/src/audio/buffer.rs:43-122 | in every state of every interleaving, tail <= head <= tail + capacity (logically, with wrapped counters) and every delivered sample is the one pushed at its position |
| RingSteps.PopIsLinear | crates/wpapi/src/audio/buffer.rs:77-95 | a pop that succeeds takes the next sample in push order, and no other pop at any time is given that position |
| RingSteps.FifoWithoutDrops | crates/wpapi/src/audio/buffer.rs:54-95 | while nothing is dropped, the consumers together have received a prefix of what was pushed, in order |
| RingSteps.NoneIsHonest | crates/wpapi/src/audio/buffer.rs:80-83 | a pop answers None only when the ring is empty at the moment it looks |
| RingSteps.PacingIsExact | crates/wpapi/src/audio/buffer.rs:104-122 | the exchange in cap_latency keeps tail <= head exactly when at most target pops landed since its length snapshot |
| RingSteps.UnpacedRunOverruns | crates/wpapi/src/audio/buffer.rs:104-122 | for every capacity and all limits below it, a run whose exchanges are otherwise paced, in which target + 1 pops fall into the window of cap_latency and its exchange moves the tail past the head |
| RingSteps.SlotIsMod | crates/wpapi/src/audio/buffer.rs:62-84 | the bitwise mask of a counter is its remainder by the power-of-two capacity, so that slots repeat exactly once per capacity |
| RingRefines.PushAlone | crates/wpapi/src/audio/buffer.rs:56-65 | the uninterrupted steps of a push do to the samples waiting in the ring what the sequential push does to its queue, with the same answer |
| RingRefines.PopAlone | crates/wpapi/src/audio/buffer.rs:77-95 | likewise for a pop by any consumer: the oldest waiting sample, or none |
| RingRefines.CapAlone | crates/wpapi/src/audio/buffer.rs:104-122 | likewise for cap_latency: above max exactly the newest target samples are left waiting, otherwise nothing changes |
| RingRefines.PushRefusedExactly | crates/wpapi/src/audio/buffer.rs:56-65 | on every run, a push is refused exactly when the ring is full as it reads the tail |
| RingRefines.CapStrikesExactly | crates/wpapi/src/audio/buffer.rs:104-109 | on every run, cap_latency goes on to drop exactly when it measures more than max samples, and otherwise ends with tail and deliveries as it found them |
| RingRefines.CapDropsOldest | crates/wpapi/src/audio/buffer.rs:109-122 | on every run, its exchange marks exactly the oldest samples as dropped, all but target of those it measured |
| RingBuffer.Capacity | crates/wpapi/src/audio/buffer.rs:22-24 | the capacity is a power of two, at least 1024, less than twice the request when above 1024, and covers the request exactly when that is at most 2^63 |
| RingBuffer.AudioRingBuffer.constructor | crates/wpapi/src/audio/buffer.rs:22-35 | a new ring is empty and has that capacity |
| RingBuffer.AudioRingBuffer.Len | crates/wpapi/src/audio/buffer.rs:43-47 | the wrapped counter difference is the number of queued samples |
| RingBuffer.AudioRingBuffer.Push | crates/wpapi/src/audio/buffer.rs:56-65 | appends to the queue and answers true, or leaves it alone and answers false, the latter exactly when full |
| RingBuffer.AudioRingBuffer.Pop | crates/wpapi/src/audio/buffer.rs:77-95 | takes the head of the queue, or answers empty exactly when there is none |
| RingBuffer.AudioRingBuffer.Clear | crates/wpapi/src/audio/buffer.rs:98-101 | with one thread, the queue is empty afterwards |
| RingBuffer.AudioRingBuffer.CapLatency | crates/wpapi/src/audio/buffer.rs:104-122 | above max, exactly the newest target samples remain; otherwise nothing changes |
| RingBuffer.AudioRingBuffer.PushSlice | crates/wpapi/src/audio/buffer.rs:68-73 | the queue takes as many samples as fit, in order, and is then capped at 4800 down to 1920 |
| Resample.StreamLength | crates/wpapi/src/resample.rs:29-71 | N inputs yield ceil(N * dst / src) outputs in all, with no drift, at any rates; at equal rates they are the inputs |
| Resample.StreamExtends | crates/wpapi/src/resample.rs:29-71 | later input never changes output already emitted |
| Resample.LineIsReproduced | crates/wpapi/src/resample.rs:56-66 | a straight line comes out as the same line, one input sample later: output k is a + b * (k * src / dst - 1) wherever that lies one sample in |
| Resample.WholePositionIsSample | crates/wpapi/src/resample.rs:56-66 | an output that falls on a whole input position i >= 1 is input i - 1 itself |
| Resample.OutputIsBetween | crates/wpapi/src/resample.rs:56-66 | every output lies between the two inputs next to its position |
| Resample.Resampler.PhaseInRange | crates/wpapi/src/resample.rs:48-55 | the stored phase always lies in [0, step) |
| Resample.InterpolateChunk | crates/wpapi/src/resample.rs:39-70 | the loop over one chunk emits exactly the interpolated samples of the unbroken signal that the chunk completes, with every index in range, and leaves the right phase |
| Resample.Resampler.constructor | crates/wpapi/src/resample.rs:18-25 | starts with no history and phase zero |
| Resample.Resampler.Process | crates/wpapi/src/resample.rs:29-71 | the output is precisely what the new input adds to the ideal stream of all input so far |
| Resample.ResampleChunks | crates/wpapi/src/resample.rs:29-71 | for every way of cutting an input into chunks, the concatenated outputs of the calls on a resampler are what the whole input adds to its ideal stream |
| Resample.StreamingEqualsBatch | crates/wpapi/src/resample.rs:29-71 | two resamplers in the same state, one fed chunk by chunk and one in a single call, emit the same samples and end with the same phase and last sample |
| Playback.FetchIsFourMore | crates/wpapi/src/audio.rs:281-284 | net_needed is four more than the fewest samples that last for the frames asked for |
| Playback.FetchSuffices | crates/wpapi/src/audio.rs:281-284 | fetching net_needed samples yields at least the frames asked for, for all positive rates and any earlier input |
| Playback.FetchIsModest | crates/wpapi/src/audio.rs:281-284 | fetching at most that many leaves fewer than 5 * rate / net_rate + 1 frames over |
| Playback.Player.constructor | crates/wpapi/src/audio.rs:265-269 | nothing leftover, nothing played, a fresh resampler at the two rates |
| Playback.Player.Drain | crates/wpapi/src/audio.rs:286-293 | with arrivals and latency caps between the pops, the samples popped and the queue left are those of the ledger |
| Playback.Player.Refill | crates/wpapi/src/audio.rs:279-297 | leftover becomes the unplayed rest of the resampled stream of all samples taken, and exceeds the request by less than 5 * rate / net_rate + 1 |
| Playback.Player.Callback | crates/wpapi/src/audio.rs:273-306 | the device buffer holds the next frames of the stream on every channel, then silence only if the stream ran dry; play position, ring and leftover move on accordingly, and leftover stays bounded |
| Playback.PlaysCells | crates/wpapi/src/audio.rs:299-304 | cell by cell, what a callback leaves in the buffer: the stream from the play position on in every channel of its frame, then zeros |
| Playback.Fill | crates/wpapi/src/audio.rs:299-304 | each frame's sample is written to all its channels and no other cell changes |
| Traffic.Deliver | crates/wpapi/src/audio/buffer.rs:56-73 | the network side's pushes and caps leave the queue of the ledger |
| Traffic.SliceIsPushSlice | crates/wpapi/src/audio/buffer.rs:68-73 | one push_slice is its pushes followed by one cap |
| Traffic.EveryPopSucceeds | crates/wpapi/src/audio.rs:286-293 | if the ring holds the samples wanted, no pop fails whatever arrives meanwhile, for requests up to 1920 or without caps |
| Session.NoPadding | crates/wpapi/src/audio.rs:279-304 | a turn whose ring holds net_needed samples, safe from caps, plays no silence |
| Session.NoPaddingExactly | crates/wpapi/src/audio.rs:279-304 | a turn plays no silence exactly when the samples taken before and those its pops find resample to enough frames |
| Session.CapCausesPadding | crates/wpapi/src/audio.rs:281-304 | for every request of 1921 to 4796 frames at equal rates, a turn that pads although the ring held net_needed samples, because a cap strikes during it |
| Traffic.TakenBySucceeding | crates/wpapi/src/audio.rs:286-293 | the callback takes exactly as many samples as its pops find |
| Session.SessionConserves | crates/wpapi/src/audio.rs:273-306 | over any session every sample that arrived is taken, waiting or dropped, and in order if nothing was dropped |
| Session.HeardIsStream | crates/wpapi/src/audio.rs:273-306 | over any session the frames of all buffers, silence aside, are the resampled stream from its start, each sample once and in order |
| Session.PlaySession | crates/wpapi/src/audio.rs:273-306 | running any sequence of arrivals and callbacks yields buffers of the sizes asked for with all three properties, and leaves ring, resampler and play position where the model says |
| RateLimit.RateLimiter.CheckAndConsume | crates/wpdaemon/src/rate_limit.rs:42-66 | table and answer after a call are those of the specification function Check |
| RateLimit.RateLimiter.RemoveClient | crates/wpdaemon/src/rate_limit.rs:194-197 | removes that key's bucket and nothing else |
| RateLimit.RateLimiter.constructor | crates/wpdaemon/src/rate_limit.rs:33-39 | a new limiter has its settings and no buckets |
| RateLimit.ShippedSettings | crates/wpdaemon/src/constants.rs:20-30 | both shipped settings refill a whole bucket within an idle minute |
| RateLimit.PurgeIsExactWhen | crates/wpdaemon/src/rate_limit.rs:46-54 | dropping any bucket idle for a minute equals keeping it if and only if 60 * refill >= max |
| RateLimit.PurgeIsUnobservable | crates/wpdaemon/src/rate_limit.rs:168-197 | on every run of calls and removals, the purging limiter and one that never purges give the same answers |
| RateLimit.PurgeUnobservableExactly | crates/wpdaemon/src/rate_limit.rs:168-191 | for which settings that is so: if and only if 60 * refill >= max or max < 1; otherwise some run is answered differently |
| RateLimit.AnswersAreSolo | crates/wpdaemon/src/rate_limit.rs:168-197 | from any corresponding state, a key's answers are those of a private bucket fed only that key's calls |
| RateLimit.NoInterference | crates/wpdaemon/src/rate_limit.rs:168-197 | from an empty table, no key's traffic can change another key's answers |
| RateLimit.Conservation | crates/wpdaemon/src/rate_limit.rs:176-190 | calls allowed are paid for by the tokens on hand and those earned meanwhile |
| RateLimit.Envelope | crates/wpdaemon/src/rate_limit.rs:176-190 | in any window between removals, one bucket allows at most max + refill * T calls |
| RateLimit.LimiterEnvelope | crates/wpdaemon/src/rate_limit.rs:168-197 | the same bound for one key of the shared, purging limiter |
| RateLimit.SpacedCallerNeverRefused | crates/wpdaemon/src/rate_limit.rs:176-190 | a bucket with max >= 1 never refuses a caller spaced at least 1/refill apart |
| RateLimit.LimiterNeverRefusesSpaced | crates/wpdaemon/src/rate_limit.rs:168-197 | nor does the shared limiter, whatever other keys do |
| AntiReplay.AntiReplayCache.CheckAndInsert | crates/wpapi/src/address/auth.rs:108-135 | purges by window, refuses a known signature, otherwise evicts if full and records it; the size bound is kept |
| AntiReplay.AntiReplayCache.Clear | crates/wpapi/src/address/auth.rs:138-141 | the cache is empty afterwards |
| AntiReplay.AntiReplayCache.constructor | crates/wpapi/src/address/auth.rs:99-103 | a new cache is empty |
| AntiReplay.Evict | crates/wpapi/src/address/auth.rs:124-131 | drops exactly 5000 entries, each at most as new as every one kept |
| AntiReplay.CacheIsBounded | crates/wpapi/src/address/auth.rs:114-134 | on every run the cache holds at most 10,000 entries |
| AntiReplay.Remembered | crates/wpapi/src/address/auth.rs:116-117 | an accepted header stays in the cache for as long as the drift check could let it through, unless a size eviction happens |
| AntiReplay.FirstPresentation | crates/wpapi/src/address/auth.rs:149-186 | a header whose signature was not accepted before is accepted exactly when genuine and at most 300 seconds off, whatever else the cache holds; each refusal has its exact cause |
| AntiReplay.EvictionNeedsFullCache | crates/wpapi/src/address/auth.rs:119-131 | an eviction happens only for a new header that meets 10,000 live entries, and leaves 5000 of them beside it |
| AntiReplay.SecondPresentation | crates/wpapi/src/address/auth.rs:165-183 | with no eviction in between, presenting a header again is a replay exactly inside its window and a drift error exactly outside |
| AntiReplay.NoReplayWithoutEviction | crates/wpapi/src/address/auth.rs:149-186 | on every run with a non-decreasing clock, a header is accepted twice only if a size eviction happened strictly in between |
| AntiReplay.AcceptedAgainExactly | crates/wpapi/src/address/auth.rs:108-135 | a genuine header presented again inside its window is accepted if and only if a size eviction since its latest acceptance threw it out of the cache, and is reported as a replay otherwise |
| AntiReplay.EvictedIsOld | crates/wpapi/src/address/auth.rs:124-131 | what an eviction throws out has fewer than 5000 strictly older entries beside it |
| AntiReplay.OlderHeadersProtect | crates/wpapi/src/address/auth.rs:124-131 | a header with 5000 strictly older ones in the cache at every eviction is never accepted twice |
| AntiReplay.EvictionAdmitsReplay | crates/wpapi/src/address/auth.rs:124-131 | a run in which the eviction makes the first header acceptable again |
| Bytes.GetPutLe | crates/wpapi/src/protocol/encoder.rs:15-16 | reading back a little-endian integer that fits gives the integer |
| Bytes.PutGetLe | crates/wpapi/src/protocol/decoder.rs:54-89 | writing back the integer read from any bytes gives the bytes |
| Bytes.HexDecodeEncode | crates/wpapi/src/address/user.rs:67-71 | decoding hex of any bytes gives the bytes, and the hex is lower case |
| Bytes.HexEncodeDecode | crates/wpapi/src/address/user.rs:74-81 | encoding what an even lower-case hex string decodes to gives the string |
| WireLayout.LittleEndian | crates/wpapi/src/protocol/encoder.rs:15-16 | byte i of a written integer has weight 256^i |
| WireLayout.HexDigits | crates/wpapi/src/address/user.rs:67-71 | the text form spells each byte with two lower-case digits, the high one first |
| Addresses.ToFromBytes | crates/wpapi/src/address/user.rs:67-81 | to_bytes inverts from_bytes, whose results are canonical |
| Addresses.FromToBytes | crates/wpapi/src/address/user.rs:67-81 | an address survives its byte form if and only if it is 64 lower-case hex digits |
| Addresses.ExactMatchesOnlyItself | crates/wpapi/src/address/user.rs:98-114 | a full address not ending in 0 is matched by itself alone |
| Addresses.ShortKeyMatches | crates/wpapi/src/address/user.rs:98-114 | a key of 12 to 63 digits matches exactly the addresses that start with it, a shorter one only itself |
| Addresses.FindMeans | crates/wpdaemon/src/registry/client.rs:71-88 | a client is found exactly when the key has 12 digits or more and denotes it and nobody else; a lookup is ambiguous exactly when it denotes two |
| Addresses.CollectMatches | crates/wpdaemon/src/registry/client.rs:77-82 | the loop collects each matching client once, whatever the map order |
| Addresses.FindClientByAddress | crates/wpdaemon/src/registry/client.rs:71-88 | found, not found or ambiguous according to the set of matching clients, independent of map order |
| Addresses.ShortIdSurvivesWire | crates/wpapi/src/address/user.rs:98-114 | for every even-length short ID, lookup of its zero-padded wire form agrees with lookup of itself on all address books if and only if it does not end in 0 |
| Addresses.TrailingZeroChangesLookup | crates/wpapi/src/address/user.rs:107-111 | for every short ID ending in 0, an address book on which the two lookups differ |
| Codec.EncodePacket | crates/wpapi/src/protocol/encoder.rs:8-194 | appending field after field yields the packet's layout, for every packet |
| Codec.EncodeAddressPacket | crates/wpapi/src/protocol/encoder.rs:189-194 | tag byte, then the 32 address bytes |
| Codec.AppendSpeakers | crates/wpapi/src/protocol/encoder.rs:121-134 | the loop appends the bytes of every speaker in order |
| Codec.ReadSpeakers | crates/wpapi/src/protocol/decoder.rs:350-353 | the loop reads all whole 32-byte addresses and ignores a short rest |
| WireLayout.EncodedAsLaidOut | crates/wpapi/src/protocol/encoder.rs:8-194 | every packet's tag and the byte offset of each of its fields, as a table |
| WireLayout.OlderErrorTag | crates/wpapi/src/protocol/decoder.rs:21-44 | tag 0xFF is read exactly as 0x0A, and no other tag above 0x15 is accepted |
| CodecRoundTrip.RoundTrip | crates/wpapi/src/protocol/decoder.rs:9-46 | decoding an encoded packet gives it back if and only if it is well formed |
| CodecRoundTrip.LongBroadcastMisread | crates/wpapi/src/protocol/decoder.rs:54-89 | every broadcast of 32 or more payload bytes is read as a client assignment |
| CodecRoundTrip.DecodedIsWellFormed | crates/wpapi/src/protocol/decoder.rs:9-430 | whatever bytes arrive, an accepted packet is well formed |
| CodecRoundTrip.AcceptedSurvives | crates/wpapi/src/protocol/decoder.rs:9-430 | an accepted packet is unchanged by encoding and decoding it again |
| CodecRoundTrip.AcceptedExactly | crates/wpapi/src/protocol/decoder.rs:9-430 | acceptance, too-short and unknown-tag errors are decided exactly by size, tag, length, payload size and speaker count |
| Mesh.SendLoop | crates/wpdaemon/src/peer.rs:33-63 | sends exactly the encodings of the node's own broadcasts and the foreign ones with hops left, in queue order: the positions are strictly increasing and none is left out |
| Mesh.EveryCopyIsFaithful | crates/wpdaemon/src/peer.rs:33-97 | at every moment each copy, broadcast locally, waiting in a send loop or encoded on the wire, has the original sender id, origin and payload, ttl = 8 - hops with hops <= 8, its addresses exactly when they are canonical, and only the first is at the origin |
| Mesh.StepLowersMeasure | crates/wpdaemon/src/peer.rs:38-97 | on any graph of degree at most d, every send, receive or loss strictly lowers a measure of the work left |
| Mesh.FloodingIsBounded | crates/wpdaemon/src/peer.rs:38-97 | one frame causes at most d + d^2 + ... + d^8 transmissions, and every run is finite |
| Mesh.FloodReachesEveryone | crates/wpdaemon/src/peer.rs:38-97 | if nothing is lost, every node within eight links of the origin has broadcast the frame once the flood dies down |
| Mesh.FloodReachesExactly | crates/wpdaemon/src/peer.rs:38-97 | a node that heard the frame after h hops is h links from the origin, whatever was lost; a finished lossless flood was heard at exactly the nodes within eight links |
| Rooms.LimitKept | crates/wpdaemon/src/registry/room.rs:90-148 | joins, leaves and disappearances keep every room at no more than 50 members |
| Rooms.Sorted | crates/wpdaemon/src/registry/room.rs:186-191 | lists every active speaker exactly once, loudest first |
| Rooms.FirstAreTop | crates/wpdaemon/src/registry/room.rs:186-194 | the first three of a list sorted by energy are a loudest-three choice |
| Rooms.ResolveKey | crates/wpdaemon/src/registry/room.rs:173-178 | the room an address denotes: a matching one if there is any, else itself |
| Rooms.UpdateSpeakerEnergy | crates/wpdaemon/src/registry/room.rs:164-213 | the whole update: who is active, a loudest-three choice, the address list, the change flag and the new tables |
| Rooms.UpdatePromises | crates/wpdaemon/src/registry/room.rs:164-213 | min(3, active) chosen, all heard within 3 seconds, none left out louder than one chosen, and the speaker is refused only when three others are chosen |
| RoomHistory.VoicesAreHistory | crates/wpdaemon/src/registry/room.rs:180-184 | on every run of updates, joins, leaves and disappearances with a clock that does not go back: a client counts as active in a room exactly when its latest audio there since it last left is at most 3 seconds older than the room's latest, with that energy |
| RoomHistory.TopThreeOfHistory | crates/wpdaemon/src/registry/room.rs:164-213 | every update chooses three of the clients active by that history, or all if fewer; loudest first, nobody left out louder; the list holds their registered addresses in that order |
| RoomHistory.ChangeFlagIsExact | crates/wpdaemon/src/registry/room.rs:202-212 | over whole runs the change flag is raised exactly when the list differs from the one this room's previous update gave |
| Rooms.JoinExactly | crates/wpdaemon/src/registry/room.rs:90-126 | a join seats the client behind all earlier members if there are fewer than 50, and changes no other room and no speaker |
| Rooms.LeaveExactly | crates/wpdaemon/src/registry/room.rs:129-148 | a leave takes the client's seat and voice in one room, and nothing else |
| Rooms.ForgetExactly | crates/wpdaemon/src/registry/client.rs:61-66 | a disappearance takes its seat and voice in every room, and nothing else |
| Rooms.DropInOrder | crates/wpdaemon/src/registry/room.rs:135-136 | those who stay keep their order |
| Rooms.ExactRoomIsItself | crates/wpdaemon/src/registry/room.rs:171-178 | a full address denotes the room of that very address |
| Rooms.ShortRoomResolves | crates/wpdaemon/src/registry/room.rs:171-178 | a short ID denotes a room that starts with it, or itself if there is none |
| RoomRelay.BroadcastToRoomMembers | crates/wpdaemon/src/connection/datachannel.rs:424-449 | reaches exactly the members with a channel but for the excluded one, in the room's order |
| RoomRelay.ProcessSpeakerUpdate | crates/wpdaemon/src/connection/datachannel.rs:451-473 | nothing is sent for a speaker outside the top three; audio goes to all other members, a changed and non-empty list to all |
| RoomRelay.RelayRoomAudio | crates/wpdaemon/src/connection/datachannel.rs:595-671 | a client's room audio is relayed to the other members exactly when it is among those chosen |
| RoomRelay.AnnounceJoin | crates/wpdaemon/src/connection/datachannel.rs:545-568 | everybody in the room, the newcomer included, is told the new number of members |
| RoomRelay.AnnounceLeave | crates/wpdaemon/src/connection/datachannel.rs:570-593 | those who stay, and only they, are told how many they are |
| Registry.UnregisterLeavesNothing | crates/wpdaemon/src/registry/client.rs:35-68 | afterwards the id is no key, member or speaker anywhere and its address on no approval or rejection list |
| Registry.UnregisterFrame | crates/wpdaemon/src/registry/client.rs:35-68 | unregistering removes the client's rows and otherwise only takes away targets, approvals and marks |
| Registry.UnregisterExactly | crates/wpdaemon/src/registry/client.rs:35-68 | of other clients' approval and rejection lists, exactly the leaving client's address goes and all else stays |
| Registry.UnregisterTargets | crates/wpdaemon/src/registry/client.rs:35-68 | of other clients' targets, exactly those go that denote what the leaving client had chosen, or belong to the client it had chosen |
| Registry.UnregisterNotified | crates/wpdaemon/src/registry/client.rs:35-68 | of other clients' notification marks, exactly the one about the leaving client at the client it had chosen goes |
| Registry.RegisterBook | crates/wpdaemon/src/registry/client.rs:10-32 | of the other clients exactly the previous holder of the address goes; the rest keep address and pong time |
| Registry.RegisterExactly | crates/wpdaemon/src/registry/client.rs:27-31 | the client is connected and alive from now on; if nobody else held the address, nothing else changes |
| Registry.RegisterConsistent | crates/wpdaemon/src/registry/client.rs:10-32 | registering keeps addresses unique and the per-client tables in step; the address belongs to the new client alone |
| Registry.RegisterFrame | crates/wpdaemon/src/registry/client.rs:10-32 | registering grants nothing to anybody |
| Registry.ClearFrame | crates/wpdaemon/src/registry/client.rs:136-189 | clearing a session only takes away targets, approvals, rejections and notification marks |
| Registry.ClearExactly | crates/wpdaemon/src/registry/client.rs:136-189 | the approvals, rejections, marks and targets that go are exactly those the two ends hold about each other and the targets that denote either; every other entry of every client stays |
| Registry.ClearConsistent | crates/wpdaemon/src/registry/client.rs:136-189 | clearing a session keeps the registry invariant |
| RegistryObject.ClientRegistry.constructor | crates/wpdaemon/src/registry.rs:69-74 | a new registry is empty |
| RegistryObject.ClientRegistry.CollectHolders | crates/wpdaemon/src/registry/client.rs:16-22 | exactly the other clients registered under the address, each once |
| RegistryObject.RetainInAll | crates/wpdaemon/src/registry/client.rs:52-59 | the loop removes the address from every list of a table |
| RegistryObject.RetainInRooms | crates/wpdaemon/src/registry/client.rs:61-66 | the loops remove the client from every room and every speaker table |
| RegistryObject.RetainTargets | crates/wpdaemon/src/registry/client.rs:170-188 | the loop keeps exactly the targets that denote neither end |
| RegistryObject.ClientRegistry.RegisterClient | crates/wpdaemon/src/registry/client.rs:10-32 | does what the specification relation says: the previous holder of the address is unregistered and loses its bucket, then the client is seated; the invariant is kept |
| RegistryObject.ClientRegistry.EvictHolders | crates/wpdaemon/src/registry/client.rs:16-25 | unregisters the other holder of the address, of whom there is at most one |
| RegistryObject.ClientRegistry.SeatClient | crates/wpdaemon/src/registry/client.rs:27-31 | enters the client into the four tables |
| RegistryObject.ClientRegistry.UnregisterClient | crates/wpdaemon/src/registry/client.rs:35-68 | all tables afterwards are those of the specification function, and the client's rate-limit bucket is gone |
| RegistryObject.ClientRegistry.ClearSession | crates/wpdaemon/src/registry/client.rs:136-189 | all tables afterwards are those of the specification function |
| RegistryObject.ClientRegistry.MarkCallApproved | crates/wpdaemon/src/registry/client.rs:105-110 | exactly this approval is added |
| RegistryObject.ClientRegistry.MarkCallRejected | crates/wpdaemon/src/registry/client.rs:113-118 | exactly this rejection is added |
| RegistryObject.ClientRegistry.MarkNotified | crates/wpdaemon/src/registry/client.rs:128-133 | exactly this mark is added |
| RegistryObject.ClientRegistry.InRoom | crates/wpdaemon/src/registry/room.rs:8-25 | own address matches the key, or the chosen target overlaps it in either direction |
| RegistryObject.ClientRegistry.ParticipantCount | crates/wpdaemon/src/registry/room.rs:28-44 | the number of registered clients taking part |
| RegistryObject.ClientRegistry.InSameCall | crates/wpdaemon/src/registry/room.rs:47-68 | in the room already, or some matching client points back |
| RegistryObject.ClientRegistry.RoomOrTargetFull | crates/wpdaemon/src/registry/room.rs:71-87 | two participants already, or a matching client busy in another full call |
| RegistryObject.ClientRegistry.StaleClients | crates/wpdaemon/src/registry/room.rs:221-232 | exactly the clients silent for 30 seconds or more |
| RegistryObject.ClientRegistry.JoinRoom | crates/wpdaemon/src/registry/room.rs:90-126 | the client is a member afterwards exactly if it was or there was room; reports the size |
| RegistryObject.ClientRegistry.LeaveRoom | crates/wpdaemon/src/registry/room.rs:129-148 | leaves one matching room and its speakers and reports who is left, or does nothing and reports 0 if none matches |
| RegistryObject.ClientRegistry.RoomMemberIds | crates/wpdaemon/src/registry/room.rs:151-160 | the members of a matching room, or none |
| RegistryObject.ClientRegistry.HearSpeaker | crates/wpdaemon/src/registry/room.rs:164-213 | applies the speaker update to the registry's room tables and touches nothing else |
| Handlers.MicroTerminates | crates/wpdaemon/src/connection/datachannel.rs:208-543 | every handler ends: each lock acquisition brings it strictly closer to its end |
| Handlers.MicroConsistent | crates/wpdaemon/src/connection/datachannel.rs:136-671 | every single lock acquisition keeps the registry invariant |
| Dispatch.HandleClientTargetedAudio | crates/wpdaemon/src/connection/datachannel.rs:208-389 | the handler's code has the registry effect and events of its chain of lock acquisitions |
| Dispatch.CallFound | crates/wpdaemon/src/connection/datachannel.rs:320-388 | likewise for its part after the target is found: busy check, prompt, target and broadcast |
| Dispatch.SendCallResponse | crates/wpdaemon/src/connection/datachannel.rs:391-422 | notifies the one client the key denotes, if it has a channel, of the sender's registered address |
| Dispatch.HandleAccept | crates/wpdaemon/src/connection/datachannel.rs:475-496 | likewise for an acceptance |
| Dispatch.HandleReject | crates/wpdaemon/src/connection/datachannel.rs:498-512 | likewise for a rejection |
| Dispatch.HandleHangup | crates/wpdaemon/src/connection/datachannel.rs:514-543 | likewise for a hangup |
| Dispatch.HandleRoomAudio | crates/wpdaemon/src/connection/datachannel.rs:595-671 | likewise for room audio |
| Dispatch.HandleRoomJoin | crates/wpdaemon/src/connection/datachannel.rs:545-549 | likewise for a join |
| Dispatch.HandleRoomLeave | crates/wpdaemon/src/connection/datachannel.rs:570-574 | likewise for a leave |
| Dispatch.HandlePong | crates/wpdaemon/src/connection/datachannel.rs:198-203 | likewise for a keep-alive answer |
| Dispatch.DispatchPacket | crates/wpdaemon/src/connection/datachannel.rs:136-206 | whichever packet arrives, the code does what its handler's chain of acquisitions does |
| Dispatch.DispatchOther | crates/wpdaemon/src/connection/datachannel.rs:161-205 | likewise for all packets but targeted audio, which unregister nobody |
| Dispatch.OnPacket | crates/wpdaemon/src/connection/datachannel.rs:113-121 | handling a decoded packet, spoofed ones dropped, is one step of the daemon that the run theorems quantify over, and costs exactly those their buckets whom it unregisters |
| Dispatch.OnMessage | crates/wpdaemon/src/connection/datachannel.rs:100-122 | limiter, then decoder, then packet: a refused or undecodable message changes only the sender's bucket, any other makes one step of the daemon |
| CallLaws.BusyExactly | crates/wpdaemon/src/registry/room.rs:71-87 | a callee is busy exactly when somebody else has chosen it, or what it has chosen, unless that is itself, is shared with somebody else |
| CallLaws.WhatACallerGets | crates/wpdaemon/src/connection/datachannel.rs:208-389 | for any two clients with full addresses: exactly when audio from one to the other is broadcast, prompts, or is answered with an error; never more than one of these |
| CallLaws.TurnedAwayGets | crates/wpdaemon/src/connection/datachannel.rs:274-343 | a call to a lost, refusing or busy callee is answered with one error and leaves no trace, except that a lost callee is unregistered |
| CallLaws.HeardOutGets | crates/wpdaemon/src/connection/datachannel.rs:344-389 | any other call is forwarded and makes the callee the caller's target if the callee has chosen or approved the caller, and otherwise prompts it once |
| CallLaws.InCallIsRoomAudio | crates/wpdaemon/src/connection/datachannel.rs:228-231 | audio to somebody the caller has already chosen goes to the room and is never broadcast to the callee |
| CallLaws.BroadcastChooses | crates/wpdaemon/src/connection/datachannel.rs:228-388 | whatever the key, a frame is broadcast only by a client that has not chosen what the key denotes; the broadcast makes that choice, and the next frame for that key is not broadcast |
| CallLaws.BusyCalleeRefused | crates/wpdaemon/src/connection/datachannel.rs:330-343 | with two clients in a call, a third who calls one of them gets exactly one error and changes nothing |
| CallLaws.HalfCallIsBusy | crates/wpdaemon/src/connection/datachannel.rs:330-343 | so it is already when only one of the two has chosen the other |
| CallLaws.IdleCalleeNeverRefused | crates/wpdaemon/src/connection/datachannel.rs:320-370 | a callee heard of within 30 seconds, not refusing, who has chosen nobody and whom nobody has chosen is never refused |
| CallLaws.UnclearKeyRefused | crates/wpdaemon/src/connection/datachannel.rs:233-266 | a key that denotes no registered client or several is answered with one error and changes nothing |
| CallLaws.AcceptTells | crates/wpdaemon/src/connection/datachannel.rs:475-496 | an acceptance tells the one client its key denotes that it was accepted, adds exactly that approval, and sets a target only if there was none |
| CallLaws.RejectTells | crates/wpdaemon/src/connection/datachannel.rs:498-512 | a rejection tells it so and adds exactly that rejection |
| CallLaws.HangupTells | crates/wpdaemon/src/connection/datachannel.rs:514-543 | a hangup tells it so and leaves neither end with a target, or an approval, rejection or mark about the other |
| CallLaws.LeavingEndsCall | crates/wpdaemon/src/registry/client.rs:49-51 | when a client disconnects, the one it had chosen and all who had chosen the same lose their targets |
| CallLaws.PongLasts | crates/wpdaemon/src/connection/datachannel.rs:198-203 | after a pong the client counts as lost exactly from 30 seconds on, and nobody else is affected |
| CallLaws.RoomPackets | crates/wpdaemon/src/connection/datachannel.rs:161-197 | a join request seats the sender, a leave request takes it out of one matching room, room audio makes it heard; nothing else changes |
| CallLaws.IgnoredDoNothing | crates/wpdaemon/src/connection/datachannel.rs:204 | all other packets, and oversized room audio, change nothing |
| CallControl.RegistryInvariant | crates/wpdaemon/src/registry/client.rs:10-68 | in every reachable state no two clients share an address; connections, addresses and connection times have equal keys, contained in those of the pongs; only known ids occur |
| CallControl.NextApart | crates/wpdaemon/src/connection/datachannel.rs:208-543 | without an acceptance between two ends that have let nobody through, any operation leaves them so and passes no frame between them |
| CallControl.HangupSeparates | crates/wpdaemon/src/registry/client.rs:136-189 | a hangup by one end naming the other leaves neither with an approval of, or target on, the other |
| CallControl.NoFrameWithoutStandingConsent | crates/wpdaemon/src/connection/datachannel.rs:320-388 | on every run, a 1-to-1 frame between two full addresses is broadcast, in either direction, only after one accepted the other with no hangup between them since |
| CallTraffic.FrameReachesExactlyOne | crates/wpdaemon/src/connection/datachannel.rs:66-72 | whenever a 1-to-1 frame is broadcast, exactly one registered client passes the receive filter: the resolved target, never the sender |
| CallTraffic.FrameHeardBy | crates/wpdaemon/src/connection/datachannel.rs:57-98 | whatever receive loops are running, those that pass a frame on are the target's and those of connections that match but are no longer registered; it is heard once exactly when these are one in all |
| CallTraffic.NoDuplicatePrompts | crates/wpdaemon/src/connection/datachannel.rs:344-369 | between two call requests for the same callee and caller there is always an operation that ended the session of that pair |
| CallTraffic.HangupRevokesExactly | crates/wpdaemon/src/registry/client.rs:136-147 | a hangup removes the sender's own approval exactly when it names the full address |
| LockSteps.MovesKeep | crates/wpdaemon/src/connection/datachannel.rs:228-388 | every interleaved step keeps: consistency, approvals and targets backed by past acts, waiting tasks entitled to what they are about to do, all past frames consented |
| LockSteps.ConsentUnderInterleaving | crates/wpdaemon/src/connection/datachannel.rs:320-388 | under every interleaving of lock acquisitions of all data channels, each frame from c to t follows an acceptance by t of, or audio sent by t to, an address c answers to |
| LockSteps.AcceptanceUnderInterleaving | crates/wpdaemon/src/connection/datachannel.rs:320-388 | and between two full addresses it follows an explicit acceptance of one by the other |
| LockRevocation.CalmLasts | crates/wpdaemon/src/connection/datachannel.rs:208-543 | under every interleaving, a pair that is calm stays so and exchanges no frame as long as neither accepts the other |
| LockRevocation.HangupSeparates | crates/wpdaemon/src/registry/client.rs:136-189 | what a hangup leaves in the tables that lets one end through to the other: only approvals by connections that are no longer registered |
| LockRevocation.CalmBack | crates/wpdaemon/src/connection/datachannel.rs:208-543 | no move but an acceptance between the two makes a frame possible that was not |
| LockRevocation.RevocationUnderInterleaving | crates/wpdaemon/src/connection/datachannel.rs:320-388 | after a hangup that leaves no handler able to lead to a frame, none passes in either direction before one end has accepted the other |
| LockRuns.LateHandlerDefeatsHangup | crates/wpdaemon/src/connection/datachannel.rs:372-388 | a handler with a payload past its checks can always go on to its frame, with no acceptance on the way, and makes the other end its target |
| LockRuns.LateAcceptReopens | crates/wpdaemon/src/connection/datachannel.rs:481-488 | a handler between accepting and choosing its target opens the way for the other end |
| LockExact.MakeOpen | crates/wpdaemon/src/connection/datachannel.rs:290-376 | a client whose handlers, possibly through a chain of others, can make the other end its target does so on some continuation |
| LockExact.HeadedComes | crates/wpdaemon/src/connection/datachannel.rs:290-388 | every waiting handler with a payload that is past its checks, or can pass them from any point on, reaches its frame on some continuation without an acceptance |
| LockExact.AjarComes | crates/wpdaemon/src/connection/datachannel.rs:228-388 | every registered client that can come to point at the other end receives a frame from it on some continuation without an acceptance |
| LockExact.HangupHoldsExactly | crates/wpdaemon/src/connection/datachannel.rs:208-543 | for any two full addresses and any state: on every continuation of a hangup all frames between the two have an acceptance before them if and only if it leaves no handler that can lead to one |
| LockExact.PlainThreat | crates/wpdaemon/src/connection/datachannel.rs:290-388 | which handlers those are, when nobody is calling a connection that is no longer registered |
| LockRuns.HangupOutrun | crates/wpdaemon/src/connection/datachannel.rs:320-388 | for any two full addresses, a run from the empty daemon with frames in both directions after a hangup and no acceptance since |
| LockPrompts.MoveKeepsMark | crates/wpdaemon/src/registry/client.rs:121-133 | only a clearing of the pair removes the mark that a callee was notified |
| LockPrompts.PromptsUnderInterleaving | crates/wpdaemon/src/connection/datachannel.rs:344-369 | of any two requests for one pair, either the session was cleared between the first one's marking and the second one's look, or the second looked before the first marked, on another channel of the caller |
| LockPrompts.PromptsOnceExactly | crates/wpdaemon/src/connection/datachannel.rs:344-369 | from any state with the callee marked, every later request for the pair has a clearing before it, on every continuation, if and only if no handler of the caller stands at marking or sending |
| LockPrompts.RequestOutlivesClearing | crates/wpdaemon/src/connection/datachannel.rs:344-369 | a run with two requests for one pair and no clearing from the first on |
| LockPrompts.TwoChannelsPromptTwice | crates/wpdaemon/src/connection/datachannel.rs:344-369 | a run with two requests for one pair and no clearing at all |

## Left out

- Memory orderings: the ring runs on sequentially consistent atomics; the relaxed and acquire/release orderings of the code are not modelled.
- Ring runs assume that no single pop attempt stays open while the tail advances by 2^64 (`RingSteps.Timely`); a wrapped counter could otherwise be mistaken for the old one.
- RingBuffer.AudioRingBuffer.Clear: sequential only, since under concurrency the code can move the tail backwards.
- RingBuffer.Capacity: above 2^63 it models unchecked arithmetic, where rounding up wraps to zero; a checked build stops instead.
- Floating point: samples, tokens, energies and the resampling position are exact; rounding and the RMS energy value are not modelled, and sample rates count as equal only when identical (the code's rates are integers).
- Clock readings, signature verification, header parsing and the generated default address are inputs.
- LockExact.HangupHoldsExactly: for full addresses not ending in 0, as in `CallControl.NoFrameWithoutStandingConsent`; a hangup by short ID leaves the sender's approval standing (`CallTraffic.HangupRevokesExactly`).
- LockPrompts.PromptsOnceExactly: for states in which the callee is marked; from an unmarked state a request may or may not come, depending on all the other checks.
- CallControl.HangupSeparates: needs the hanging-up client to be registered, since the code looks its address up in the registry.
- The two-participant cap as an invariant and delivery of frames once a target is set: accepting a call never checks capacity and later frames take the room path (`CallLaws.InCallIsRoomAudio`), so the code promises neither.
- Dispatch.HandleRoomAudio: the sends to the members are the subject of `RoomRelay`, not events of the runs; they read the tables and change nothing, and run there without interruption.
- Dispatch.HandleRoomJoin: likewise (`RoomRelay.AnnounceJoin`).
- Dispatch.HandleRoomLeave: likewise (`RoomRelay.AnnounceLeave`).
- RoomRelay.BroadcastToRoomMembers: says who is reached for every room address, but ties it to one room only for full addresses; a short ID may match several rooms, of which the code takes any.
- Playback.Player.Drain: arrivals fall between whole ring operations; their atomic steps are the subject of `RingSteps`.
- A closed channel ends the mesh send loop in the code; the model's losses cover it, but reconnection is not modelled.
- Mesh.EveryCopyIsFaithful: states that the codec is forced to Opus only through `Mesh.Relayed`, because the relay does not preserve it.
- AntiReplay.Evict: the sort is modelled by repeatedly removing an oldest entry, up to the order of equal timestamps; likewise `Rooms.Sorted` inserts one speaker at a time.
- WebRTC, SDP, ICE, HTTP and task plumbing, keystore and other cryptography, TUI, CLI, FFI, configuration, device selection and level metering.
