# A verified model of the IEC 60870-5-104 bridge and its readers

The bridge takes process values from NATS or from Unix-socket clients, keeps the last value of every point in a
cache, sends each value spontaneously to IEC-104 masters, and replays the cache when a master interrogates the
station. Two Python readers under `demo/scraper/` play the master. This project models both sides and proves what
each promises, and what they promise together: a value handled by the bridge is the value a reader prints.

`dafny verify dfyconfig.toml` checks everything.

## How the model is laid out

| file | models |
|---|---|
| `Messages.dfy`, `Validation.dfy` | the message schema and the checks a message must pass |
| `Shaping.dfy` | staleness, type inference, clamping, the timed and untimed conversions, one object per ASDU |
| `Interrogation.dfy` | the replay of the cache on one connection: any map order, any queue refusals |
| `BridgeRun.dfy`, `BridgeTheorems.dfy` | the whole bridge as a step machine, its invariants, and what they say of every run |
| `Bridge.dfy` | the message loop and the interrogation callback as imperative code, shown to follow that machine |
| `UnixClients.dfy` | any number of Unix clients, one bounded channel, one consumer |
| `Supervisor.dfy` | the reconnect loop and its backoff |
| `SocketPath.dfy` | the preparation of the socket path over an abstract file system |
| `Wire.dfy`, `TimeTag.dfy` | the octets of an ASDU and of a time tag as IEC 60870-5-101 lays them out |
| `Calendar.dfy` | the date of a millisecond count and back, which time tags are made of |
| `PrintDecoder.dfy`, `ScraperDecoder.dfy` | the two readers' `decode_asdu` |
| `OctetLayout.dfy` | what `print_messages.py` prints, told by octet positions alone |
| `Framing.dfy`, `Session.dfy` | APDU framing over an arbitrarily split TCP stream, and the reader's session |
| `EndToEnd.dfy` | cache, replay, encoding, framing, splitting, re-framing and decoding in one statement |

The bridge machine has one step for each stretch of code between two points where another thread can run. The store
lock is released between the cache insert and the dispatch, so an interrogation may land there; the supervisor may
lose and rebuild the source whenever no message is in flight. Theorems about runs hold for every schedule.
The readers' loops, the message loop, the replay and the file-system code are methods with loops; each is proved
against a function, and the lemmas are about that function.

Clock readings, acknowledgement results, queue refusals, failed writes, the map iteration order and the sizes of TCP
reads are arbitrary. `as f32`, the library's normalized encoding and the spare bits of its time tags are opaque
parameters (`Platform`); theorems hold for every choice of them.

## Where the code does not do what one would expect

Each of these is proved, with the exact condition where there is one.

* `README.md:210` says scaled values are rounded and clamped. They are clamped and cut toward zero, which is the same
  exactly when the clamped value's fraction is under a half (`ScaledIsRoundedIff`; 2.75 leaves as 2).
* `README.md:468` wants the printed time to match the message's. To the millisecond it does exactly for the years 2000
  to 2099, because a time tag has two digits for the year and the reader adds 2000 (`PrintedTimeIff`); a validated
  message of 1990 is printed as one of 2090 (`NineteenNinetyIsNotKept`). The count of milliseconds given to the library
  is exact up to 2^64 ns after the epoch (`StampExactIff`).
* `README.md:277` wants a queue of at least the point count. On a queue that is not drained meanwhile the confirmation
  takes a slot too, so exactly `max(0, points + 1 - free)` points are refused if at least one slot is free, and the
  termination needs one slot more (`Bridge.OnInterrogation`).
* An untimed normalized point leaves as a short float (type 13), a timed one as type 34 (`TimedAndUntimedAgree`).
* `print_messages.py` wants three octets in front of every element, so an ASDU of two or more single points with one
  shared address loses its last two elements (one, if there are only two); everything else is decoded exactly
  (`DecodeInvertsIff`, `DecodeKeeps`). Cut in the wrong place an ASDU makes it raise (`TruncationRaisesIff`);
  `scraper.py` never does.
* The quality octet printed for a single point contains the point itself (`SingleQualityKeptIff`).
* A Unix client that does not wait for its replies can see them out of request order, exactly when a line of its that
  is rejected is read while an earlier valid one still waits for its `ok` (`InOrderIffNotOvertaken`,
  `PipeliningCanReorder`).
* A socket path that is a bare file name is refused everywhere, because its parent is the empty path
  (`BareNameIsNeverReady`).

## Model

| member | source | states |
|---|---|---|
| EndToEnd.ReadStationReply | src/main.rs:306-373 | For every run of the bridge, every interrogation in it, every pattern of refusals, map order, selection of the run's spontaneous ASDUs on the same connection, S- and U-frames in between and split into TCP chunks: what the reader prints is a merge of two streams, each in its order. One is exactly one message per cached key whose ASDU was accepted, telling the last message handled for that key before the replay (every key, if nothing was refused); the other tells the spontaneous ASDUs heard. Without those the reply alone is printed. Every I-frame is acknowledged under its number |
| EndToEnd.ReplayTells | src/main.rs:364-372 | Decoding the encoded replay of any validated point, timed or not, of any type, gives exactly one message with the point's own address, cause 20, value, quality and, in its century, time, never an exception |
| EndToEnd.UntypedTold | src/bridge.rs:243-249 | A message without a type is told by its value: a boolean as type 30 or 1, a number equal to an integer m of 16 bits as type 35 or 11 with m, any other number as type 36 or 13 with its float; the first of each pair when its time is sent |
| EndToEnd.TypedTold | src/bridge.rs:319-475 | A message with a type: its type number timed and untimed, floats as the number or 1 and 0, normalized values, scaled values clamped and cut, points on for true and non-zero |
| EndToEnd.QualityTold | src/bridge.rs:204-221 | The printed quality octet number by number: each quality fresh and stale, with the point's own bit for single points |
| EndToEnd.HeaderTold | src/bridge.rs:346-361 | The printed address is the message's or the default, the cause 20, and the time the date of the nanoseconds modulo 2^64 with its year in 2000-2099 |
| EndToEnd.CauseTold | src/bridge.rs:213-232 | A spontaneous ASDU is told under the number of the message's own cause and otherwise like a replay on arrival |
| EndToEnd.ScaledPointTold | demo/scraper/print_messages.py:118-168 | What is printed for an explicitly scaled untimed number: its address, type 11, its quality, and an integer in i16 range within one of the clamped input, toward zero |
| EndToEnd.SnapshotIsLatest | src/main.rs:364-372 | A replay sees, for every key handled by then and no other, the last message handled for it |
| EndToEnd.OnWireIffAddressFits | src/validation.rs:28-34 | Whatever type and value a message has, its ASDU fits the wire exactly when the address is below 2^24, which validation guarantees |
| EndToEnd.ValidFieldsSurvive | src/validation.rs:8-74 | For a validated message the address and the state of an explicit point type are printed as they came in, and a time is printed iff one was sent |
| EndToEnd.PrintedTimeIff | README.md:468 | The printed time is always in 2000-2099, and equals the date of the source time to the millisecond iff that date is from 2000-01-01 to before 2100-01-01 |
| EndToEnd.NineteenNinetyIsNotKept | demo/scraper/print_messages.py:93-102 | A message timed at the start of 1990, which validation accepts, is printed as the start of 2090 |
| TimeTag.StampReadsIff | demo/scraper/print_messages.py:93-102 | Reading the tag of any millisecond count gives its date with the year in 2000-2099, and its own date iff it lies there, whatever the spare bits |
| Calendar.MillisInvertsDate | src/bridge.rs:359-361 | The date of a millisecond count determines the count |
| Calendar.DayAfter | src/bridge.rs:359-361 | The date one day later is the calendar's next day at the same time: months of 31 and 30 days, February of 28 or 29 by the leap rule |
| Calendar.FirstDay | src/bridge.rs:359-361 | The first day of the epoch is 1970-01-01, by hour, minute, second and millisecond; with the next-day law this fixes every date |
| Validation.ValidIff | src/validation.rs:8-74 | The five checks together accept exactly addresses that fit their fields, times since the epoch, and values that fit their explicit type |
| EndToEnd.ScraperTells | demo/scraper/scraper.py:158-198 | For its two types the scraper decodes a replayed ASDU to the same one point, with its tags and quality word |
| EndToEnd.SpontaneousIsReplay | src/main.rs:572-604 | A spontaneous ASDU equals the replay of that message at its arrival, but for the cause |
| EndToEnd.SpontaneousTells | src/main.rs:572-604 | Decoding a spontaneous ASDU of a validated message tells that message under its own cause |
| EndToEnd.SingleQualityKeptIff | demo/scraper/print_messages.py:147 | The quality octet printed for a single point is the quality sent iff the overflow bit happens to equal the point |
| EndToEnd.QualityShown | demo/scraper/scraper.py:96-102 | The scraper's word for a replayed measured value: invalid stays invalid, staleness shows as not topical and hides every other quality |
| BridgeTheorems.CacheIsLastWrite | src/main.rs:559-571 | Over every run, with any number of source rebuilds, a key is cached iff a message arrived for it, with its last message and arrival time, under that message's own address, and only validated messages are cached |
| BridgeTheorems.GaugeCountsKeys | src/main.rs:453-479 | The cache-size gauge is the number of distinct keys that ever arrived |
| BridgeTheorems.KeysNeverLeave | src/main.rs:559-571 | What was cached at any moment of a run is cached at every later one: no step removes a key |
| BridgeTheorems.SnapshotIsFresh | src/main.rs:550-590 | Whatever the interleaving, a replay holds for each key a message at least as late as any spontaneous ASDU enqueued for that key before |
| BridgeTheorems.SnapshotIsAtMostOneAhead | src/main.rs:550-590 | A replay is never more than one handled message ahead of the spontaneous stream |
| BridgeTheorems.SnapshotCanBeAhead | src/main.rs:550-590 | For any valid message there is a run, through a rebuilt source, in which a replay shows it before its spontaneous ASDU is enqueued |
| BridgeTheorems.NothingBlocks | src/main.rs:497-548 | In every state the loop, the supervisor and every connection have a step they may take |
| BridgeTheorems.QuiescentStreamMatchesCache | src/main.rs:550-590 | With no message in flight, the last spontaneous ASDU of every key was made from the cached message |
| BridgeTheorems.CacheIgnoresOutput | src/main.rs:562-579 | Two runs with the same arrivals end with the same cache, whatever their schedules, output policies and GI-only settings |
| BridgeTheorems.EveryReplyIgnoresGiOnly | src/main.rs:592-604 | The same schedule with GI-only on or off answers every interrogation with the same ASDUs in the same order |
| BridgeTheorems.RepliesIgnoreGiOnly | src/main.rs:562-579 | Across different schedules of the same arrivals, interrogations that find equally many of them at the same clock reading have the same ASDU for every key, GI-only or not |
| BridgeTheorems.GiOnlySendsNothingSpontaneously | src/main.rs:592-604 | A GI-only run enqueues no spontaneous ASDU and its dispatch metric stays 0 |
| BridgeTheorems.SameSchedules | src/main.rs:592-604 | Every schedule possible under one output configuration is possible under any other, handles the same messages, ends with the same cache and replays the same snapshots in the same order: output never holds up input |
| BridgeTheorems.AckDiscipline | src/main.rs:573-587 | Each delivery is acknowledged at most once; an accepted one only after its own cache insert and, outside GI-only, after its own ASDU was enqueued; a rejected one never reaches the cache |
| BridgeTheorems.EveryDeliveryIsSettled | src/source.rs:186-236 | Every delivery polled, valid or not, has had its acknowledgement attempt, except the one in flight |
| BridgeTheorems.MetricCountsAcknowledged | src/main.rs:573-587 | The dispatch metric is the number of dispatched messages whose acknowledgement succeeded |
| BridgeTheorems.NtStaysSet | src/bridge.rs:282-310 | Between two arrivals for a key and under a clock that does not go back, NT never goes from set to clear from one reply to a later one; an invalid point never carries it |
| BridgeRun.InvAlways | src/main.rs:497-604 | All invariants of the machine survive every run |
| BridgeRun.FoldIsLastWrite | src/main.rs:565-571 | Folding the inserts gives a map with exactly the handled keys, each with its last write |
| Bridge.Bridge.InsertPhase | src/main.rs:559-571 | The first critical section performs the machine's insert step and nothing else |
| Bridge.Bridge.DispatchPhase | src/main.rs:572-579 | Shaping with the arrival clock and enqueueing is the machine's dispatch step; nothing is sent in GI-only |
| Bridge.Bridge.AckAndCountPhase | src/main.rs:580-589 | The metric grows only for a dispatched message whose acknowledgement went through |
| Bridge.Bridge.HandleIncomingMessage | src/main.rs:550-590 | Handling one message is an allowed run of insert, dispatch, acknowledge and count, ending idle |
| Bridge.Bridge.RunMessageLoop | src/main.rs:497-548 | Driving a stream is an allowed run over its items in order, up to Ctrl-C or the end of the source; the cache outlives it |
| Bridge.Bridge.OnInterrogation | src/main.rs:306-356 | An interrogation with a qualifier other than 20 changes nothing and gets at most a negative confirmation; one with 20 sends confirmation, replay and termination as an allowed run; on a healthy link with cache size + 2 free slots nothing is refused, and when nothing is drained the number of refusals and the fate of confirmation and termination are exact functions of the free slots, no point being refused iff the cache is empty or cache size + 1 slots were free |
| EndToEnd.AnswerReader | demo/scraper/print_messages.py:60-78 | The interrogation either reader makes, for any numbers and address, is answered with confirmation, replay and termination, completely given cache size + 2 free slots |
| Interrogation.ReplayCachedValues | src/main.rs:358-373 | The loop over the map walks some enumeration of all keys, queues exactly the accepted ASDUs in that order, counts every refusal, refuses nothing given enough free slots, and when nothing is drained refuses exactly the excess of the cache over them |
| Interrogation.ConnectionSink.Dispatch | src/bridge.rs:129-200 | One dispatch queues the shaped ASDU or counts one failure |
| Interrogation.ReplyShape | src/bridge.rs:143-145 | For any order and refusals: accepted keys are distinct and cached, each with its own address and cause "interrogated", and accepted + failed equals the cache size |
| Interrogation.ReplayFields | src/main.rs:364-372 | A replayed point keeps its address and its quality up to NT, gets cause 20, and has a time tag iff timestamps are on and it had one |
| Shaping.TimedAndUntimedAgree | src/bridge.rs:319-442 | Turning timestamps off keeps address, cause, quality and carried value for every value and type; the type is the untimed counterpart except for normalized points |
| Shaping.NoDoublePointLeaves | src/bridge.rs:435-442 | No dispatch ever produces a double-point object, though the builder could |
| Shaping.ScaledIsClampedTruncation | src/bridge.rs:464-475 | Scaled output is in i16 range, saturates outside it, and is within one of the input toward zero inside it |
| Shaping.ScaledMonotone | src/bridge.rs:464-475 | Larger inputs never give smaller scaled outputs |
| Shaping.ScaledExactIffInferred | src/bridge.rs:243-253 | A number survives as a scaled value exactly when inference would have chosen that type |
| Shaping.ScaledIsRoundedIff | README.md:210 | For every real: the scaled output equals the documented one, rounded (halves away from zero) and clamped, iff the clamped value's fraction is strictly between -0.5 and 0.5; otherwise it is one short of it, toward zero |
| Shaping.ScaledIsNotRounded | README.md:210 | 2.75 goes out as 2 where rounding gives 3, and -2.75 as -2 |
| Shaping.StampExactIff | src/bridge.rs:359-361 | The millisecond count handed to the library is exact iff the source time lies from 0 up to 2^64 ns after the epoch |
| Shaping.NtNeverClears | src/bridge.rs:282-301 | A later look at the same cached point never clears an added NT |
| Shaping.NtNeverAddedToInvalid | src/bridge.rs:289-293 | An invalid point leaves with quality 0x80 however stale it is |
| Shaping.SpontaneousNtFromSourceTime | src/main.rs:572-577 | A spontaneous send can be marked stale only by its source time |
| UnixClients.NothingIsLost | src/source.rs:447-470 | Over every schedule of every number of clients, a client's valid lines in their order are those whose `ok` was attempted, then the one in the consumer's hand, those in the channel, those dropped with a closed receiver and the one with its task; its rejected lines are those whose error was attempted; written and failed replies account for both, line by line when none failed; every reply is the one its line deserves; the channel holds at most 64 |
| UnixClients.OutcomeIff | src/source.rs:572-594 | Exactly the lines within the limit that hold a valid message are forwarded, as that message; blank and non-JSON ones within it get a parse error; longer ones and invalid messages a validation error |
| UnixClients.OnlyValidLinesPass | src/source.rs:674-692 | Over every schedule, every line acknowledged, in hand, in the channel or about to be sent is within the limit and holds a valid message, and a reply is `ok` iff its line does |
| UnixClients.SendTakenIff | src/source.rs:29 | A waiting message is taken exactly while the receiver is there and the channel holds fewer than 64, and lost exactly when the receiver is gone |
| UnixClients.OksInLineOrder | src/source.rs:703-711 | Without a failed `ok` write, a client's `ok`s answer its first valid lines, in order |
| UnixClients.InOrderIffNotOvertaken | src/source.rs:572-594 | For a client that lost nothing, replies come in request order iff nowhere in the schedule one of its rejected lines was read while an earlier valid line waited for its `ok` |
| UnixClients.LockStepReplies | src/source.rs:447-470 | For a client with at most one line outstanding, reply k is the classification of line k, and the lines without a reply are exactly those waiting |
| UnixClients.PipeliningCanReorder | src/source.rs:572-594 | A schedule in which the reply to the second line comes before the reply to the first |
| UnixClients.InvAlways | src/source.rs:358-400 | Conservation, honesty, counting and order hold in every reachable state, shutdown included |
| UnixClients.ProcessUnixSocketLine | src/source.rs:572-694 | A line within the limit that holds a valid message is passed on and not answered; any other gets its one error reply unless the write fails |
| UnixClients.ForwardUnixClientLines | src/source.rs:447-470 | The reading task forwards exactly the messages of acceptable lines, all valid, and answers exactly the others, in order, until input ends, a reply cannot be written or the receiver is gone |
| Framing.RecvExact | demo/scraper/print_messages.py:38-45 | However reads are split, exactly n octets are consumed and returned, or the peer closed before |
| Framing.RecvApdu | demo/scraper/print_messages.py:48-53 | One frame is taken off the stream, or the error for a bad start or a closed peer, independent of the split |
| Framing.BadStartIff | demo/scraper/print_messages.py:48-53 | A stream is refused iff it begins with something other than 0x68, and yields a frame iff the announced octets are there |
| Framing.TakesOneFrame | demo/scraper/print_messages.py:48-53 | The framing function inverts framing (0x68, length, body) for every body of at most 255 octets, whatever follows |
| Framing.RecvAll | demo/scraper/print_messages.py:38-53 | On any split of the concatenation of frames, repeated reading returns exactly those frames and then sees the close |
| Session.ParseInvertsSeq | demo/scraper/print_messages.py:89-90 | The send number is read back from its control octets on 0..32767: its low seven bits above a zero bit, then its high eight |
| Session.MadeFramesAreRecognised | demo/scraper/print_messages.py:56-86 | Interrogation, S- and U-frames made by the reader have the right length, are never taken for another kind, and carry their numbers |
| Session.GiFrameAsksFor | demo/scraper/print_messages.py:60-78 | The interrogation frame is an activation of type 100 with one object at address 0 for the given common address, qualifier 20 |
| Session.RunAsks | demo/scraper/print_messages.py:183-194 | Over every run of the loop, whatever arrives: exactly the rounds due at the readings taken go out, each complete and asking the stations in their order, and nothing else is asked |
| Session.DefaultAsksOnceAtStart | demo/scraper/print_messages.py:185-189 | With interval 0 every station is asked once, directly after STARTDT and before anything else, and never again |
| Session.PositiveIntervalDue | demo/scraper/print_messages.py:190-194 | With a positive interval a round is due at a reading iff the interval has passed since the latest due reading, or since 0 if there was none |
| Session.SessionFollowsScript | demo/scraper/print_messages.py:179-213 | Against a server's frames the loop sends exactly, octet by octet: the due rounds numbered on, one acknowledgement with the count so far per I-frame, one TESTFR confirmation per test, and nothing else |
| Session.StreamIsFrames | demo/scraper/print_messages.py:183-213 | The session on a stream equals the session on its frames |
| Session.Reader.AwaitStart | demo/scraper/print_messages.py:171-177 | The handshake takes one frame off the stream and raises unless its control field begins with the STARTDT confirmation |
| Session.Reader.Loop | demo/scraper/print_messages.py:183-213 | The loop with its variables computes the session function on any socket |
| Session.AnyFrame | demo/scraper/print_messages.py:196-213 | The effect of any frame: tests are confirmed, other U- and S-frames ignored, I-frames counted, printed and acknowledged unless decoding raises, and frames too short for their kind end the session |
| Session.SessionNumbers | demo/scraper/print_messages.py:179-213 | Against a server numbering from 0: after n I-frames rr is n mod 2^15, the n-th S-frame says so, the k-th interrogation carries N(S) = k mod 2^15, and what is printed is the decoding of the I-frames in order |
| Session.RunSession | demo/scraper/print_messages.py:171-213 | Numbers, printed messages and the exact octets sent, for the handshake and loop over a socket delivering the octets, from the STARTDT confirmation on, in any non-empty chunks |
| PrintDecoder.RunDecodeAsdu | demo/scraper/print_messages.py:118-168 | The loop with offset, address and early exits computes the decoding function, exceptions included |
| OctetLayout.PrintedByPosition | demo/scraper/print_messages.py:105-168 | On any octets, every announced and present object is printed from its own positions: address, value, quality and time tag octet by octet for the eight types and both address layouts |
| OctetLayout.UnknownTypesAreSkipped | demo/scraper/print_messages.py:105-145 | ASDUs of other types, or shorter than a header, print nothing and raise nothing |
| PrintDecoder.DecodeInvertsIff | demo/scraper/print_messages.py:118-168 | For every list of up to 127 objects, with one address each or a shared first address: decoding inverts encoding iff it is not a shared-address list of two or more untimed single points |
| PrintDecoder.DecodeKeeps | demo/scraper/print_messages.py:134-145 | How much of any encoded list is decoded, the failing family included, without exception |
| PrintDecoder.OffsetClosedForm | demo/scraper/print_messages.py:128-154 | The loop offset at object k in closed form, for every type and both address layouts |
| PrintDecoder.TruncationRaisesIff | demo/scraper/print_messages.py:105-168 | Any encoded ASDU cut inside any object gives what the objects before it would give alone, and an exception iff the cut leaves at least three octets but too few for the value; for packed single points that is only inside the first |
| PrintDecoder.TruncationGivesPrefix | demo/scraper/print_messages.py:118-168 | For any octets and any cut, what was decoded is a prefix of the full decode |
| ScraperDecoder.RunDecodeAsdu | demo/scraper/scraper.py:158-198 | The scraper's loop computes its decoding function with every index in bounds on any octets |
| ScraperDecoder.ReadersAgree | demo/scraper/scraper.py:158-198 | On every octet string of its two types the scraper decodes the same points as print_messages.py |
| ScraperDecoder.QualityByRange | demo/scraper/scraper.py:96-102 | The quality word of every octet, by the range its highest bit puts it in |
| ScraperDecoder.TagsNameThePoint | demo/scraper/scraper.py:105-115 | Tags determine address and common address, and name spans 1 to 10 and the line where the demo puts them |
| ScraperDecoder.TruncationGivesPrefix | demo/scraper/scraper.py:158-198 | Cutting any octet string anywhere gives a prefix of the full decode |
| ScraperDecoder.DecodeInverts | demo/scraper/scraper.py:158-198 | For its two types the scraper inverts the encoder with either address layout, addresses counted up from the first |
| TimeTag.DecodeInvertsCp56 | demo/scraper/print_messages.py:93-102 | Every date and time of 2000-2099 is read back whatever the IV, summer-time, weekday and reserved bits are |
| Wire.BodyLength | demo/scraper/print_messages.py:128-154 | The length of any encoded object list in closed form |
| Supervisor.Supervisor.Supervise | src/main.rs:135-191 | The nested loops wait exactly as the closed form says; a failing first build returns its error without stopping the server; later, the server is stopped exactly once, and only on Ctrl-C |
| Supervisor.WaitsBounded | src/main.rs:98-103 | Every wait of every history is between 200 and 5000 ms |
| Supervisor.WaitsWithoutReset | src/main.rs:165-187 | Without a stable run the k-th wait is min(200 * 2^k, 5000), whatever the runs and builds do |
| Supervisor.ShortRunKeepsDoubling | src/main.rs:157-179 | After a run shorter than 30 s the next wait is twice the last, up to 5000 ms |
| Supervisor.BackoffClosedForm | src/main.rs:165-187 | Without a stable run waits never decrease and n >= 5 of them total 6200 + 5000 (n - 5) ms |
| Supervisor.StableRunResets | src/main.rs:157-163 | After a run of at least 30 s the next wait is 200 ms, whatever came before |
| SocketPath.PrepareSocketPath | src/source.rs:713-719 | Terminates; on success the parent is a directory, the path is free, exactly the missing ancestors were made, at most a regular file or socket at the path was removed, the rest is unchanged, and the result says whether the parent was missing; on failure only wanted directories were added; without permission failures it succeeds iff the state before was ready |
| SocketPath.ReadyIff | src/source.rs:713-810 | Entry by entry: a path can be prepared iff it has a parent other than the empty path, every existing entry on the way there is a directory, and what stands at the path, if anything, is a file or a socket |
| SocketPath.CreateDirectoryIfMissing | src/source.rs:749-775 | The recursion makes exactly the missing ancestors, reports whether the directory was missing, leaves only wanted directories behind when it fails, and succeeds whenever resolution is not blocked |
| SocketPath.EnsureSocketParentDir | src/source.rs:730-747 | As above, and the parent is a real directory, not a link to one |
| SocketPath.RemoveExistingSocketPath | src/source.rs:777-810 | Removes only a regular file or a socket; links, directories and devices are refused and nothing changes |
| SocketPath.CreatesMissingAncestors | src/source.rs:749-775 | A path is made iff it is missing and is the directory or one of its ancestors |
| SocketPath.BareNameIsNeverReady | src/source.rs:721-728 | A relative path with one component is refused in every file system |
| SocketPath.PreparedStaysReady | src/source.rs:713-719 | Preparing again after a success would succeed and change nothing |

## Left out

- lib60870 itself, FFI pointers and `PinnedAsdu`: foreign code. A connection accepts or refuses; the octets come from the standard.
- Allocation failures of ASDUs and information objects: counted as refusals for a connection, not modelled for the server's own queue, which drops old entries in foreign code.
- TLS proxy, certificates, the NATS connection, HTTP metrics text, logging, configuration parsing.
- JSON and RFC 3339 parsing: a line or delivery arrives already classified.
- Peer credentials and socket permissions: authorization is a boolean at connect; `set_socket_permissions` is not modelled.
- Messages that share a redelivery are not compared by timestamp, as in the code: "latest" is latest handled.
- IEEE 754: `f64` values are reals, `f32` is four opaque octets; infinities and NaN are not represented (JSON has no words for them).
- The normalized encoding of a short float (`Platform.normalize`): opaque, so a timed normalized value is shown to be printed as the 16 bits the library encoded, divided by 32767.
- The text of printed messages, of quality words and of time stamps: their fields are modelled.
- The socket timeout in `scraper.py`, which can fire inside a frame; framing is proved for `print_messages.py`.
- Task panics and mutex poisoning.
- `|` and `&` on octets are written as sums, quotients and remainders by powers of two.
- SocketPath: links inside ancestors, `.` and `..`, and other processes changing the file system meanwhile.
- The demo publisher, InfluxDB writes, Grafana, container and Nix files.
