# mdds, modelled and verified

mdds is a small DDS-like middleware with its own wire format and its own
reliability protocol. A writer keeps a bounded history and numbers its samples.
A reader compresses what it has seen of a writer into a baseline plus a 64-bit
window, asks for what is missing with an ACKNACK, and is answered with resends
and with a GAP for what it will never get. Samples wider than the transport are
split into fragments. Participants announce their endpoints to each other.
Outgoing frames go through per-peer send lanes that share one byte budget.

This project models those parts in Dafny and proves what they guarantee.

| files | what they model |
|---|---|
| Base, Words, Sums, BigEndian | values, 64-bit words as naturals with bits, finite sums, fixed-width numbers |
| Window, Reader, Writer | the receive state, the reader's queue and loss count, the writer's history and its answer to a NACK |
| Queue, History, Effects | over runs: what a reader's queue and a writer's history hold, and who a handler answers, sends to or ignores |
| Intervals, Fragment | splitting a sample and putting it together again |
| System, Handlers | the protocol as a transition system, and the scanning handlers as methods |
| Invariant, Preservation, Projection, Guarantees | the inductive invariant, that every step keeps it, what a run is to one reader and one writer, and what holds in every reachable state |
| Pairs, Healing, Convergence | what lossless heartbeat / ACKNACK / answer rounds achieve |
| Runs, Delivery, Entitlement, Witnesses | runs put together from parts, delivery over any run, when a VOLATILE reader is given old samples, and concrete runs |
| Frame, Layout, Wire | the data-plane frames, their bytes, and the protocol over bytes |
| Discovery, Announces, Matching | the ANNOUNCE codec, the discovery table, the match counts |
| SendLane | many lanes, their workers and the shared budget, interleaved |

## How it is built

Each thing the source updates in place is a class (`Readers.Reader`,
`Writers.Writer`, `Fragments.Reassembler`, `SendLanes.SendLane`,
`Discovery.Cursor`, `Matching.Participant`, `Handlers.Domain`) whose methods
are proved equal to a function of the old state. The transition systems and the
lemmas are about those functions. In `Systems` a step is one locked region of a
participant. The network is a set of frames that only grows: a frame may be
received never, once or often, and in any order. Time is a step of its own and
never goes back; reading the clock is part of the step that uses it. Which
endpoints a participant has discovered is left open to every step.

The scanning handlers in `Handlers` work on the values of the protocol: they
call the functions `Deliver`, `NackState` and `SendSample`, which
`Readers.Reader` and `Fragments.FragmentSample` are proved to compute, and not
those methods themselves.

## What the proofs found

Where the code and its comments disagree, the model follows the code.

- The comment at src/participant.cpp:282-284 calls the NACK base "always the
  first missing seq". It is so on runs without GAPs (`Window.GapFreeBase`). In
  general the base is a received seq exactly when the baseline was last moved by
  a GAP that stopped just below a receipt (`Window.BaseReceivedIff`).
- From such a state a lossless round moves nothing unless the answer holds
  another GAP (`Convergence.RoundMovesIff`), and the pair stays there
  (`Convergence.StuckStays`). It is not a rare state: `handle_acknack` sends the
  GAP after the resends, so in-order delivery of an answer whose GAP ends below
  an available seq leads there (`Convergence.OrderedGapSticksIff`). A
  late-joining VOLATILE reader reaches it without loss, duplication or
  reordering (`Witnesses.StuckIsReachable`).
- The jump branch of `enqueue` counts seqs as lost that were received
  (`Window.JumpOvercounts`). The loss count is exact if and only if no jump of
  the run passes over receipts (`Window.LossExactIff`), and never too low.
- What a VOLATILE reader may get is decided per participant, not per reader: a
  DATA frame is offered to every matching reader of the peer it reaches
  (`Witnesses.SharedHostLeaks`). A reader is safe from a writer when all
  readers of its participant that match the writer are VOLATILE and born no
  earlier (`Guarantees.VolatileJoinSafety`). Given the readers of a participant,
  a VOLATILE one of them can be given a sample from before its birth, in some
  run, if and only if another one of the same topic and type is older or is
  TRANSIENT_LOCAL (`Entitlement.LeakPossibleIff`).
- Match counts are right after every operation only because an endpoint's QoS
  never changes: an announce that differs in QoS alone is not a change and is
  not recounted (`Matching.ChangedQosGoesUncounted`).
- Which of two snapshots with the same `announce_seq` is kept depends on the
  order of arrival (`Announces.OrderDecides`). A participant can send two such:
  the seq is raised in the announce loop only, while an announce to a new peer
  carries the present endpoints with the present seq.
- The shared budget of the send lanes can be exceeded, by at most one frame for
  each lane but one, and that much is reached (`SendLanes.SharedBudgetIsTight`).

## Model

| member | source | states |
|---|---|---|
| Window.EnqueueRefines | src/participant.cpp:224-260 | A seq is accepted exactly when it is above the baseline and not in the unbounded accepted set; slide, set-bit and jump leave a state that pictures the set with it added; the baseline never goes back |
| Window.ShiftPictures | src/participant.cpp:319-330 | Moving the baseline by any span, 64 and more included, and shifting the window by it loses no receipt |
| Window.SlidePictures | src/participant.cpp:251-256 | The absorbing loop stops at the first seq not received, having passed receipts only |
| Window.DataKeeps | src/participant.cpp:218-260 | A receipt keeps the receive state a picture of the accepted set and the ledger balanced; base and GAP losses stay |
| Window.GapKeeps | src/participant.cpp:301-331 | A GAP keeps both, accepts nothing, and makes lost exactly the seqs it passes that were never received |
| Window.LossLedger | src/participant.cpp:225-260 | On every run the loss count is the number of seqs between join baseline and baseline never received, plus the window bits set when jumps happened |
| Window.LossExactIff | src/participant.cpp:229-235 | The loss count is exact if and only if no jump of the run found receipts in the window |
| Window.JumpOvercounts | src/participant.cpp:229-235 | Any run, extended by a receipt above a hole and a jump, counts that received seq as lost |
| Window.BaseReceivedIff | src/participant.cpp:282-294 | The NACK base is a received seq exactly when the baseline was last moved by a GAP to some g with g + 1 received |
| Window.GapFreeBase | src/participant.cpp:246-259 | On runs without GAPs the NACK base is never a received seq |
| Window.StuckMoves | src/participant.cpp:246-259 | From such a base the baseline moves exactly on a duplicate of the base, a jump, or a further GAP |
| Readers.DeliverKeeps | src/participant.cpp:218-280 | A sample is queued exactly when it is new and not expired; only its writer's receive state moves |
| Readers.DeliveredOnce | src/participant.cpp:180-191 | What is taken and still queued holds each (writer, seq) at most once, out of what was queued |
| Readers.LostCountLedger | src/participant.cpp:229-235 | The ledger summed over all writers of a reader |
| Readers.Reader.EnqueueSample | src/participant.cpp:218-280 | The method in place does to the whole reader what `Deliver` says |
| Readers.Advance | src/participant.cpp:224-260 | The branches and the absorbing loop compute `Enqueue` |
| Readers.Skipped | src/participant.cpp:319-330 | The counting loop and the shift compute `SkipTo` |
| Readers.Reader.ApplyGap | src/participant.cpp:301-331 | Join baseline or skip, in place, as `Skip` says |
| Readers.Reader.TakeSample | src/participant.cpp:180-191 | Sweep, then the front of the queue or nothing |
| Readers.Reader.SweepExpired | src/participant.cpp:378-390 | Erasing expired items where they stand leaves the others in order |
| Readers.Reader.CurrentNack | src/participant.cpp:286-294 | Base and bitmap, or (1, 0) for a writer never heard |
| Queues.KeepAllHoldsAll | src/participant.cpp:262-279 | In every reachable state a reader that keeps all and was given no item with a lifespan holds, in order, everything it was given and has not handed out |
| Queues.KeepLastHoldsNewest | src/participant.cpp:272-279 | In every reachable state a KEEP_LAST reader given no item with a lifespan holds, in order, exactly those of the newest max(depth, 1) items that it has not handed out |
| Queues.LeavesOnlyFor | src/participant.cpp:262-279 | An item queued once that is neither handed out nor queued any more was pushed out by max(depth, 1) newer ones or is past its lifespan |
| Queues.TakeGives | src/participant.cpp:180-191 | A take hands out the first queued item not past its lifespan, and leaves exactly the others behind it that are not; nothing only if all are past it |
| Queues.SweepStep | src/participant.cpp:378-390 | A sweep leaves exactly the items not past their lifespan |
| Queues.AcceptedIsQueued | src/participant.cpp:262-270 | Everything a reader accepted from a writer without lifespan was queued |
| Queues.AcceptedIsHandedOut | src/participant.cpp:180-280 | A sample accepted by a reader that keeps all, no lifespans involved, has been handed out with the published payload once the reader was asked as often as its queue was long, whatever happens in between |
| Writers.PublishKeeps | src/participant.cpp:573-589 | The history stays a tail of everything published; an accepted write takes the next seq, a rejected one changes nothing and happens only on a full KEEP_ALL history |
| Writers.ResendIff | src/participant.cpp:823-839 | A sample is resent exactly when it is held, asked for, not reported received and allowed to the reader |
| Writers.GapEndIsHighest | src/participant.cpp:823-842 | The GAP ends at the highest asked seq that will never be sent |
| Writers.NeverSentIsPrefix | src/participant.cpp:811-842 | With publication times that do not decrease, what will never be sent is a prefix |
| Writers.AnswerPartition | src/participant.cpp:811-860 | Every unreceived published seq of the 64 is resent or lies in the GAP, never both; unpublished ones are in neither |
| Writers.Writer.CacheSample | src/participant.cpp:134-161 | The trimming and sweeping loops compute `Cache` |
| Writers.Writer.Write | src/participant.cpp:573-589 | The locked part of a write, in place, as `Publish` says |
| Writers.Writer.AnswerNack | src/participant.cpp:821-843 | The nested scan finds exactly the resends and the GAP end |
| History.HoldsTheNewest | src/participant.cpp:134-161 | In every reachable state a RELIABLE or TRANSIENT_LOCAL writer without lifespan holds exactly the last max(depth, 1) samples it published, or, keeping all, all of at most 256; any other holds none |
| History.MissingHasExpired | src/participant.cpp:153-159 | With a lifespan, a sample within that range is missing only if it is past its lifespan |
| History.FrontIsFresh | src/participant.cpp:153-159 | After an accepted write the oldest held sample is not past its lifespan |
| History.RejectsIff | src/participant.cpp:143-147 | A write is rejected, and then changes nothing, exactly when the writer keeps all and holds 256 samples; otherwise it takes the next seq |
| Handlers.Domain.DeliverSample | src/participant.cpp:922-968 | The scan over the readers delivers to each matching one and asks for each reliable one that saw a hole |
| Handlers.Domain.AnswerHeartbeat | src/participant.cpp:879-920 | The scan collects one NACK for each matching reliable reader that is behind |
| Handlers.Domain.SendTargets | src/participant.cpp:1065-1082 | The scan collects the participants with a matching reader among those known |
| Handlers.Domain.ReplayHistory | src/participant.cpp:1014-1053 | The loops send, for every new reader and every writer, each held sample that has not expired to a TRANSIENT_LOCAL match |
| Effects.HeartbeatIff | src/participant.cpp:879-920 | A HEARTBEAT is answered by exactly the matching reliable readers at its destination whose baseline is below its last seq, each with one NACK, and by nothing else |
| Effects.OnlyReliableReadersAsk | src/participant.cpp:903-906 | In every reachable state every ACKNACK in flight comes from a RELIABLE reader |
| Effects.FlagsSayReliable | src/participant.cpp:615-616 | In every reachable state the flags of every DATA or DATA_FRAG in flight are 1 when its writer is RELIABLE and 0 otherwise |
| Effects.IgnoredFrames | src/participant.cpp:796-810 | Data of an undiscovered writer, NACKs of an undiscovered reader or for another participant's writer, GAPs for another participant's reader or ending before they start change nothing |
| Effects.ReplayIff | src/participant.cpp:1014-1053 | Exactly the frames of the held, unexpired samples are replayed, and only between a TRANSIENT_LOCAL writer and a matching TRANSIENT_LOCAL reader |
| Effects.LocalReplayIff | src/participant.cpp:977-1012 | The same inside a participant, by hand-over, and only to a reader that does not ignore local writers |
| Effects.HandoversAreLocal | src/participant.cpp:592-602 | In every reachable state a hand-over is inside one participant and never to a reader that ignores local writers |
| Effects.PartialsTakenOut | src/participant.cpp:660-666 | A peer-down takes out that peer's reassembler and no other; a sweep takes out exactly the partials older than the timeout |
| Effects.FragmentFiled | src/participant.cpp:700-719 | A DATA_FRAG touches the reassembler of the peer it came through, there only its own sample, and stamps it with the time of arrival unless it is bad |
| Intervals.MergeNormal | src/fragment.cpp:94-114 | Merging keeps the interval list sorted and strictly separated, zero-length intervals included |
| Intervals.MergeCovers | src/fragment.cpp:94-114 | The merged list covers exactly the union |
| Intervals.CompleteIff | src/fragment.cpp:117-120 | The completeness test holds exactly when every byte is covered |
| Intervals.MergeIn | src/fragment.cpp:97-114 | The loop with its running interval computes the merge |
| Fragments.FragmentShape | src/fragment.cpp:33-53 | One DATA frame exactly when the sample fits; a split has at least two non-empty chunks that tile the payload, every frame but the last filling the transport exactly; nothing is sent exactly when the transport is too narrow |
| Fragments.FragmentSample | src/fragment.cpp:23-54 | The loop produces the split and the uint32 cast of the capacity never truncates |
| Fragments.RangeTestExactIff | src/fragment.cpp:68-70 | The 32-bit range test is exact exactly when the sum does not wrap to at most the total |
| Fragments.DecodedIsInRange | src/frame.cpp:272-274 | Whatever the decoder lets through is within its total, so the test is exact on it |
| Fragments.AddPiece | src/fragment.cpp:75-125 | A piece completes its sample, with exactly its payload, only when every byte was covered or is covered by it; otherwise it leaves a partial that agrees with the sample and covers what it covered and the piece |
| Fragments.OutputsOnlyThePayload | src/fragment.cpp:56-151 | Over any run with any order, duplicates, splits, other samples, sweeps and drops, only the payload comes out |
| Fragments.CoversWhatWasFed | src/fragment.cpp:56-151 | In every run, sweeps and drops included, a partial covers exactly the bytes fed since its key was last taken out of the table |
| Fragments.CompletesIff | src/fragment.cpp:117-125 | After every run, a piece completes its sample exactly when every byte of it was fed since then or is in the piece |
| Fragments.CoveredIsEmitted | src/fragment.cpp:63-126 | As long as no sweep and no drop takes the key out, a run that was fed every byte has put the sample out |
| Fragments.FragmentRoundTrip | src/fragment.cpp:33-126 | The frames of a split, in any order, with anything of other samples between and with sweeps and drops that leave the sample alone, put the payload together and nothing else |
| Fragments.InTimeIsNeverForgotten | src/fragment.cpp:128-140 | A key whose last fragment is at every sweep no older than the timeout, and whose writer is not dropped, is never taken out |
| Fragments.LateIsForgotten | src/fragment.cpp:128-151 | A sweep more than the timeout after the key's last fragment takes it out, and so does dropping its writer |
| Fragments.TimelyRoundTrip | src/fragment.cpp:33-140 | So a split sample comes out of any run that is fed all its frames and sweeps in time |
| Fragments.BadFragment | src/fragment.cpp:68-88 | A fragment out of range or of another total than its partial changes nothing |
| Fragments.Reassembler.Add | src/fragment.cpp:63-126 | The method in place does to the table what `AddFragment` says |
| Fragments.Reassembler.SweepExpired | src/fragment.cpp:128-140 | Exactly the partials past the timeout go, and their number is returned |
| Fragments.Reassembler.DropAll | src/fragment.cpp:142-151 | Exactly the writer's partials go |
| Preservation.StepKeeps | src/participant.cpp:573-1053 | Every step keeps the invariant of writers, readers, partials, calls in progress and every frame in flight, and takes nothing back |
| Preservation.RunKeeps | src/participant.cpp:573-1053 | The invariant holds after every run with loss, duplication and reordering |
| Guarantees.EndToEnd | src/participant.cpp:682-726 | Everything a reader ever queued or took is exactly what its writer published at that seq, each (writer, seq) once |
| Guarantees.PublishedForever | src/participant.cpp:573-589 | What is published stays as it is |
| Guarantees.HistoryShape | src/participant.cpp:134-161 | The history is always empty or a contiguous run ending at the writer's seq, within its cap, with publication times that do not decrease |
| Guarantees.NackAnswerPartition | src/participant.cpp:785-860 | In every reachable state the answer to any NACK is such a partition, and the GAP part is what is evicted or predates the reader |
| Guarantees.InFlight | src/participant.cpp:301-305 | Every GAP in flight starts within its reader's reach, every ACKNACK is a reliable reader's and its set bits are received seqs, which is why ignoring `gap_start` is safe |
| Guarantees.GapLossesAreSound | src/participant.cpp:785-877 | A seq counted lost through a GAP was evicted or predates the VOLATILE reader, stays so and is never accepted |
| Guarantees.LostCount | src/participant.cpp:225-330 | The ledger in every reachable state |
| Projection.PairRun | src/participant.cpp:218-331 | A reader's state for a writer is what the data and GAPs that reached the pair in the run make of it |
| Guarantees.ReceiveState | src/participant.cpp:282-294 | So in every reachable state it pictures the accepted set, the base is a received seq exactly when the last of them to move the baseline was a GAP ending just below a receipt, and losses are counted exactly when no jump among them passed over receipts |
| Guarantees.VolatileJoinSafety | src/participant.cpp:805-840 | Whatever a reader accepts comes from a writer it matches, and a reader of its participant that matches it too was entitled to it; where all such readers are VOLATILE and born no earlier than it, it accepts nothing published before its birth |
| Guarantees.OfferedToAll | src/participant.cpp:942-955 | A DATA frame is accepted by every matching reader of the participant to which it is new, whatever its birth |
| Guarantees.HoleAsks | src/participant.cpp:932-962 | A received sample draws a NACK from exactly the matching reliable readers that see a hole below it |
| Guarantees.LocalDelivery | src/participant.cpp:592-613 | An accepted write is handed to every matching reader of its participant, which accepts it when it is enqueued at once |
| Delivery.HandoverSettles | src/participant.cpp:606-613 | A handed-over sample enqueued at any later time is received or below the baseline from then on |
| Delivery.Delivered | src/participant.cpp:682-726 | In any run from any reachable state, a sample all of whose frames arrive ends received or below the baseline, whatever is lost, duplicated, reordered or done besides |
| Delivery.AnswerDelivers | src/participant.cpp:785-860 | So does every held and allowed seq of [base, base + 63] in any run in which the resends of an answer arrive |
| Delivery.LiveDelivery | src/participant.cpp:573-620 | An accepted write is sent to every known matching reader, split if need be, and accepted when its frames arrive in any order and any number of times |
| Entitlement.ResendReachesOthers | src/participant.cpp:922-968 | From any reachable state in which a reliable reader would be resent a sample, some continuation makes every matching reader of its participant with a lower baseline accept it, whatever its birth |
| Entitlement.LeakPossibleIff | src/participant.cpp:942-955 | For any finite set of readers on a participant: a VOLATILE one can come to accept a sample from before its birth if and only if another of the same topic and type is older, or is TRANSIENT_LOCAL and there was a time before |
| Guarantees.KeepAllHistory | src/participant.cpp:143-152 | KEEP_ALL, RELIABLE, no lifespan: the history is everything published, at most 256, and a full one rejects every write without a change |
| Guarantees.KeepAllNeverGaps | src/participant.cpp:818-843 | Such a writer never sends a GAP to a reader that is not VOLATILE or older than its first sample, so that reader's losses come from jumps alone |
| Pairs.ResentArrives | src/participant.cpp:246-260 | A resent seq is received afterwards, the baseline passes receipts only, and a received base stays where it is |
| Pairs.AllSeen | src/fragment.cpp:63-126 | Once every frame of a sample has arrived, nothing of it is pending |
| Healing.RoundHeals | src/participant.cpp:785-860 | After one lossless round, frames in any order and repeated, the reader has every seq of [base, base + 63] that is held and allowed |
| Convergence.RoundMovesIff | src/participant.cpp:785-860 | A lossless round moves the baseline if and only if the base was missing or the answer holds a GAP |
| Convergence.RoundReaches | src/participant.cpp:785-860 | With the base missing and nothing unavailable, it reaches min(base + 63, writer seq), and the next round starts so again |
| Convergence.Converges | src/participant.cpp:879-920 | k such rounds gain 64 seqs each until the writer's seq is reached |
| Convergence.StuckStays | src/participant.cpp:824-828 | A pair whose base is received and whose answer holds no GAP is moved by no round |
| Convergence.ConvergesOrSticks | src/participant.cpp:785-860 | From any state, k rounds gain k seqs or reach the writer's seq, or the pair is stuck |
| Convergence.OrderedGapSticksIff | src/participant.cpp:846-858 | Delivered in the order sent, an answer with a GAP ends on the GAP's end, and the next base is received exactly when it was published and in the window |
| Convergence.OrderedGapSticks | src/participant.cpp:846-858 | When that seq was not received before, the pair is stuck from then on |
| Runs.ReceiveAllIsRun | src/participant.cpp:682-726 | Receiving frames in flight in any order is a run of the protocol |
| Runs.AskAndAnswer | src/participant.cpp:785-920 | Heartbeat and NACK are steps that put the whole answer in flight and change nothing else |
| Witnesses.OrderedRun | src/participant.cpp:785-860 | Heartbeat, NACK and in-order answer are a run from every reachable state whose answer holds a GAP |
| Witnesses.StuckIsReachable | src/participant.cpp:329-330 | A stuck pair is reached by a late-joining reader without loss or reordering |
| Witnesses.SharedHostLeaks | src/participant.cpp:942-955 | With two readers on a participant, a VOLATILE one accepts a sample from before its birth |
| Frames.FrameRoundTrip | src/frame.cpp:170-364 | Decoding the encoding of any data-plane frame within the field widths gives the frame, whatever bytes follow |
| Frames.DataRoundTrip | src/frame.cpp:170-218 | The same of DATA with a trailer |
| Frames.DataFragRoundTrip | src/frame.cpp:220-276 | The same of DATA_FRAG with a trailer |
| Frames.DecodeIsLocal | src/frame.cpp:134-152 | On any input, decoding depends only on the header and the declared body |
| Frames.DecodedFits | src/frame.cpp:247-276 | Whatever decodes is within the field widths and a fragment within its total |
| Layout.HeaderLayout | src/frame.cpp:122-132 | The header's bytes: MDDS, version 4, kind, flags, body length |
| Layout.BodyLayout | src/frame.cpp:170-347 | The kind byte and the offset of every field of the five frames |
| Layout.HeaderReencodes | src/frame.cpp:134-152 | What decodes has that magic and version and declares no more than is there |
| Layout.HeaderAccepted | src/frame.cpp:134-152 | And a buffer with that magic and version and enough bytes is not refused for its header |
| Layout.DecodedReencodes | src/frame.cpp:194-363 | Whatever decodes to a frame starts with exactly that frame's header and fields |
| Frames.TrailerFold | src/frame.cpp:90-118 | Well-formed entries followed by a malformed tail give the fold over the entries |
| Frames.TrailerShape | src/frame.cpp:90-118 | Every tail is such entries followed by an unreadable rest |
| Frames.FoldMeaning | src/frame.cpp:100-114 | The fold keeps the last 16-byte origin GUID and the last 8-byte origin seq; unknown kinds and wrong lengths count for nothing |
| Frames.TrailerRoundTrip | src/frame.cpp:154-168 | An encoded trailer parses to itself |
| Frames.ParseTrailer | src/frame.cpp:90-118 | The loop over the position computes the fold and whether all bytes parsed |
| Frames.EncodeData | src/frame.cpp:170-192 | Filling the buffer by offset gives the layout of DATA |
| Frames.EncodeDataFrag | src/frame.cpp:220-245 | The same of DATA_FRAG |
| Frames.EncodeAckNack | src/frame.cpp:278-289 | The same of ACKNACK |
| Frames.EncodeHeartbeat | src/frame.cpp:308-318 | The same of HEARTBEAT |
| Frames.EncodeGap | src/frame.cpp:336-347 | The same of GAP |
| Wire.BytesRefineFrames | src/participant.cpp:682-726 | Every run over bytes passes through the states of a run over frames, with exactly its frames encoded in flight |
| Wire.FramesRunOverBytes | src/participant.cpp:682-726 | Every run over frames is a run over bytes |
| Wire.EndToEndOverBytes | src/participant.cpp:682-726 | End-to-end safety over bytes |
| Discovery.AnnounceRoundTripIff | src/discovery.cpp:93-187 | An announce decodes to what was announced if and only if no count, length or number was truncated |
| Discovery.DecodedReencodes | src/discovery.cpp:125-187 | Encoding a decoded announce again gives exactly the consumed bytes of the body |
| Discovery.AnnounceIsLocal | src/discovery.cpp:125-132 | Decoding never looks past the declared body |
| Discovery.QosRoundTrip | src/qos.cpp:106-132 | QoS decodes to what was encoded |
| Discovery.QosReencoded | src/qos.cpp:106-132 | Any 32 bytes are the encoding of the QoS they decode to |
| Discovery.QosLayout | src/qos.cpp:106-116 | Four one-byte policies, the depth in four bytes and the three durations in eight each, big-endian |
| Discovery.EndpointLayout | src/discovery.cpp:108-118 | Where every field of an announced endpoint lies |
| Discovery.AnnounceLayout | src/discovery.cpp:93-123 | Where the participant id, the seq, the two counts and the two lists lie in an announce body |
| Discovery.EncodeAnnounce | src/discovery.cpp:93-123 | Appending field by field gives the nested layout |
| Discovery.ReadAnnounce | src/discovery.cpp:125-187 | The cursor and its loops compute the decoding, failures included |
| Discovery.Cursor.Number | src/discovery.cpp:50-67 | The cursor reads a big-endian number or fails in place |
| Announces.LatestWins | src/participant.cpp:739-777 | After any announces the table holds the first-received one of highest seq |
| Announces.SetDetermined | src/participant.cpp:739-777 | If announces of highest seq agree, the table depends only on the set received |
| Announces.OrderDecides | src/participant.cpp:743-745 | If they do not, another order of the same set leaves another table |
| Matching.UnchangedIff | src/participant.cpp:748-781 | An announce accepted without a change leaves the counts right exactly when its list has as many matches as the stored one for every local endpoint |
| Matching.CountsAreFresh | src/participant.cpp:444-504 | After any operations every stored count equals a fresh count, provided an endpoint is only ever announced with its own QoS |
| Matching.ChangedQosGoesUncounted | include/mdds/discovery.hpp:51-55 | Without that proviso a BEST_EFFORT writer's stored count of readers goes stale |
| Matching.NewReadersIff | src/participant.cpp:753-770 | History is replayed to exactly the announced readers not in the stored snapshot |
| Matching.MatchSides | src/qos.cpp:134-165 | The two sides of a match, local or announced, agree on topic, type and durability; they differ only where a RELIABLE reader counts a BEST_EFFORT writer that does not count it |
| Matching.AnnounceRecounts | src/participant.cpp:740-786 | A stale announce changes nothing; a newer one recounts exactly unless it repeats the nodes and every endpoint's guid, kind, topic and type in order |
| Matching.EndpointsFollow | src/participant.cpp:444-504 | The endpoint tables hold exactly what was added and not dropped since, last value wins; only announces and peer-downs touch the remote table |
| Matching.PeerDownForgets | src/participant.cpp:660-680 | After a peer-down the table holds exactly the participants heard through other peers, and the counts are fresh |
| Matching.Participant.RecomputeMatches | src/participant.cpp:1206-1253 | The nested loops store a fresh count in every endpoint |
| Matching.Participant.HandleAnnounce | src/participant.cpp:729-783 | Stale, unchanged and changed announces, in place |
| Matching.Participant.HandlePeerDown | src/participant.cpp:660-680 | Exactly the peer's participants go, and counts follow |
| SendLanes.SharedBudget | src/send_lane.hpp:78-88 | `used` is exactly what is queued, and with the checked and uncommitted pushes exceeds the limit by at most one frame for each lane but one; a single lane never exceeds it |
| SendLanes.SharedBudgetIsTight | src/send_lane.hpp:78-88 | For any number of lanes and any frame length some run reaches that bound |
| SendLanes.LaneConservation | src/send_lane.hpp:75-157 | Accepted frames are, in push order, sunk, in hand, discarded and queued; bytes are the queued size and within the limit; after the exit nothing is left, and the sink got everything if and only if the worker never began to discard |
| SendLanes.DrainDelivers | src/send_lane.hpp:95-107 | A draining stop not overridden before the exit hands every accepted frame to the sink, also after an earlier stop without draining, as long as the worker had not begun to discard |
| SendLanes.DrainingStopDelivers | src/send_lane.hpp:95-107 | From the stop itself: after stop(true) on a lane at rest, not followed by stop(false), everything accepted is sunk and nothing discarded by the worker's exit |
| SendLanes.CuttingStopDiscards | src/send_lane.hpp:142-148 | From the stop itself: after stop(false), not followed by stop(true), the sink gets at most the frame in hand, and what was queued has been discarded, in order, by the exit |
| SendLanes.StopTerminates | src/send_lane.hpp:95-107 | After a stop nothing is accepted, the worker exits after a bounded number of its own steps whatever others do, and the exited lane stays as it is |
| SendLanes.SendLane.CheckPush | src/send_lane.hpp:77-84 | Reject and count, or go on |
| SendLanes.SendLane.CommitPush | src/send_lane.hpp:86-88 | Queue the frame and charge both budgets |
| SendLanes.SendLane.Push | src/send_lane.hpp:75-93 | Undisturbed, a push is accepted exactly when both budgets allow it |
| SendLanes.SendLane.NextFrame | src/send_lane.hpp:132-152 | Exit, discard everything and exit, or pop one frame, releasing what leaves the queue |

## Left out

- Entitlement.LeakPossibleIff: the readers' durability is VOLATILE or TRANSIENT_LOCAL, the values that endpoint creation lets through, and at least one GUID is left for a writer.
- Guarantees.EndToEnd: claims nothing about seq order; the code queues in arrival order.
- Healing.RoundHeals: the answer's frames arrive undisturbed by other traffic to the pair, and the transport takes at least one byte of payload in a fragment; `Delivery.AnswerDelivers` admits other traffic.
- Fragments.Reassembler.Add: excludes one case, a direct call whose 32-bit sum `frag_offset + data_len` wraps to at most the total, so that the range test is not exact; decoded fragments never do (`Fragments.DecodedIsInRange`), and `Fragments.RangeTestExactIff` says exactly when it happens.
- Handlers.Domain.DeliverSample: the handlers' state is one value holding all participants, updated in place by one object; references from a participant to its writers and readers, hence aliasing, are not modelled. `Handlers.Domain.SendTargets` scans the readers the writer knows of, not the announced snapshots of each participant; `handle_acknack` is `Writers.Writer.AnswerNack` plus the sending, and `handle_gap` is `Readers.Reader.ApplyGap`.
- Frames.FrameRoundTrip: the data-plane decoders, straight-line code writing out-parameters, are functions returning an option; a partly written out-parameter after a failure is not modelled.
- Window.Enqueue: seqs are unbounded; a step that would bring a seq, a publication time or a payload to the end of its wire width is not taken, so wrap-around near 2^64 is not modelled.
- Writers.Publish: reads the clock in the same step that claims the seq; in the code the clock is read before the lock, so two threads writing through one writer may publish with decreasing times, and the partition and GAP results do not cover that.
- Destroying an endpoint or a participant: in the protocol it just takes no further steps.
- Discovery inside the protocol: whether an endpoint is known is free at every step, so the tables of Announces and Matching are not tied to Systems.
- Liveliness, deadlines, callbacks, condition variables and the announce thread; a locked region is one step.
- Null pointers and allocation failures; `memcpy` is a splice of sequences.
- The UDP and DSoftBus transports and peer ids: a frame reaches the participant it is sent to, or does not.
- QoS presets, QoS validation and GUID printing and generation: each is read off one body. GUIDs are unique.
