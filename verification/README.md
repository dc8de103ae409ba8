# Verified models of the virtual gamepad helpers and checkers

This project models nine pieces of the repository in Dafny and proves what they are relied on
for. Each module is one piece, or one part of it:

- `AclText`, `AclGrant`, `HostHelper`, `JournalFile`: the host helper that lends a user temporary
  access to a device node. The ACL parser and printer, the rewriter that changes one user's
  access, the write-ahead lease machine over a journal and a node, and the steps by which the
  journal file is replaced. Others may change the node before any operation, loading a module may
  register another node, and any operation may fail before or after taking effect, which is also
  what a process that dies leaves behind.
- `EditProtocol`: the demo's UI thread and service worker, with a channel of capacity one, edit
  sequence numbers, a stop and a failure channel, and a display that both enter by `try_lock`.
  Every interleaving is a sequence of actions of a step relation.
- `Markers`, `MarkerCodec`, `CaptureVerdict`: the indexed PCM markers, the bytes that are played,
  the decoder of a capture with its arrays, and the verdict that rests on the decoder's counts.
- `PlaybackAudit`, `Refill`: the USB audio acceptance program. The online recogniser of trials,
  with the exact set of streams it accepts, and the microphone refill loop.
- `RefillDelays`, `BrokerProducer`, `BrokerFraming`, `BrokerAccounting`: the live broker client.
  The eight longest refill delays, the credit loop, the message framing over a stream cut into
  arbitrary pieces, and the double collect over counters that move while they are read.
- `Orchestrator`: the acceptance orchestrator, its samples, its obligations towards the provider,
  and the service of peers that failed.
- `CoupledLifecycle`: a controller whose HID and audio sides fail independently and end together.
- `CaptureAudit`: the one-pass run audit of the native probe and its measured window.
- `FlatTrees`, `ValueEquality`, `ObservationComparator`: flattening of measured values, the
  equality of leaves, and the comparison of two observations.

`Outcomes` holds the option and result types, `Amounts` two comparisons, `Texts` the order of
texts, and `Sorting` the stable sort that several pieces share. What the environment decides (faults, outside
changes, accepted frames, piece sizes, clock steps, provider answers) is a function that every
statement leaves arbitrary; the step relation of `EditProtocol` takes it from its actions.

Five places where a promised property holds only under a condition, which is stated exactly:

- The udev repair can be repeated after an interruption, except one between reapplying the policy
  and removing the journal. From there the next repair succeeds if and only if the node still has
  the repair identity, the policy keeps that identity when it is applied to the baseline, and the
  node has the baseline ACL or the grant (`HostHelper.Host.RepairAgain`). A concrete run under an
  ordinary policy that lets the group in ends with the journal retained
  (`HostHelper.StrandedRepair`). Under a policy that gives the node another identity, say another
  group, even an undisturbed and uninterrupted repair fails, however often it is repeated
  (`HostHelper.Host.KeepRepairing`).
- `service` can report a controller as closed because of its audio while both sides are still
  open, if the audio failure first shows between the reap and the question after it
  (`CoupledLifecycle.LateFailureLeavesBothOpen`). `CoupledLifecycle.Controller.Service` says
  exactly when, and the next reap always ends both sides. `diagnostics` has the same race: with a
  backend that is asked anew for its error, the error can be reported beside an open HID side and
  open audio (`CoupledLifecycle.LateErrorBesideOpenHid`), exactly when the failure first shows at
  that question (`CoupledLifecycle.Controller.Diagnostics`). And a call can reach an open HID side
  whose audio worker failed after the question of that same call
  (`CoupledLifecycle.EditInTheWindow`), but never later than that.
- A lease that was cleared is gone after a power loss if and only if the unlink reached the disk in
  time or the disk had no journal, since clearing does not sync the directory
  (`JournalFile.ClearThenLosePower`, `JournalFile.ClearedLeaseReturns`).
- A message whose body is longer than 256 bytes can be sent but never read back
  (`BrokerFraming.ReplyIsTheMessage`).
- The comparison requires equal types of a leaf itself, but inside a list it uses the language's
  equality. A list of one flag passes for a list of the number it stands for
  (`ValueEquality.ListsHideTypes`). What passes for a leaf is always the same value if and only if
  no flag, integer or integral decimal occurs inside the leaf
  (`ValueEquality.ExactlyMeansIdentical`, `ObservationComparator.MatchMeansIdentical`), and rules
  are as loose on both sides (`ObservationComparator.RulesMeanIdentical`).

## Model

| member | source | states |
|---|---|---|
| AclText.LineMeaning | scripts/virtualgamepad-host-helper.py:71-77 | a line is accepted as an entry if and only if it is the printed form of that entry with a decimal identity |
| AclText.ParseAcl | scripts/virtualgamepad-host-helper.py:66-82 | the loop that fills the dictionary computes the parse specification, with its errors, for every text |
| AclText.ParsedIsWellFormed | scripts/virtualgamepad-host-helper.py:75-82 | whatever is accepted has the three base entries, a mask when it is extended, and no named mask or other |
| AclText.ParseMeaning | scripts/virtualgamepad-host-helper.py:66-82 | exactly which texts are accepted and what is read: the non-empty lines are the printed entries of a well-formed ACL, each once, in any order |
| AclText.RoundTrip | scripts/virtualgamepad-host-helper.py:66-86 | parsing the printed text of any well-formed ACL gives it back |
| AclText.SameTextSameAcl | scripts/virtualgamepad-host-helper.py:85-86 | two canonical texts are equal if and only if the ACLs are, on which every comparison of the helper relies |
| AclText.SortedKeys | scripts/virtualgamepad-host-helper.py:86 | the entries are printed in ascending order, each once |
| AclText.PrintedAcl | scripts/virtualgamepad-host-helper.py:85-86 | the text of an ACL with one named user in full: the order of its lines and the letters of its kinds |
| AclGrant.GrantAcl | scripts/virtualgamepad-host-helper.py:89-100 | clamping in place and overwriting two entries computes the grant of the parsed ACL, or the parse error |
| AclGrant.GrantedEntries | scripts/virtualgamepad-host-helper.py:89-100 | every other entry keeps its effective permissions, the granted one gets effective read and write and no new execute |
| AclGrant.GrantKeepsEveryoneElse | scripts/virtualgamepad-host-helper.py:92-99 | the acl(5) access check gives every other process the same answer before and after, for any owner, groups and request |
| AclGrant.GrantGivesReadWrite | scripts/virtualgamepad-host-helper.py:97-99 | the granted user can read and write, and can execute only if that was possible before |
| AclGrant.GrantIdempotent | scripts/virtualgamepad-host-helper.py:89-100 | granting twice is granting once |
| AclGrant.GrantsCommute | scripts/virtualgamepad-host-helper.py:89-100 | grants to two users commute |
| AclGrant.GrantTextLaws | scripts/virtualgamepad-host-helper.py:89-100 | the same laws for the texts in the journal |
| HostHelper.LeaseHasBaseline | scripts/virtualgamepad-host-helper.py:259-273 | in every disciplined history a lease past preparing was journaled with the ACL read just before under its identity, and not cleared since |
| HostHelper.WriteAhead | scripts/virtualgamepad-host-helper.py:264-287 | before any ACL is written the journal durably holds the node's ACL, and only that ACL or its grant is written |
| HostHelper.ChangedFieldsMeaning | scripts/virtualgamepad-host-helper.py:215 | a field is among the changed ones if and only if that component differs; only the group is, if and only if the identities agree in everything else |
| JournalFile.Directory.WriteAndReplace | scripts/virtualgamepad-host-helper.py:176-185 | whichever step fails or is killed, both the visible journal and the one on disk are the old file or the new one, synced; nothing unsynced ever gets the journal's name |
| JournalFile.Directory.Save | scripts/virtualgamepad-host-helper.py:169-187 | the same for the whole save; success means the new text is durable and no temporary is left, and an oversized text is refused |
| JournalFile.SaveAll | scripts/virtualgamepad-host-helper.py:160-187 | after any sequence of saves, each cut short anywhere, and any power losses between them, a load sees, whole, the last text whose save reported success or one attempted later, or the first as long as none did |
| JournalFile.ClearThenLosePower | scripts/virtualgamepad-host-helper.py:189-190 | a cleared lease is gone at once, and after a power loss if and only if the unlink reached the disk or the disk had none |
| JournalFile.ClearedLeaseReturns | scripts/virtualgamepad-host-helper.py:189-190 | a lease saved and cleared with success that is back after a power loss |
| HostHelper.Host.PrepareModule | scripts/virtualgamepad-host-helper.py:117-129 | a module that was missing registers the node anew, and the node as it was registered is what a restore must bring back |
| HostHelper.Host.Matches | scripts/virtualgamepad-host-helper.py:267 | a positive answer means that identity and ACL were the last two things read, and nothing else was done |
| HostHelper.Host.ExecuteGrant | scripts/virtualgamepad-host-helper.py:254-274 | disciplined under any interference and faults, crash safe without interference relative to the node after the module load; a grant on any lease only reads; when undisturbed it succeeds if and only if it is admissible, with the exact reply, node and journal |
| HostHelper.Host.ExecuteRestore | scripts/virtualgamepad-host-helper.py:275-290 | the same for restoring, which leaves the baseline and no journal, or a refused lease untouched, and answers whether there was anything to restore |
| HostHelper.Host.ReadLeased | scripts/virtualgamepad-host-helper.py:280-284 | accepts exactly the leased identity with the baseline or the grant, both just read |
| HostHelper.Host.RecoverUdev | scripts/virtualgamepad-host-helper.py:205-232 | the repair of a first-registration race ends in one of three stated states wherever it is cut short; undisturbed it applies the policy to the baseline if and only if the recovery is admissible, which for a prepared lease means the leased identity in every component but the group and the grant on the node |
| HostHelper.Host.EnterRepair | scripts/virtualgamepad-host-helper.py:214-219 | the phase moves to reconciling only for a node that differs from the lease in its group alone and carries the grant, with the repair identity just read |
| HostHelper.Host.BeginRepair | scripts/virtualgamepad-host-helper.py:208-223 | the checks before any write: succeeds undisturbed if and only if the recovery is admissible, and refuses every restorable lease |
| HostHelper.Host.FinishRepair | scripts/virtualgamepad-host-helper.py:222-232 | the grant is removed before the policy is reapplied, and the journal is cleared only after the identity was read again |
| HostHelper.Host.ReportStatus | scripts/virtualgamepad-host-helper.py:243-253 | status only reads, answers the phase, and sees the node if and only if the lease is past preparing and both reads succeed; then it reports the true differences |
| HostHelper.Host.Execute | scripts/virtualgamepad-host-helper.py:235-290 | every action keeps the discipline under arbitrary interference and faults and the crash invariant without interference, and leaves a rejected lease and its node alone; a status report and a grant on an existing lease only read; undisturbed each action does exactly what is stated for it, for every usable lease, and answers accordingly |
| HostHelper.Host.RunActions | scripts/virtualgamepad-host-helper.py:235-290 | the same for any sequence of actions, each possibly cut short |
| HostHelper.Host.RunThenRestore | scripts/virtualgamepad-host-helper.py:235-290 | after any such sequence one undisturbed restore leaves no journal and the node as it was found, or as the last module load registered it |
| HostHelper.Host.RepairAgain | scripts/virtualgamepad-host-helper.py:205-232 | after the policy was reapplied, a repetition succeeds if and only if the node has the repair identity with the baseline or the grant and the policy keeps that identity; otherwise the journal stays |
| HostHelper.Host.KeepRepairing | scripts/virtualgamepad-host-helper.py:228-230 | under a policy that changes the node's identity every repair of a race fails and the journal stays, however often it is repeated |
| HostHelper.StrandedRepair | scripts/virtualgamepad-host-helper.py:222-232 | a concrete race, policy and interruption after which the repetition fails with the journal retained |
| EditProtocol.EditProgress.Observe | demo/src/gui.rs:943-949 | progress is adopted only when it covers every submitted batch |
| EditProtocol.EditProgress.Submit | demo/src/gui.rs:950-970 | the exact outcome, progress and channel content for every state, including exhaustion and a full or closed channel |
| EditProtocol.ServicedController.Apply | demo/src/gui.rs:1159-1167 | a batch is committed whole or not at all, and stops at the first rejected edit |
| EditProtocol.LogDisplay.Publish | demo/src/gui.rs:1200-1205 | the newest 200 lines stay, in order |
| EditProtocol.StepKeepsConsistent | demo/src/gui.rs:1245-1302 | every step of either thread keeps the protocol invariant |
| EditProtocol.EveryRunIsConsistent | demo/src/gui.rs:1245-1302 | the invariant holds after every interleaving |
| EditProtocol.CommittedIsPrefix | demo/src/gui.rs:1255-1258 | committed batches are a prefix of the submitted ones, in order and once each, at most one behind |
| EditProtocol.ReadyMeansDrained | demo/src/gui.rs:940-942 | a ready UI has an empty queue, an idle worker that applied everything, and a view of exactly that |
| EditProtocol.AdoptedSnapshotIsComplete | demo/src/gui.rs:1752-1756 | a snapshot is adopted only if it shows every submitted batch and no part of another |
| EditProtocol.ViewIsWhole | demo/src/gui.rs:1752-1756 | the view never shows a half-applied batch |
| EditProtocol.QueuedBatchComesThrough | demo/src/gui.rs:1252-1294 | nothing blocks a queued batch: one worker cycle without failures and one poll make the UI ready with it shown |
| EditProtocol.RejectionIsFinal | demo/src/gui.rs:1295-1302 | after a rejected batch nothing more is submitted, applied or shown, whatever both threads do |
| EditProtocol.StopIsHonoured | demo/src/gui.rs:1246-1249 | once a stop is due at the worker, nothing more is applied, whatever both threads do |
| EditProtocol.StopCloses | demo/src/gui.rs:1246-1249 | a stop sent while the worker waits closes the controller and drops the channel in its next two steps, whatever is queued |
| EditProtocol.StopAllowsOneBatch | demo/src/gui.rs:1245-1258 | wherever the worker is when the stop is sent, at most the batch under way is still committed |
| EditProtocol.FailureCloses | demo/src/gui.rs:1253-1302 | after any failure, of a batch, the service or the audio cycle, nothing is applied, the worker never returns to its queue, and it closes only with the failure sent |
| EditProtocol.FailingCloses | demo/src/gui.rs:1276-1306 | a failed worker reaches its end in three steps, with the failure sent and the channel dropped, even when the display is busy |
| EditProtocol.LogsAreCounted | demo/src/gui.rs:1276-1294 | every interleaving keeps the count of produced, taken, waiting and dropped lines |
| EditProtocol.LogConservation | demo/src/gui.rs:1031-1035 | produced lines are taken, waiting, in hand or omitted up to u64 saturation, and the waiting ones are the newest 200 at most, in order |
| EditProtocol.TakenIsShown | demo/src/gui.rs:1743-1745 | the UI's log holds the newest 200 of all the lines it took, in order |
| EditProtocol.LinesComeThrough | demo/src/gui.rs:1259-1285 | the lines of a service reach the UI's log after those that waited, also when the service or the audio cycle fails |
| Markers.MarkerInjective | scripts/validate-usb-audio-live.py:155-169 | a frame of two or four channels names its position |
| Markers.MonoPairInjective | scripts/validate-usb-audio-live.py:155-169 | two adjacent mono frames name their position, whichever half comes first |
| MarkerCodec.PackRoundTrip | scripts/validate-usb-audio-live.py:178-182 | unpacking the little-endian bytes of any frames gives the frames back |
| MarkerCodec.SampleBytes | scripts/validate-usb-audio-live.py:178-182 | a sample is the low and then the high byte of its two's complement |
| MarkerCodec.DecodeFrames | scripts/validate-usb-audio-live.py:190-224 | the loop over four arrays with its pending header computes what decoding is defined to mean, for every capture |
| MarkerCodec.DecodeOne | scripts/validate-usb-audio-live.py:196-223 | one frame extends the arrays, the previous index and the pending header correctly |
| MarkerCodec.DecodeCapture | scripts/validate-usb-audio-live.py:185-224 | the exact error conditions, and otherwise the decoding of the captured bytes |
| CaptureVerdict.PositionNamesMarker | scripts/validate-usb-audio-live.py:198-221 | a frame decoded as valid is the marker of the position reported |
| CaptureVerdict.PerfectIsContiguous | scripts/validate-usb-audio-live.py:185-241 | a window of valid frames without gaps is a contiguous stretch of the marker stream |
| CaptureVerdict.WindowMeaning | scripts/validate-usb-audio-live.py:185-241 | exactly which windows pass, with mono pairs across their edges and the unit before them |
| CaptureVerdict.DecodedStretch | scripts/validate-usb-audio-live.py:172-224 | a played stretch decodes to its positions without gaps, except a mono half whose partner was cut off |
| CaptureVerdict.PlayedIsDecoded | scripts/validate-usb-audio-live.py:172-194 | the bytes that are played unpack to the marker stretch |
| CaptureVerdict.CountsMeaning | scripts/validate-usb-audio-live.py:227-241 | the counts of the summary say whether the window is perfect, and then none of it is silence |
| CaptureVerdict.SummaryMeaning | scripts/validate-usb-audio-live.py:227-241 | every field of the summary against the frames of the window: the counts, the first and last unexpected frames and gaps relative to its beginning, and the positions of its first and last placed frames; exactly the windows inside the capture are summarised |
| CaptureVerdict.VerdictMeaning | scripts/validate-usb-audio-live.py:261-281 | a trial passes if and only if the commands were clean, all frames were captured and the measured window is perfect |
| CaptureVerdict.PassedTrialIsContiguous | scripts/validate-usb-audio-live.py:240-281 | a passed trial's measured samples are consecutive markers from the first source frame reported |
| PlaybackAudit.PatternAudit.Observe | examples/usb_audio_acceptance.rs:128-142 | each frame is counted under exactly one heading |
| PlaybackAudit.PatternAudit.ObserveRead | examples/usb_audio_acceptance.rs:152-176 | a read counts each of its frames once, and a discontinuity exactly when it was flagged or does not continue the last one |
| PlaybackAudit.AcceptedIsExpected | examples/usb_audio_acceptance.rs:128-142 | what is accepted from any place of a trial on is what was expected there |
| PlaybackAudit.ExpectedIsAccepted | examples/usb_audio_acceptance.rs:128-142 | what is expected from any place on is accepted |
| PlaybackAudit.AcceptanceMeaning | examples/usb_audio_acceptance.rs:307-312 | the counters accept a stream if and only if it is silence, trial, silence, and so on for all trials |
| PlaybackAudit.AuditPlayback | examples/usb_audio_acceptance.rs:103-177 | the whole audit accepts exactly those streams when delivered unbroken, and the four counts add up to the frames received |
| Refill.RefillMicrophone | examples/usb_audio_acceptance.rs:185-213 | whatever each write accepts, the device is fed the markers below submitted in order and once each, and never beyond the target; the target is reached if and only if there are markers for it and every write took something |
| Refill.RefillAll | examples/usb_audio_acceptance.rs:179-277 | over all rounds, submitted stays within the fill of the furthest host position, hence of the current one when that only advances; a round whose writes all took something ends the fill ahead of its host position or stays beyond it |
| RefillDelays.Delays.Record | scripts/validate-broker-audio-live.py:45-55 | refuses exactly the observations that go backwards and changes nothing then; otherwise keeps the eight largest entries |
| RefillDelays.Delays.HeapPushPop | scripts/validate-broker-audio-live.py:53 | adds the entry and removes the least |
| RefillDelays.Delays.Summary | scripts/validate-broker-audio-live.py:57-59 | lists the first eight of all qualifying entries in descending order |
| RefillDelays.BestWithoutRoom | scripts/validate-broker-audio-live.py:52-53 | dropping the least of nine is what the first eight of one more entry are |
| RefillDelays.LongestAreListed | scripts/validate-broker-audio-live.py:52-59 | no entry that is not listed has a longer interval than one that is, and the longest come first |
| RefillDelays.EntryMeaning | scripts/validate-broker-audio-live.py:50-55 | the entries are exactly the intervals between consecutive observations that found consumption advanced, with the round trip of the later one |
| Sorting.SortedSorts | scripts/validate-broker-audio-live.py:59 | sorting gives a listing in order of the same contents |
| Sorting.ListingIsUnique | scripts/validate-broker-audio-live.py:59 | a listing in order is determined by its contents, for the delays as for the samples |
| BrokerProducer.Producer.SendAvailable | scripts/validate-broker-audio-live.py:1147-1154 | sends the frames asked for in full blocks of 128 and one with the rest, if and only if there are markers for them and the socket takes every block attempted |
| BrokerProducer.Producer.Round | scripts/validate-broker-audio-live.py:1141-1155 | continues if and only if the credit is there, is for frames that were sent and does not go backwards, the markers exist and the socket took every block; then the producer is exactly the fill ahead of the consumption, and an impossible credit ends it before anything is sent |
| BrokerProducer.Produce | scripts/validate-broker-audio-live.py:1138-1158 | in every run the blocks are the marker stream without loss or repeat, within the fill of the accepted consumption; every reading gets its round if and only if all are acceptable, each after the one before, and the socket took every block attempted |
| BrokerFraming.ReplyIsTheMessage | scripts/validate-broker-audio-live.py:72-81 | a message is read back, consuming exactly its bytes, if and only if its body has at most 256 bytes |
| BrokerFraming.MessageBytes | scripts/validate-broker-audio-live.py:72-73 | the bytes of a message by index: size, version and tag with the low bytes first, then the body |
| BrokerFraming.TruncatedReplyFails | scripts/validate-broker-audio-live.py:66-68 | every proper prefix of a message is an error |
| BrokerFraming.Peer.Exact | scripts/validate-broker-audio-live.py:62-69 | exactly the bytes asked for, however the stream is cut, or an error |
| BrokerFraming.Peer.Reply | scripts/validate-broker-audio-live.py:76-81 | reads what the remaining bytes say, independently of the pieces |
| BrokerFraming.ReadConversation | scripts/validate-broker-audio-live.py:62-81 | repeated replies give back exactly the messages sent, and an early end of the stream gives the whole ones and then an error |
| BrokerAccounting.DoubleCollect | scripts/validate-broker-audio-live.py:127-136 | two agreeing rounds over growing counters are a snapshot of one instant |
| BrokerAccounting.Worker.Collect | scripts/validate-broker-audio-live.py:84-134 | each value is the worker's at its own moment, in the order of the messages |
| BrokerAccounting.JudgementMeaning | scripts/validate-broker-audio-live.py:136-151 | every field of an accepted report against the counters, and the exact condition of each error in its order |
| BrokerAccounting.Worker.FinalAccounting | scripts/validate-broker-audio-live.py:119-152 | every verdict about frames is the judgement of one instant during the call, and one that accepts reconciles submitted, host, completed and abandoned frames with the counters returned; it gives up only on a worker that moved, and judges a still one |
| Orchestrator.IdAt | xtask/src/lib.rs:183 | sample k is cycle k / concurrency and index k mod concurrency, in product form |
| Orchestrator.SortedSamples | xtask/src/lib.rs:183 | sorting orders the samples and neither loses nor invents one |
| Orchestrator.Settle | xtask/src/lib.rs:137-149 | a stage with a value takes exactly one reading of the clock and shows it, one with a reason takes none |
| Orchestrator.OpenSession | xtask/src/lib.rs:134-151 | a creation yields an open session with its first six stages settled, or a faithful sample of the failure; the creation is called between the readings of its two stages |
| Orchestrator.CloseSession | xtask/src/lib.rs:155-180 | an open session is closed twice, observed gone, let go, and reported faithfully; the first close is called between the readings of its two stages |
| Orchestrator.CloseCycle | xtask/src/lib.rs:155-181 | no session is left open, and each became one sample |
| Orchestrator.Run | xtask/src/lib.rs:117-193 | for any failures exactly one sample for each creation, sorted, in clock order, with the reasons and errors of its own session; every provider obligation is kept; and if time passes between any two readings, the measured stages of each sample strictly increase |
| Orchestrator.Peer.Service | xtask/src/lib.rs:68-72 | a failed peer is not called again |
| Orchestrator.ServiceAll | xtask/src/lib.rs:62-76 | however often it is serviced, a peer's errors are its first failure alone |
| CoupledLifecycle.Adapt | src/controllers.rs:121-135 | events are delivered in order and the last escaped request is the error |
| CoupledLifecycle.LeakMeaning | src/controllers.rs:125-132 | there is an ownership error if and only if a request escaped |
| CoupledLifecycle.Controller.Reap | src/controllers.rs:41-59 | always leaves the two sides coupled as far as they were seen |
| CoupledLifecycle.Controller.Edit | src/controllers.rs:278-288 | an edit reaches a HID side that has not ended only after its audio was asked in the same call and had not failed |
| CoupledLifecycle.Controller.Diagnostics | src/controllers.rs:71-82 | exactly when an audio error is reported, and that it comes with an ended HID side and closed audio except when the failure first shows at the question for the error; then exactly what is found |
| CoupledLifecycle.LateErrorBesideOpenHid | src/controllers.rs:71-82 | a run in which the error is reported beside an open HID side and open audio |
| CoupledLifecycle.Controller.Service | src/controllers.rs:83-101 | exactly when the sides have ended together afterwards, what this call delivers and which error it returns, and that a request it lets escape ends both sides in the same call |
| CoupledLifecycle.LateFailureLeavesBothOpen | src/controllers.rs:84-93 | a run in which service reports a closed controller with both sides open |
| CoupledLifecycle.EditInTheWindow | src/controllers.rs:278-288 | a run in which the worker fails after the question of the same call and the edit reaches the open HID side |
| CoupledLifecycle.RunCommands | src/controllers.rs:34-101 | over any run of calls each one that reached an open HID side had asked its audio before and seen no failure, closure is terminal, and every service call that let a request escape has ended both sides |
| CaptureAudit.BlocksByStart | examples/usb_audio_native_probe.rs:101-104 | maximal blocks and their beginnings correspond one to one |
| CaptureAudit.LongestWithOneMore | examples/usb_audio_native_probe.rs:105-107 | one more frame extends the longest and the current block as the loop does |
| CaptureAudit.AuditCapture | examples/usb_audio_native_probe.rs:87-125 | the one pass computes the number of exact, zero and other frames, of maximal blocks, of interior zeros, and the longest block, as defined |
| CaptureAudit.FullScore | examples/usb_audio_native_probe.rs:87-125 | as many exact frames as frames if and only if all are the pattern, and then in one block |
| CaptureAudit.MeasuredCapture | examples/usb_audio_native_probe.rs:129-143 | a score exists exactly when the window after the warm-up does, and a full score means that the whole window is the pattern |
| FlatTrees.Subtrees | scripts/compare-sdl3-observations.py:144-147 | the leaves below one dot-free key are exactly those of its value |
| FlatTrees.FlattenInjective | scripts/compare-sdl3-observations.py:144-147 | flattening loses nothing of a tree with dot-free keys |
| ObservationComparator.ExpectedRules | scripts/compare-sdl3-observations.py:150-165 | succeeds if and only if every rule is good and no path repeats, and indexes exactly the rules |
| ValueEquality.EqualIsSymmetric | scripts/compare-sdl3-observations.py:190-194 | the language's equality is symmetric, with numbers inside lists and entries in any order |
| ValueEquality.ListsHideTypes | scripts/compare-sdl3-observations.py:190 | a list of one flag passes the leaf test against the list of its number |
| ValueEquality.ExactlyMeansIdentical | scripts/compare-sdl3-observations.py:190-194 | the leaf test accepts only the same value if and only if no flag, integer or integral decimal occurs inside the leaf |
| ObservationComparator.CompareField | scripts/compare-sdl3-observations.py:180-198 | the inner loop lists every leaf of either side once, by ascending path, with its class, or the field once when it is skipped |
| ObservationComparator.Compare | scripts/compare-sdl3-observations.py:168-199 | the results are the failed captures and then every field's list, and the four counts of that list are those of the report |
| ObservationComparator.ComparedMeaning | scripts/compare-sdl3-observations.py:180-184 | a field is compared if and only if both sides measured it and the scenarios agree or it is one of the six that do not depend on them |
| ObservationComparator.NoUnexpectedMeaning | scripts/compare-sdl3-observations.py:168-199 | no unexpected difference if and only if both captures selected one device and passed, profile and control case are equal, and every leaf measured on both sides passes the leaf test or is cited |
| ObservationComparator.MatchMeansIdentical | scripts/compare-sdl3-observations.py:190-191 | a match is the same value, whatever the other side is, if and only if no flag, integer or integral decimal occurs inside the leaf |
| ObservationComparator.RulesMeanIdentical | scripts/compare-sdl3-observations.py:193-195 | every rule that excuses a difference cites the same two values if and only if neither has a flag, integer or integral decimal inside |
| ObservationComparator.MissingNeverMatches | scripts/compare-sdl3-observations.py:186-195 | in any list of results a match or an excused difference was measured on both sides |
| ObservationComparator.SwapKeepsCounts | scripts/compare-sdl3-observations.py:176-199 | swapping the sides and the rules changes no count |

## Left out

- The lease stores ACL values where the journal stores their canonical texts, which `AclText.SameTextSameAcl` and `AclGrant.GrantTextLaws` justify; a journal edited by hand into another spelling is not modelled.
- The helper's policy file, module and job actions, trusted path checks and the `uinput` variant; loading a module is an operation that may fail.
- The lease machine saves its journal in one operation with the outcomes that `JournalFile.Directory.Save` shows of its steps; the JSON encoding, the mode bits and the name of the temporary file.
- The journal's directory is below `/run`, which many hosts keep in memory and recreate at boot; the power losses assume a disk that keeps what was synced.
- AclText.WellFormed: admits a named entry whose identity has leading zeros, as the parser does; the access check looks a user up by the decimal text that getfacl prints.
- Failing operations stand for crashes: the helper handles no error except in the read-only status report, so both leave the same state.
- The threads of the demo are a step relation, since methods are sequential; a poisoned lock counts as busy.
- The button that clears the log the demo shows.
- Motion, deadlines, service metrics other than omitted lines, audio routing and all widgets of the demo.
- EditProtocol.QueuedBatchComesThrough: states the progress of one worker cycle without failures; fairness of the scheduler is not modelled.
- Overflow of the audit's u64 counters and of its total; the refill target's overflow is modelled.
- PlaybackAudit.AuditPlayback: the exit status of the checker and the count of dropped frames, which must be clean as well, are not part of the audit.
- Process, deadline and sleep handling of the audio programs, gap timing, and everything behind the write call except that it takes at most what it was offered.
- The heap's order inside its list: the list is kept in any order and the least entry is removed, as the heap promises.
- The header bytes of a PCM block except its first frame and count, the consumer thread, and a block that was sent only in part.
- The checks of version, operation and generation of each answer: an answer is well formed or not.
- The observations' values and the resource counts of the orchestrator, its floating-point statistics and percentiles; the clock is monotonic by construction.
- Controllers without audio, where there is nothing to couple; the deadline, readiness and typed conversions of the controller; the inner controllers.
- CoupledLifecycle.Controller.Safe: speaks of the answers of the audio side; when between two questions its worker failed is not visible to the controller.
- The bytes of the native probe's capture are frames of samples; splitting bytes into samples is modelled in `MarkerCodec`.
- The validation of an observation record and of external evidence: the comparison starts from accepted records; the values and texts in a result, of which only the path and the class are kept. Decimals are exact numbers, and a not-a-number value is not modelled.
- ValueEquality.ExactlyMeansIdentical: counts every integer as equal to a decimal, although an integer that no floating-point number represents, such as 2^53 + 1, has none; for those the condition is stricter than the language.
- The inner controllers, provider sessions, the worker and the broker are not part of this model.
