# Verified core of the ETF research workstation

The workstation accepts uploaded images for text recognition, lets a bridge client execute research jobs on a
local machine, refreshes its decision board from a scheduler, sends notices by mail, keeps a ledger of observed
market structures, and qualifies price histories. Each of these rests on a small piece of code whose promise
spans loops, crashes or whole runs. This project models those pieces in Dafny and proves the promises. Where the
code breaks one, the model keeps the code, a lemma names an input that shows it, and another lemma says when the
promise holds.

`dafny verify dfyconfig.toml` checks everything.

| files | what they cover |
|---|---|
| `Common` | what the other modules share |
| `Bytes`, `Png`, `Jpeg`, `JpegStreams`, `ImageCheck` | the structural end-of-file check of PNG, JPEG and WebP uploads |
| `Bridge`, `BridgeRuns`, `BridgeSafety`, `BridgeResubmit`, `BridgePinned`, `BridgeClaims`, `BridgeRaces`, `BridgeApproval`, `BridgePaths` | claim, execute, submit and release over durable files, with crashes and several clients |
| `Json`, `Schema`, `SchemaReading`, `SchemaMeaning`, `SchemaLoss` | the rewrite of a JSON Schema into the strict subset, and what schemas mean |
| `Settled`, `Grace`, `SlotClaims` | dependency closure, misfire coalescing and durable slot claims of the scheduler |
| `PrefixLedger`, `Revisions`, `Collisions`, `ObservedSnapshots`, `RevisionHistory` | the prefix ledger, the observed-revision records and the collision checker |
| `Mail`, `Lease`, `Throttle` | the mail-slot dispatcher, the pipeline lease and the login limiter |
| `FailureClass`, `PriceHistory` | the two dialects of a database check, and price-history qualification |

How the pieces are modelled:

- Loops and objects that change state are methods and classes, each proved against a ghost specification that
  does not follow the code: a chunk grammar for PNG, a least closed set for the scheduler, a plain event log for
  the limiter, a fold of records for the ledger. Grammars, folds and logs then carry the theorems.
- Protocols whose promise ranges over crashes and interleavings (the bridge, slot claims, the lease) are step
  systems. One step is one write, one request, one transaction boundary, or the reads behind one decision, so a
  crash or another process can come between any two of these.
- Answers of servers, services, clocks and libraries are parameters of the steps and take every value.

What the proofs found where code and promise differ:

- JPEG: after a scan the walk resumes on the marker code, not on its 0xFF (line 133), so the length field of the
  next element is not used and its body is searched for markers (`JpegStreams.ResumesInsideBody`). With several
  scans, or a segment after the only one, neither half of "accepted exactly when nothing follows the EOI" holds in
  general: a complete file may be rejected (`JpegStreams.TwoScansMayBeRejected`), and a false length in that body
  may lead past the real EOI, so that bytes after it are accepted (`JpegStreams.TrailingBytesMayBeAccepted`). What
  survives: files of one scan followed by EOI are treated exactly; any stream whose complete file is accepted is
  treated exactly for all tails; and the accepted payloads are prefix-free in every case.
- Bridge: the execution lock does not cover `claim`, so two clients on one root can send two claim identifiers with
  no clearing between them: when both read "no marker" (`BridgeRaces.TwoClientsMaySendTwoIdentifiers`), and when
  one clears the marker between the other's write and its request (`BridgeRaces.ClearedBeforeTheRequest`). The
  exact condition is that the identifier is pinned (`BridgePinned.PinnedIffNoEscape`); one client per root ensures it.
- Slot claims: when a refresh returns a partial result, `_run_guarded` commits the claim before the release
  removes it. A crash in between leaves the slot claimed although nothing succeeded
  (`SlotClaims.CrashAfterIncompleteResult`). Two overlapping schedulers can refresh one slot twice, since the
  release deletes whichever row it sees (`SlotClaims.OverlappingSchedulersMayRepeat`); this is the only way
  (`SlotClaims.RepeatsOnlyAfterRelease`), and it cannot happen with one scheduler at a time.
- Schema: dictionaries under `const` or `enum` are rewritten as if they were schemas, so a constant keeps its
  meaning exactly when that rewrite leaves it equal to itself (`SchemaLoss.ConstPreservedIff`). Dropping
  `prefixItems` or `patternProperties` tightens the keyword beside it (`SchemaLoss.PrefixIsLost`,
  `SchemaLoss.PatternIsLost`).
- Revision ledger: the dictionary of a snapshot keeps the last structure of every key before the collision maps see
  it. A collision inside one snapshot is therefore missed exactly when every cutoff that shows the key shows the
  same identity last (`ObservedSnapshots.CollisionMissedIff`).
- Mail: a dispatch takes its time before it asks for the lock. Two dispatches that take the lock in the other order
  can queue both a status and a normal notice (`Mail.LockOrderMayMix`), and so can two at the same instant exactly
  ten minutes after a slot (`Mail.EqualTimesMayMix`). `Mail.AllowedIffNoneOverdueBefore` gives the exact condition.
- Limiter: an eviction forgets failures (`Throttle.EvictionForgets`). It can loosen the limit, never tighten it, and
  `Throttle.LoginThrottle.IsLimited` says exactly when it does.

## Model

| member | source | states |
|---|---|---|
| `Png.Check` | backend/app/ocr/image_validation.py:76-91 | the walk accepts exactly the signature followed by a rendered chunk list whose only IEND is its last chunk, and answers `decode_failed` exactly when, after whole chunks other than IEND, a length runs past the end |
| `Png.RenderParse` | backend/app/ocr/image_validation.py:80-89 | parsing then printing gives back the bytes up to the end of IEND |
| `Png.ParseRender` | backend/app/ocr/image_validation.py:80-89 | printing then parsing gives back the chunk list, whatever bytes follow |
| `Png.UniqueChunks` | backend/app/ocr/image_validation.py:76-91 | the chunk list of an accepted payload is unique |
| `Png.WalkExtends` | backend/app/ocr/image_validation.py:80-91 | bytes after an accepted end do not move the end that the walk finds |
| `Png.OverrunExactly` | backend/app/ocr/image_validation.py:81-84 | the walk overruns if and only if the bytes are whole non-IEND chunks followed by a truncated one |
| `Jpeg.GenuineEoi` | backend/app/ocr/image_validation.py:96-146 | the two-mode walk terminates in range on any bytes and finds the end that the recursive reading of the stream defines |
| `Jpeg.SegmentEnd` | backend/app/ocr/image_validation.py:141-146 | a length-prefixed segment is skipped exactly when its length is at least two and it fits |
| `Jpeg.SkipFF` | backend/app/ocr/image_validation.py:102-103 | the run of fill bytes is skipped whole, and progress is made when there is one |
| `Jpeg.WalkScan` | backend/app/ocr/image_validation.py:117-134 | scan mode finds an EOI, or hands header mode the position where the scan's reading stops |
| `Jpeg.Check` | backend/app/ocr/image_validation.py:147-148 | accepted exactly when the first genuine EOI ends the payload |
| `JpegStreams.AcceptedEndsInEoi` | backend/app/ocr/image_validation.py:92-148 | an accepted payload ends in FF D9 |
| `JpegStreams.SingleScanAcceptedIffNothingFollows` | backend/app/ocr/image_validation.py:92-148 | every well-formed single-scan stream (segments, bare markers, one scan with stuffing, restarts and fill bytes, EOI) is accepted if and only if nothing follows its EOI |
| `JpegStreams.AcceptedIffNothingFollows` | backend/app/ocr/image_validation.py:92-148 | the same for any number of scans, when what follows a scan has no 0xFF in its body and is no restart marker |
| `JpegStreams.ExactIffCompleteFileAccepted` | backend/app/ocr/image_validation.py:92-148 | for any stream of any number of scans, "accepted exactly when nothing follows the EOI" holds for all tails if and only if the file that ends at its EOI is accepted |
| `JpegStreams.CompleteFileDecides` | backend/app/ocr/image_validation.py:92-148 | if the walk finds an end in the complete file, a tail is accepted only when it is empty and that end is the real one; so a tail can only be accepted where the walk finds no end in the complete file |
| `JpegStreams.ResumesInsideBody` | backend/app/ocr/image_validation.py:126-137 | after a first scan the walk goes on at the first 0xFF in the body of the next element, as if a marker began there, for every such stream and tail |
| `JpegStreams.JumpsByFalseLength` | backend/app/ocr/image_validation.py:141-146 | if a marker with a length seems to begin there, acceptance is decided exactly by the place that this length leads to: nowhere, inside the file, or past the real EOI into the tail |
| `JpegStreams.TailAcceptedAfterJump` | backend/app/ocr/image_validation.py:141-148 | in the last case every tail that supplies the missing bytes and then FF D9 is accepted |
| `JpegStreams.ScansByFalseHeader` | backend/app/ocr/image_validation.py:110-137 | if a scan header seems to begin there, the walk goes on in scan mode at the place that its length leads to |
| `JpegStreams.PassesFalseBareMarker` | backend/app/ocr/image_validation.py:138-140 | if a bare marker seems to begin there, it is passed and the rest of the body is searched on |
| `JpegStreams.BackInStep` | backend/app/ocr/image_validation.py:98-105 | if the body shows no marker, up to a run of 0xFF at its end, the walk is back in step at the next element |
| `JpegStreams.BodyHasOneOfTheShapes` | backend/app/ocr/image_validation.py:98-146 | every body has one of these shapes: no marker, or first an EOI, a scan header, a bare marker or a marker with a length |
| `JpegStreams.RejectedOnceASegmentFollows` | backend/app/ocr/image_validation.py:132-137 | a stream is rejected, with or without a tail, when the first 0xFF in the body of the element after its first scan begins an EOI marker |
| `JpegStreams.TwoScansMayBeRejected` | backend/app/ocr/image_validation.py:132-137 | there is a well-formed file of a scan, a segment and a second scan, ending at its EOI, that is rejected |
| `JpegStreams.TrailingBytesMayBeAccepted` | backend/app/ocr/image_validation.py:132-146 | there is a well-formed stream with a segment after its scan, and a nonempty tail, that are accepted together |
| `JpegStreams.WalkExtends` | backend/app/ocr/image_validation.py:98-146 | bytes after the end that the walk found do not change which end it finds |
| `JpegStreams.ScanSkipsUnits` | backend/app/ocr/image_validation.py:117-129 | scan mode passes over plain bytes, stuffed 0xFF and restart markers |
| `JpegStreams.WalkElement` | backend/app/ocr/image_validation.py:138-146 | header mode passes over a bare marker or a segment whole, whatever its body holds |
| `ImageCheck.RejectTrailingBytes` | backend/app/ocr/image_validation.py:75-152 | no error exactly for whole images of the detected format; `decode_failed` exactly for an overrunning PNG chunk, otherwise `trailing_bytes` |
| `ImageCheck.ValidateStructure` | backend/app/ocr/image_validation.py:187-190 | the detected format is returned exactly for accepted payloads, `unsupported_format` exactly for unknown signatures |
| `ImageCheck.SameMime` | backend/app/ocr/image_validation.py:65-72 | appended bytes never change the detected format |
| `ImageCheck.PrefixFree` | backend/app/ocr/image_validation.py:65-152 | an accepted payload followed by any nonempty bytes is rejected, in all three formats |
| `ImageCheck.WebpAcceptedIffNothingFollows` | backend/app/ocr/image_validation.py:149-152 | a WebP file, with its little-endian size written out byte by byte, is accepted if and only if nothing follows its chunks |
| `ImageCheck.AcceptedWebpIsFile` | backend/app/ocr/image_validation.py:149-152 | every accepted WebP payload is such a file |
| `ImageCheck.WebpBodyIsUnique` | backend/app/ocr/image_validation.py:149-152 | of one body only |
| `ImageCheck.MimeMeans` | backend/app/ocr/image_validation.py:65-72 | which first bytes give which format, byte by byte |
| `ImageCheck.SmallestPng` | backend/app/ocr/image_validation.py:76-91 | the smallest PNG, byte by byte, is accepted |
| `ImageCheck.SmallestJpeg` | backend/app/ocr/image_validation.py:92-148 | the smallest JPEG, byte by byte, is accepted |
| `ImageCheck.SmallestWebp` | backend/app/ocr/image_validation.py:149-152 | the smallest WebP, byte by byte, is accepted |
| `Bytes.ByteOrder` | backend/app/ocr/image_validation.py:81 | the lengths of PNG and JPEG are read with the most significant byte first, the size of WebP with the least |
| `Bytes.BytesInOrder` | backend/app/ocr/image_validation.py:81 | and the 32-bit lengths of the chunk grammar are written that way |
| `Bytes.TwoBytesInOrder` | backend/app/ocr/image_validation.py:113 | and so are the 16-bit lengths of segments |
| `BridgeSafety.LaunchedAtMostOnce` | bridge/etf_agent_bridge.py:197-240 | over every interleaving of clients, crashes, restarts, file faults and failed uploads the model is launched at most once per job folder |
| `BridgeSafety.LaunchInvStep` | bridge/etf_agent_bridge.py:197-240 | every step keeps the launch invariant, and no launch is forgotten |
| `BridgeSafety.ExecutionIsExclusive` | bridge/etf_agent_bridge.py:197-207 | at most one client is inside `execute_job` at a time |
| `BridgeResubmit.SoundStep` | bridge/etf_agent_bridge.py:209-295 | with no local file fault every step keeps a validated result stored and valid, and keeps clients from deciding its job again |
| `BridgeResubmit.ValidatedStays` | bridge/etf_agent_bridge.py:217-240 | a validated result is never changed or forgotten |
| `BridgeResubmit.OnlyResubmitted` | bridge/etf_agent_bridge.py:209-240 | once a stored result has validated, no later execution attempts, launches or reports failure for the job, and every result it posts is that one |
| `BridgeResubmit.PostedResultsAnswer` | bridge/etf_agent_bridge.py:276-295 | with no file fault, every result that is posted, by an execution or by hand, parses, names its job and the input of its package, and cites only evidence of that package |
| `BridgeResubmit.ValidationDecides` | bridge/etf_agent_bridge.py:231-239 | a stored result of a leased job is submitted if it is such an answer, and reported as a failure otherwise |
| `BridgeResubmit.HandSubmissionDecides` | bridge/etf_agent_bridge.py:289-292 | the submit command takes exactly the answers to leased jobs |
| `BridgeApproval.LaunchNeedsApproval` | bridge/etf_agent_bridge.py:209-216 | with no file fault, every launch follows an approved execution of the same client for the same job and the answer that the job is active |
| `BridgePaths.ClaimIsAnswered` | bridge/etf_agent_bridge.py:254-262 | a claim is sent under the identifier in the marker, which it writes when there is none |
| `BridgePaths.AnswerIsStored` | bridge/etf_agent_bridge.py:266-274 | the lease and the evidence of the answer are stored in the folder of the job, and in no other |
| `BridgePaths.ApprovedLaunch` | bridge/etf_agent_bridge.py:209-231 | an approved execution of an active job with evidence and neither result nor attempt writes the attempt and launches the model |
| `BridgePaths.UnapprovedEnds` | bridge/etf_agent_bridge.py:215-216 | without approval and without a result the execution ends with nothing changed |
| `BridgePaths.OutputIsStored` | bridge/etf_agent_bridge.py:362-371 | the output of a model that ends well is stored under its producer and then validated |
| `BridgePaths.StoredResultIsFound` | bridge/etf_agent_bridge.py:213-221 | a stored result is found again without approval and without a launch |
| `BridgePaths.AcceptedResult` | bridge/etf_agent_bridge.py:289-295 | a result that passes and is accepted leaves the folder as it is, clears the marker and releases the lock |
| `BridgePaths.RefusedResult` | bridge/etf_agent_bridge.py:289-292 | a refused post keeps the result and the marker |
| `BridgePaths.FailureIsReported` | bridge/etf_agent_bridge.py:231-239 | a result that does not pass is reported, and an accepted report clears the marker |
| `BridgePaths.NoAttemptPossible` | bridge/etf_agent_bridge.py:221-226 | a spent attempt, missing evidence or a bad budget lead to a report of failure |
| `BridgePaths.BadEndFails` | bridge/etf_agent_bridge.py:351-363 | a model that times out or ends badly leads to a report of failure |
| `BridgePaths.LaunchCalledOff` | bridge/etf_agent_bridge.py:340-346 | a launch called off after the attempt was written leads there too, and the attempt stays spent |
| `BridgePaths.FailureEnds` | bridge/etf_agent_bridge.py:185-188 | a failure is reported exactly under a lease, and an unreported or refused report changes nothing |
| `BridgePaths.HandSubmission` | bridge/etf_agent_bridge.py:289-295 | a result submitted by hand clears the marker when accepted and changes nothing when refused |
| `BridgePaths.ReleaseClears` | bridge/etf_agent_bridge.py:242-252 | the release of a closed job clears the marker that carries its lease |
| `BridgePaths.ReleaseRefused` | bridge/etf_agent_bridge.py:242-252 | the release of an open job, or of one whose lease is not in the marker, clears nothing |
| `BridgePaths.CrashKeepsFiles` | bridge/etf_agent_bridge.py:197-207 | a crash frees the lock of the client, and leaves every file and every other client as they are |
| `BridgePaths.LockIsExclusive` | bridge/etf_agent_bridge.py:197-203 | the execution lock is given exactly when nobody holds it |
| `BridgePinned.PinnedStep` | bridge/etf_agent_bridge.py:254-274 | with any number of clients, while nothing clears the marker, the claim identifier stays in it and no client is about to send another one, crashes included |
| `BridgePinned.PinnedUntilCleared` | bridge/etf_agent_bridge.py:242-295 | with any number of clients, once an identifier is pinned (in the marker, and no client carries another one), a request under another one comes only after a clearing of the marker |
| `BridgePinned.PinnedIffNoEscape` | bridge/etf_agent_bridge.py:242-295 | with any number of clients, a request under another identifier is impossible without a clearing of the marker, in every run, if and only if the identifier is pinned |
| `BridgeClaims.RequestPins` | bridge/etf_agent_bridge.py:254-262 | with one client per root, every claim request pins its identifier |
| `BridgeClaims.ReleaseUnlinksWhatItCompared` | bridge/etf_agent_bridge.py:242-252 | with one client per root, a release unlinks the very marker whose claim identifier it found in the lease of the closed job |
| `BridgeClaims.AllowedStep` | bridge/etf_agent_bridge.py:185-188 | a client reaches the clearing of the marker only through a no-job answer, an accepted result, an accepted failure report or a closed job |
| `BridgeClaims.NewIdentifierOnlyAfterClearing` | bridge/etf_agent_bridge.py:242-295 | with one client per root, two claim requests with different identifiers are separated by a clearing of the marker, which an answer of the server since the first request allowed |
| `BridgeRaces.TwoClientsMaySendTwoIdentifiers` | bridge/etf_agent_bridge.py:254-262 | with two clients that both read "no marker" there is a run that sends two identifiers with no clearing between |
| `BridgeRaces.ClearedBeforeTheRequest` | bridge/etf_agent_bridge.py:254-265 | there is another such run without that race: one client clears the marker after the other has written it and before it sends its request |
| `Schema.SanitizeOneNode` | backend/app/analysis/adapters.py:62-80 | the loop that fills `clean`, and the closing step, build the rewritten node |
| `Schema.GetNode` | backend/app/analysis/adapters.py:62-80 | the value of every keyword of a rewritten node, by keyword: kept, rewritten, set by closing, or dropped |
| `Schema.ObjectNodeIsClosed` | backend/app/analysis/adapters.py:72-79 | a node with the type `object` or with properties requires exactly its properties after the rewrite and forbids others, and no other node becomes an object node |
| `Schema.RewriteIsStrict` | backend/app/analysis/adapters.py:57-80 | at every depth of every rewritten schema only supported keywords remain and every object node is closed |
| `Schema.Idempotent` | backend/app/analysis/adapters.py:57-80 | rewriting twice equals rewriting once, as Python compares dictionaries |
| `SchemaMeaning.RewriteCharacterised` | backend/app/analysis/adapters.py:54-84 | an instance is valid for the rewritten schema if and only if it satisfies every supported keyword of the original (at object nodes the type is `object` instead) and has exactly the declared properties at every object |
| `SchemaMeaning.MeaningPreserved` | backend/app/analysis/adapters.py:54-84 | an instance valid for the original with exactly the declared properties at every object is valid for the rewritten schema |
| `SchemaMeaning.SupportedKeepsMeaning` | backend/app/analysis/adapters.py:31-33 | a schema of the nine supported keywords only, at every depth, keeps its exact meaning in both directions |
| `SchemaMeaning.RewriteMeans` | backend/app/analysis/adapters.py:57-80 | the same equivalence at every nesting depth and inside `$defs` |
| `SchemaMeaning.ClosedMeansExactly` | backend/app/analysis/adapters.py:72-79 | `required`, `properties` and `additionalProperties` of a closed node together say "exactly these members" |
| `SchemaLoss.ConstPreservedIff` | backend/app/analysis/adapters.py:70-71 | a `const` schema keeps its instances if and only if the rewrite leaves the constant equal to itself |
| `SchemaLoss.EnumPreservedIff` | backend/app/analysis/adapters.py:70-71 | an `enum` schema keeps its instances if and only if every value equals what the rewrite makes of some value |
| `SchemaLoss.PrefixPreservedIff` | backend/app/analysis/adapters.py:31-33 | dropping `prefixItems` beside a closed `items` keeps the instances if and only if `prefixItems` accepts no nonempty array that it covers completely |
| `SchemaLoss.PatternPreservedIff` | backend/app/analysis/adapters.py:31-33 | dropping `patternProperties` beside a closed `additionalProperties` keeps the instances if and only if `patternProperties` accepts no nonempty object whose names all match |
| `SchemaLoss.DictionaryConstantsAreLost` | backend/app/analysis/adapters.py:70-71 | a one-member dictionary under `const` with an unsupported name is valid before the rewrite and not after it |
| `SchemaLoss.PrefixIsLost` | backend/app/analysis/adapters.py:31-33 | so every one-element array is lost when only a first element was allowed |
| `SchemaLoss.PatternIsLost` | backend/app/analysis/adapters.py:31-33 | so every object with one matching name is lost |
| `Settled.SettledPipelineTasks` | backend/app/scheduler.py:186-206 | nothing between 9:15 and 15:15; otherwise the loop terminates with the least set above the initially due tasks closed under "depends on a due task", listed in map order |
| `Settled.DueIffReaches` | backend/app/scheduler.py:196-205 | a task is in that set if and only if a chain of dependencies leads from it to an initially due task |
| `Settled.OrderIndependent` | backend/app/scheduler.py:196-205 | the set does not depend on the order of the map |
| `Settled.ListedAfterNeeds` | backend/app/scheduler.py:206 | with a topological map every listed task follows all of its due dependencies |
| `Settled.DailyMapIsTopological` | backend/app/scheduler.py:175-183 | the daily map is topological |
| `Grace.DueSlotWithGrace` | backend/app/scheduler.py:74-105 | on a weekday trade day the latest open slot is returned, or none when no slot is open; on other days none |
| `Grace.NeverBackwards` | backend/app/scheduler.py:95-105 | later ticks never return earlier slots |
| `Grace.NoSlotLost` | backend/app/scheduler.py:74-105 | with ticks no further apart than the grace period, every slot before the last tick is returned by a tick within its grace, or superseded by a later slot returned there |
| `Grace.NoBoardSlotLost` | backend/app/scheduler.py:28 | the same for the board's own slots with ticks at most three minutes apart |
| `SlotClaims.SlotSession.SlotSection` | backend/app/scheduler.py:298-313 | after the whole slot part exactly the keys refreshed successfully have been added to the committed claims |
| `SlotClaims.SectionIsRun` | backend/app/scheduler.py:298-313 | from a clean session the steps Claim, Run and, after a failure, Release and CommitRelease give exactly the claims that `SlotSection` promises, and touch no other session |
| `SlotClaims.SafeStep` | backend/app/scheduler.py:108-171 | with any number of schedulers, every step keeps each key uncommitted in at most one session, and never both there and committed |
| `SlotClaims.ClaimedIffOutstanding` | backend/app/scheduler.py:108-171 | over every interleaving of schedulers, a slot is claimed if and only if a success or an incomplete result of it has been committed and no committed release has deleted the row since |
| `SlotClaims.RepeatsOnlyAfterRelease` | backend/app/scheduler.py:290-313 | with any number of schedulers, two successful refreshes of one slot are separated by a committed release that deletes its row |
| `SlotClaims.LastWithoutRelease` | backend/app/scheduler.py:290-313 | with no committed release of the slot after a success, that success is its last |
| `SlotClaims.RefreshableIffNotOutstanding` | backend/app/scheduler.py:108-120 | an idle scheduler that finds the slot unheld can refresh it successfully if and only if no committed claim of it is outstanding |
| `SlotClaims.FreedSlotMayRepeat` | backend/app/scheduler.py:308-313 | a release that deletes a committed claim lets any idle scheduler refresh the slot at once |
| `SlotClaims.FailedSlotIsFreeUnlessTaken` | backend/app/scheduler.py:308-313 | when a failed tick commits its release the slot is free, except exactly when the release had found no row and another scheduler has committed a claim since |
| `SlotClaims.UncaughtSlotIsFree` | backend/app/scheduler.py:132-171 | an attempt that ends in an uncaught error leaves the slot free, with any number of schedulers |
| `SlotClaims.SucceedsAtMostOnce` | backend/app/scheduler.py:290-313 | with one scheduler at a time, over every run of ticks, failures, stops, uncaught errors and restarts a slot has at most one refresh that succeeded and committed |
| `SlotClaims.FailedSlotIsFree` | backend/app/scheduler.py:308-313 | with one scheduler at a time, a slot whose attempt failed is unclaimed again when its tick finishes the slot part |
| `SlotClaims.InterruptedSlot` | backend/app/scheduler.py:290-313 | with any number of schedulers, a crash leaves a slot claimed if and only if a committed claim is outstanding, and takes the crashed session's own claim back |
| `SlotClaims.InterruptedAlone` | backend/app/scheduler.py:156-162 | with one scheduler at a time, a crash leaves a slot claimed if and only if an incomplete result had been committed and its release had not |
| `SlotClaims.CrashAfterIncompleteResult` | backend/app/scheduler.py:157-162 | such a crash loses the slot: claimed, and never refreshed |
| `SlotClaims.OverlappingSchedulersMayRepeat` | backend/app/scheduler.py:308-313 | two overlapping schedulers can both commit a successful refresh of one slot |
| `PrefixLedger.AnnotatePrefixLedger` | scripts/validate_r4c_m1_r4_causal.py:237-288 | the two passes annotate every prefix: least first-seen prefix, last-seen prefix, changed and removed flags against the previous prefix |
| `PrefixLedger.FirstSeen` | scripts/validate_r4c_m1_r4_causal.py:259-267 | the search returns the least successful prefix that shows the identity |
| `PrefixLedger.LedgerIsCausal` | scripts/validate_r4c_m1_r4_causal.py:237-288 | the ledger of any extension agrees with the ledger of the shorter history on all its prefixes |
| `PrefixLedger.FirstSeenNeverChanges` | scripts/validate_r4c_m1_r4_causal.py:256-267 | an identity has one first-seen prefix, in every prefix and every extension that shows it |
| `PrefixLedger.LedgerShowsSnapshots` | scripts/validate_r4c_m1_r4_causal.py:237-288 | the annotated ledger that the history reads shows exactly the structures that the engine gave for each prefix |
| `PrefixLedger.NoteMeans` | scripts/validate_r4c_m1_r4_causal.py:256-273 | what each note says, in terms of the snapshots alone: least prefix from 20 rows on with the same kind and identifier, and changed exactly when the last structure of the previous prefix with that identifier has another geometry |
| `PrefixLedger.RemovedMeans` | scripts/validate_r4c_m1_r4_causal.py:275-281 | an identifier is noted as removed if and only if the previous prefix shows it and this one does not |
| `Revisions.ReplayRecords` | scripts/validate_r4c_m1_r5_revision_ids.py:141-191 | replaying the records of a cutoff turns the previous key-to-hash map into the current one |
| `Revisions.ReplayHistory` | scripts/validate_r4c_m1_r5_revision_ids.py:124-192 | replaying all records from nothing rebuilds the last snapshot |
| `Revisions.ReplayEverySnapshot` | scripts/validate_r4c_m1_r5_revision_ids.py:124-192 | replaying the records of the whole history up to the end of any cutoff rebuilds that cutoff's snapshot |
| `Revisions.ExactlyOneRecord` | scripts/validate_r4c_m1_r5_revision_ids.py:141-183 | each key of the previous or current snapshot gets exactly one record per cutoff, no other key any |
| `Revisions.RecordMeans` | scripts/validate_r4c_m1_r5_revision_ids.py:141-183 | the record of a key is NEW iff the previous snapshot lacks it, ABSENT iff the current one does, UNCHANGED iff both have it with one payload hash, CHANGED iff with two; and it carries the current hash and revision, or the prior revision when absent |
| `Revisions.Conservation` | scripts/validate_r4c_m1_r5_revision_ids.py:147-192 | NEW minus ABSENT equals the size of the last snapshot; NEW equals distinct keys seen plus reappearances |
| `Revisions.KeptAndAltered` | scripts/validate_r4c_m1_r5_revision_ids.py:147-192 | over the run, UNCHANGED counts the structures that kept their payload from one snapshot to the next, and CHANGED those that did not |
| `Revisions.HistoryExtends` | scripts/validate_r4c_m1_r5_revision_ids.py:124-192 | the records of a shorter series are an exact prefix of those of any extension |
| `RevisionHistory.BuildHistory` | scripts/validate_r4c_m1_r5_revision_ids.py:112-211 | the pass over the annotated ledger yields the records, transition counts, reappearances, observation ledger and three collision counts that the series of snapshots defines |
| `RevisionHistory.RecordPresent` | scripts/validate_r4c_m1_r5_revision_ids.py:141-169 | one record per current structure with its status; counters and reappearances move accordingly |
| `RevisionHistory.RecordGone` | scripts/validate_r4c_m1_r5_revision_ids.py:171-183 | one ABSENT record with its prior revision per structure that disappeared |
| `RevisionHistory.ReportedTotals` | scripts/validate_r4c_m1_r5_revision_ids.py:199-211 | the four reported totals obey the counting laws, and the reported records replay to the last snapshot |
| `RevisionHistory.LinesMean` | scripts/validate_r4c_m1_r5_revision_ids.py:134-140 | the observation ledger has one line per cutoff, with its observation and the number of its structures |
| `RevisionHistory.RecordsAreCausal` | scripts/validate_r4c_m1_r5_revision_ids.py:124-192 | records built from rows are an exact prefix of those built from any extension of the rows |
| `Collisions.CollisionCount` | scripts/validate_r4c_m1_r5_revision_ids.py:35-36 | the count is the number of identifiers with more than one preimage |
| `Collisions.CountedIff` | scripts/validate_r4c_m1_r5_revision_ids.py:35-36 | an identifier is counted if and only if it was added with two different preimages |
| `Collisions.NoCollisionMeans` | scripts/validate_r4c_m1_r5_revision_ids.py:35-36 | the count is zero if and only if no identifier was added with two different preimages |
| `ObservedSnapshots.KeptIsLast` | scripts/validate_r4c_m1_r5_revision_ids.py:126-130 | the dictionary of a snapshot keeps exactly the last structure of every key |
| `ObservedSnapshots.KeptInOrder` | scripts/validate_r4c_m1_r5_revision_ids.py:126-130 | in the order in which the keys first occur |
| `ObservedSnapshots.ViewShowsLast` | scripts/validate_r4c_m1_r5_revision_ids.py:131-191 | what is recorded at a cutoff: for every key the last structure that has it, with the digests of its payload and of its revision under that cutoff's observation |
| `ObservedSnapshots.StructureCountedIff` | scripts/validate_r4c_m1_r5_revision_ids.py:124-142 | over the whole run, a structure key is counted if and only if two cutoffs keep different identities for it |
| `ObservedSnapshots.CollisionMissedIff` | scripts/validate_r4c_m1_r5_revision_ids.py:124-142 | a collision inside one snapshot is missed if and only if every cutoff that shows the key shows the same identity last |
| `ObservedSnapshots.OrderDecides` | scripts/validate_r4c_m1_r5_revision_ids.py:126-142 | one and the same collision is missed when two cutoffs show the structures in one order, and counted when they show them in two orders |
| `ObservedSnapshots.SingleCutoffCountsNone` | scripts/validate_r4c_m1_r5_revision_ids.py:124-142 | with a single cutoff no structure collision is ever counted |
| `ObservedSnapshots.ObservationCountedIff` | scripts/validate_r4c_m1_r5_revision_ids.py:131-133 | an observation identifier is counted if and only if two cutoffs have it |
| `ObservedSnapshots.RevisionCountedIff` | scripts/validate_r4c_m1_r5_revision_ids.py:143-145 | a revision identifier is counted if and only if two different revisions of the history have it |
| `Mail.Dispatcher.Run` | scripts/run_local_notifications.py:105-144 | a dispatch queues exactly the notices its rounds decide, reports each once, and none that was queued before |
| `Mail.OnlyAllowedNotices` | scripts/run_local_notifications.py:105-144 | when times never go back in lock order and no two dispatches fall on the instant ten minutes after the slot, for any arrivals and interruptions, a slot before 18:00 has a single normal notice or a subset of status and late; 18:00 a subset of status and end-of-day |
| `Mail.AllowedIffNoneOverdueBefore` | scripts/run_local_notifications.py:105-144 | for any order of times, arrivals and interruptions, the promise for a slot before 18:00 holds if and only if no dispatch gets to the slot overdue (a digest after ten minutes, or none from then on) before one that finds a digest in time |
| `Mail.AllowedIffNotMixed` | scripts/run_local_notifications.py:105-144 | when times never go back in lock order, it fails if and only if two dispatches fall on the instant ten minutes after the slot, the first finds no digest with none found in time before, and the second finds one |
| `Mail.NoticesExplained` | scripts/run_local_notifications.py:105-144 | for any order of times, each notice of a slot is queued exactly when some dispatch calls for it: normal from a digest in time, late from a digest after that, status from a miss, the last two with no digest in time before |
| `Mail.DispatchQueues` | scripts/run_local_notifications.py:106-144 | exactly what one dispatch adds for a slot, in terms of what it finds and when, whatever its other rounds do |
| `Mail.DispatchQueuesEod` | scripts/run_local_notifications.py:106-144 | exactly what one dispatch adds for 18:00: the end-of-day notice from a digest, a status notice from a miss, nothing after the end-of-day notice |
| `Mail.EndOfDayNotices` | scripts/run_local_notifications.py:105-144 | for any order of times, 18:00 has its end-of-day notice exactly when some dispatch finds a digest from 18:00 on, a status notice exactly when one finds none with no digest found before, and no other notice |
| `Mail.MailSlotsKept` | scripts/run_local_notifications.py:76 | the mail slots obey the promise when times strictly increase in lock order |
| `Mail.NothingAfterBase` | scripts/run_local_notifications.py:110-112 | after a normal or end-of-day notice nothing more is queued for its slot |
| `Mail.EqualTimesMayMix` | scripts/run_local_notifications.py:123-136 | at one instant, ten minutes after a slot, two dispatches can queue a status and a normal notice |
| `Mail.LockOrderMayMix` | scripts/run_local_notifications.py:102-144 | a dispatch just after the limit without data, then one with an earlier time and a digest, queue a status and a normal notice |
| `Mail.DecisionsByTheClock` | scripts/run_local_notifications.py:106-138 | the decisions for 11:40 and 18:00 at the microseconds where they change |
| `Lease.Engine.PipelineLease` | backend/app/db/task_lock.py:60-86 | the reply and the new state in every case: no database, held already, busy, a failing begin, granted |
| `Lease.InvStep` | backend/app/db/task_lock.py:60-86 | every operation of every session keeps leases, locks and transactions consistent |
| `Lease.LeaseIsExclusive` | backend/app/db/task_lock.py:60-86 | over every sequence of operations at most one session holds the lease of a database, and it is inside a transaction |
| `Lease.GrantedExactlyWhenFree` | backend/app/db/task_lock.py:60-68 | a request is refused if and only if another session holds the lease of that database |
| `Lease.ReleasedExactlyAtTheEnd` | backend/app/db/task_lock.py:70-86 | ending a savepoint never releases the lease; ending the outermost transaction always does, and frees no other lock |
| `Lease.FreeDatabaseIsLeased` | backend/app/db/task_lock.py:60-86 | a free database is leased to the session that asks: afterwards it holds the lease and the lock, inside a transaction |
| `Lease.RepliesMean` | backend/app/db/task_lock.py:60-86 | no lease exactly without a database file, leased exactly when the session holds the lease afterwards; any other reply leaves all leases and locks as they were |
| `Lease.OthersUntouched` | backend/app/db/task_lock.py:60-86 | no operation of a session touches another session |
| `Lease.SavepointRoundTrip` | backend/app/db/task_lock.py:70-75 | a savepoint opens one transaction more, and ending it undoes that; neither touches a lock |
| `Lease.CrashFrees` | backend/app/db/task_lock.py:47-57 | a crash ends the session and frees its lock, and no other |
| `Lease.OpenedSession` | backend/app/db/task_lock.py:60-66 | a new session has its database, no transaction and no lease |
| `Throttle.LoginThrottle.IsLimited` | backend/app/core/security.py:102-108 | limits a key exactly when its failures since its last success or eviction, inside the window, reach the maximum; so never a key that the plain event log would not limit, and it differs from the log exactly when the evicted failures are needed to reach the maximum |
| `Throttle.LoginThrottle.RecordFailure` | backend/app/core/security.py:110-116 | the log grows by one failure, at most `max_entries` keys are tracked, and only the oldest key can be evicted, only when a new key finds the table full |
| `Throttle.LoginThrottle.RecordSuccess` | backend/app/core/security.py:118-119 | the key and its failures are forgotten, and an earlier eviction of it no longer matters |
| `Throttle.DiscardExpired` | backend/app/core/security.py:124-126 | the loop pops exactly the leading expired times |
| `Throttle.TrimIsRecent` | backend/app/core/security.py:124-126 | on ordered times popping from the left leaves exactly the times inside the window |
| `Throttle.TrimCount` | backend/app/core/security.py:102-108 | the trimmed deque never counts more than the log, and counts the same when nothing was evicted |
| `Throttle.FailureLogged` | backend/app/core/security.py:110-116 | after a failure the deques still stand for the log |
| `Throttle.EvictionForgets` | backend/app/core/security.py:112-113 | with one tracked key, an eviction lets a key through that the log limits |
| `Throttle.WindowIsHalfOpen` | backend/app/core/security.py:124-126 | a failure counts until, and not at, the end of its window |
| `FailureClass.SqliteIsWellFormed` | backend/alembic/versions/9f1c2b3a4d5e_multi_model_analysis.py:31-39 | the five GLOB tests and the length test accept exactly the well-formed dotted identifiers of at most 128 characters |
| `FailureClass.PostgresIsWellFormed` | backend/alembic/versions/9f1c2b3a4d5e_multi_model_analysis.py:40-41 | the regular expression accepts exactly the well-formed dotted identifiers |
| `FailureClass.DialectsAgree` | backend/alembic/versions/9f1c2b3a4d5e_multi_model_analysis.py:29-44 | SQLite accepts a string if and only if it has at most 128 characters and PostgreSQL accepts it |
| `FailureClass.DoubleDotIsRedundant` | backend/alembic/versions/9f1c2b3a4d5e_multi_model_analysis.py:37-38 | every string with a double dot fails the dot-then-letter test already |
| `FailureClass.FirstAndLaterCharacters` | backend/alembic/versions/9f1c2b3a4d5e_multi_model_analysis.py:33-38 | which characters may begin a name, go on in it, and follow a dot |
| `PriceHistory.PriceHistoryIssue` | backend/app/providers/data_contract.py:40-64 | no issue exactly for clean histories; otherwise the issue of the first test, and in the loop of the first row, that fails |
| `PriceHistory.WhichIssue` | backend/app/providers/data_contract.py:40-64 | when each of the seven issues is returned: missing, unknown basis, two bases, or what is wrong with the first row that is wrong |
| `PriceHistory.OhlcMeans` | backend/app/providers/data_contract.py:49-54 | prices are sound exactly when the low is positive and bounds open and close from below, and the high from above |
| `PriceHistory.SegmentIsClean` | backend/app/providers/data_contract.py:40-64 | every contiguous nonempty segment of a clean history is clean |
| `PriceHistory.CloseIsBounded` | backend/app/providers/data_contract.py:57-63 | the close n rows after the first lies between 0.65^n and 1.35^n times the first close |
| `PriceHistory.NoReasonMeansQualified` | backend/app/providers/data_contract.py:69-89 | there is no reason against a history if and only if it is clean, all units are documented, and volumes and amounts are present |
| `PriceHistory.AssessMeans` | backend/app/providers/data_contract.py:69-89 | exactly the reasons that apply are listed, each once, in the order of the checks |
| `PriceHistory.SortIsStable` | backend/app/providers/data_contract.py:134 | the sort orders by date, keeps every row, and keeps the order of rows of one date |
| `PriceHistory.SplitIsUnique` | backend/app/providers/data_contract.py:137-146 | a split into a qualified prefix and an undocumented tail can only be at the first undocumented row |
| `PriceHistory.ScopeIffSplit` | backend/app/providers/data_contract.py:124-153 | a scope is returned if and only if the sorted rows split into a nonempty qualified prefix and a nonempty tail with no documented row, and it describes that split |

## Left out

- JpegStreams.AcceptedIffNothingFollows: a condition on the elements that is sufficient only; the exact one, `ExactIffCompleteFileAccepted`, is on the bytes, because a false length can lead to any place in them.
- Bridge: the client is a step system over values and not a class, because a crash must be able to fall between any two writes; writing one file is atomic, the reads behind one decision are one step, and an unanswered post is the same as a refused one.
- BridgeSafety.LaunchedAtMostOnce: a file fault may change or remove the lease, evidence or result of a folder, but not its attempt file, which is what the promise rests on.
- BridgeResubmit.OnlyResubmitted: assumes that the server answers every claim of a job with the same package; the `submit` command, which a person can point at any file, is not bound by it.
- BridgeClaims.NewIdentifierOnlyAfterClearing: for one client per root; `PinnedUntilCleared` and `PinnedIffNoEscape` are the statements for any number.
- BridgeApproval.LaunchNeedsApproval: with no file fault, since a result that disappears between the two tests for it lets an unapproved execution go on.
- The bridge's HTTP transport, login, key storage, file permissions, process flags and isolation checks.
- SchemaMeaning.MeaningPreserved: for schemas whose `const` and `enum` values the rewrite leaves equal to themselves, and that do not put `patternProperties` beside an `additionalProperties` that asks for something on a node that is no object node, nor a `prefixItems` beside such an `items`; lemmas show that the promise breaks there. References are `#/$defs/<name>`; keywords outside the supported set have an arbitrary meaning.
- SchemaMeaning.RewriteCharacterised: under the same conditions.
- SchemaMeaning.RewriteMeans: under the same conditions.
- SchemaMeaning.SupportedKeepsMeaning: under the same condition on constants, and with object nodes that admit objects by their `type`.
- SlotClaims.SucceedsAtMostOnce: for one scheduler inside its slot part at a time, as a single daemon gives; nothing in a tick excludes a second one, and `RepeatsOnlyAfterRelease` is the statement for any number.
- SlotClaims.FailedSlotIsFree: for one scheduler at a time; `FailedSlotIsFreeUnlessTaken` says exactly what holds for any number.
- SlotClaims.InterruptedAlone: for one scheduler at a time; `InterruptedSlot` says exactly what holds for any number.
- Other parts of a tick, the task service, settlement and the trading calendar: which tasks are due, whether a day is a trade day and how a task ends are parameters.
- Grace.NoSlotLost: ticks of one trade day, the first of them not after the end of the slot's grace.
- RevisionHistory.BuildHistory: the digests, the samples and the number of distinct revisions of the report are not built; the collision maps are filled by loops of their own beside the one over the structures; hashes are uninterpreted functions, and a preimage stands for its canonical text.
- PrefixLedger.AnnotatePrefixLedger: annotations are values beside the items instead of updates in place; the engine is an arbitrary function of the prefix.
- Mail.Dispatcher.Run: the queue only grows here; at its capacity of 1024 messages the notification queue first deletes old finished ones or refuses. Sending, previews and digest texts are not modelled.
- Mail.OnlyAllowedNotices: for times that never go back in lock order; `AllowedIffNoneOverdueBefore` is the statement for any order.
- Mail.AllowedIffNotMixed: the same.
- Mail.MailSlotsKept: the same.
- Lease.Engine.Lock: symbolic links and irregular lock files, which are refused as busy, are not modelled.
- Throttle.LoginThrottle.constructor: at least one entry; with none the code fails on the first failure. Times are real numbers that never decrease.
- PriceHistory.SortIsStable: comparing a date with a timestamp fails in the original; here both have an ordinal.
- FailureClass.DialectsAgree: a NULL column, which both dialects let through, and the other migrations.
- Decoding by Pillow, size and pixel limits, the declared format, `read_limited_bytes` and text recognition: foreign libraries, or one-branch claims.
- Routing, settings, password hashing, cookies, the frontend, deployment and the numeric research scripts.
