# A verified model of giantswarm-repo-manager

giantswarm-repo-manager keeps one inventory record per repository of a GitHub organisation: what the team files declare,
what GitHub has, and how the set-up stands. Four state machines write those records, and this project models them in Dafny
and proves what they keep over whole runs.

- **The reconciler poller.** Several pods share a lease and a cursor (a watermark and a small window of consumed runs) and
  turn workflow runs into the records' last run, telling a team about each (`ReconcilerCursor`, `ReconcilerProtocol`,
  `Delivery`, `Completions`); `Consumption` composes the pods with the artifacts and records behind each run. What runs
  are expected, reported and given up is `ExpectedRuns`.
- **The release watch and the release verdict.** A tag is followed from its release to the end of its pipeline
  (`ReleaseWatches`, `TagPipelines`); the commit's statuses, which name jobs and not pipelines, are attributed by the
  declared filters (`CIJobs`, `Statuses`); all sources are put in order and the check's flag and the record's findings
  follow (`ReleaseSteps`, `Records`).
- **The resumable sweep.** Passes of different pods share one timestamp as their cursor (`Sweeps`); the fetch loops halve
  what GitHub cannot answer (`Fetches`).
- **Team-file edits.** Edits of one entry that leave every other byte (`TeamFiles`), and the re-rendering of a pull request
  on a base that moved (`Rerender`).

`Common` holds optional values and time (whole seconds, 0 the zero time). Objects the source updates in place are classes
here, and each method is proved against a function of the old state; the laws are then lemmas about those functions, over
histories or runs in which the environment chooses freely: what is read, refused, cut short or crashed.

`dafny verify dfyconfig.toml` checks the whole project.

## Where the code and its documentation part

The model follows the code. Each of these is proved with a concrete input, and where there is one with the exact condition.

- *A renewal may be a fresh lease* (`internal/inventory/store.go:391-400`, `internal/collect/reconciler.go:302-310`): the
  script that renews also takes a free lease, so a pod that slept through its lease can write over another pod's cursor.
  `TTLIsSharp`: this never happens if and only if every stretch stays within the lease's time to live.
- *A run on a record that awaits its creation is taken without being stored or told*
  (`internal/collect/collect.go:489-492`): `AwaitedCreationLosesARun`, `TakenIsStoredExactly`; `ClosedIsAccounted` lists
  every other way a run closes.
- *Equal finish times* (`internal/collect/reconciler.go:585`): a run passed only by a strictly later one is read again and
  told again when another run of the same second stands on the record: `EqualTimesPostTwiceExactly`.
- *A sweep's older copy* (`internal/collect/collect.go:358-376`): written back over a run told since, it has the run told
  again while another artifact keeps it open: `SweepPostsTwice`, `PostedAgainExactly`. Written back over a report, it has
  the run that reported given up as missing: `ReportedRunIsGivenUp`, `GivenUpUnmarkedExactly`.
- *One sweep at a time* (`internal/collect/collect.go:227-237`): the sweep holds no lease, and a rollout starts the new pod
  before the old one stops; two passes at once write a record twice: `OverlappingPassWritesTwiceExactly`.
- *A finding that went away is told again when it returns* (`internal/inventory/record.go:316-323`) only if the run without
  it had something else to tell (`internal/tools/completion.go:44-48`): `HeardAgainExactly`, `SilentRunHidesAReturn`.
- *Told once* (`internal/collect/releases.go:316-352`): the watch and the runs together tell a tag once exactly while the
  record remembers the telling (`ToldOnceExactly`), and `ForgetsExactly` says when it does not. A run that leaves the
  release to the watch drops its sentence from the told set before the watch settles: `SecondRunTellsTwice`. The sentence
  from the commit's statuses does not open as `toldByTheRun` expects: `StatusesSentenceTellsTwice`. A release the watch
  told and then lost from its reach is a run's news again: `UncheckedReleaseTellsTwice`. The merge with a sweep goes by
  CheckedAt, which a pass that only re-reads the release does not move (`internal/collect/releases.go:303-308`):
  `UnmovedCheckedAtTellsTwice`. A tag that returns is told again: `ReturningTagTellsTwice`.
- *A sweep's write merges only the release* (`internal/collect/collect.go:372-375`): a run marked as expected, or a last run
  stored, since the sweep read its records is written over, though the mark is documented to stay until the run's artifact
  or the window's end (`internal/inventory/record.go:752-758`): `SweepKeepsMarksExactly`, `SweepForgetsADispatch`.
- *A sweep keeps a record that awaits its creation* (`internal/inventory/record.go:760-766`) as it was when the pass read it
  (`internal/collect/collect.go:289-305`): one whose creation is asked for while the pass runs is removed with the stale
  ones: `OnlyACompletePassRemoves`, `AwaitedSinceIsRemoved`.
- *A redundant pull request is refused* (`internal/teamfiles/rerender.go:81-84`) by bytes
  (`internal/teamfiles/rerender.go:137-142`): a blank line behind the entry hides the redundancy:
  `BlankLineHidesRedundancy`. Conversely a replacement keeps the base's head comment
  (`internal/teamfiles/entries.go:98-101`) while `declares` compares it (`internal/teamfiles/entries.go:171-178`), so a
  change of the head comment alone is refused though the base does not declare it: `HeadCommentIsRefused`,
  `RefusedIsRedundantExactly`, `MergedIsDeclaredExactly`. A removal leaves the removed entry's head comment with its
  neighbour: `RemoveReads`.
- *A run about another tag* (`internal/collect/steps.go:284-296`, `internal/collect/steps.go:408-428`): whether a run speaks
  of a tag is asked by substring, so a run about `<tag>-rc.1` is taken for one about the tag. Its finding is shown of a
  release nothing was seen to fail, and its summary names a release the record does not know: `CandidatesRedIsTaken`,
  `CandidatesMissIsTaken`, `CandidatesRunIsSpokenOf`. It is right if and only if the run names the tag as a whole word:
  `MissedBuildIsSeenExactly`, `RedIsSeenExactly`, `LatestTagIsSpokenOfExactly`.
- *Every failure without a branch's statuses is the tag pipeline's* (`internal/collect/statuses.go:40-43`): not for a job
  that both refs run and a branch pipeline alone posted: `RedAloneMayBeABranchs`.

## Model

| member | source | states |
|---|---|---|
| `ReconcilerCursors.CursorCell.Poll` | internal/collect/reconciler.go:233-296 | one poll takes the cursor to the outcome that `Polled` describes without the loop: the watermark stays at the oldest run still open, else moves to the newest listed; the window holds exactly the keys consumed now or before on runs not older than it |
| `ReconcilerCursors.CursorCell.ConsumeRuns` | internal/collect/reconciler.go:260-281 | the loop over the listing: which keys join the window, the newest creation listed, the oldest run left open |
| `ReconcilerCursors.CursorCell.Drop` | internal/collect/reconciler.go:288-292 | exactly the entries older than the watermark leave the window |
| `ReconcilerCursors.PolledIsUnique` | internal/collect/reconciler.go:254-292 | the description of a poll leaves no choice: a cursor and a listing have one outcome |
| `ReconcilerCursors.WatermarkAdvances` | internal/collect/reconciler.go:242-287 | a poll never moves the watermark back, and never leaves it behind the lookback |
| `ReconcilerProtocol.LeaseScript` | internal/inventory/store.go:391-400 | the lease script as one atomic step: the pod holds the lease afterwards, for the time to live, unless another pod holds it unexpired |
| `ReconcilerProtocol.ReleaseScript` | internal/inventory/store.go:402-406 | only the holder frees the lease |
| `ReconcilerProtocol.RunKeeps` | internal/collect/reconciler.go:225-310 | every step of any number of pods, crashes at any point included, keeps the protocol's invariant |
| `ReconcilerProtocol.PollersExclude` | internal/collect/reconciler.go:225-310 | with every stretch between lease calls and up to the cursor write shorter than the time to live, one pod at a time polls, every cursor written was computed from the one written last, and no attempt is consumed by two polls whose cursors were written |
| `ReconcilerProtocol.WindowIsHistory` | internal/collect/reconciler.go:260-268 | for every run a poll lists, its key is in the small window exactly when an earlier poll of the whole history consumed it |
| `ReconcilerProtocol.WatermarkNeverFalls` | internal/collect/reconciler.go:282-300 | over every run of the protocol the stored watermark never moves back |
| `ReconcilerProtocol.PollsStayInLookback` | internal/collect/reconciler.go:242-253 | over any run, timely or not, every poll lists only runs since its watermark and within the lookback, and leaves its watermark within the lookback, so that a store without a cursor starts there |
| `ReconcilerProtocol.NothingIsLost` | internal/collect/reconciler.go:242-300 | every run that appears, and every attempt a poll listed, is consumed, at or after the watermark, superseded by a later attempt, or behind the lookback |
| `ReconcilerProtocol.TTLIsSharp` | internal/collect/reconciler.go:302-310 | no update is lost under every run whose stretches stay below a limit if and only if the limit is at most the time to live |
| `ReconcilerProtocol.LapseForgetsARun` | internal/inventory/store.go:391-400 | the run that shows it: a pod that slept through its lease takes it again as a renewal and writes over another pod's cursor, which forgets a consumed run |
| `Delivery.ClosedStep` | internal/tools/completion.go:31-73 | one attempt through the refresh and the completion hook: closed only with the sentence posted now or noted before, nothing to post or nobody to post it to, expired, malformed, passed, past the retry window, or taken unstored; each case names only what that attempt consulted |
| `Delivery.Collector.ConsumeRun` | internal/collect/reconciler.go:347-410 | the run is read through exactly when no artifact holds it open, said of what the environment did: a read, a download, a source or a write that was needed failed or the attempt crashed, or within the retry window the repository is nowhere or the team is not told; and every record is the one its own artifacts leave, one after the other |
| `Delivery.KeepsOpenExactly` | internal/collect/reconciler.go:347-410 | an attempt keeps its run open exactly so; at or after the retry window only a failure does |
| `Delivery.ConsumeLeaves` | internal/collect/collect.go:476-520 | what an attempt leaves on the record, exactly: the run stored around what the sources say, with nothing expected any more; none where the repository is gone; else the record as it was, its run noted as told exactly where the attempt told it |
| `Delivery.ReportsApart` | internal/collect/reconciler.go:347-410 | artifacts of different repositories do not meet: each is consumed from the record as the run found it |
| `Delivery.ToldWasPosted` | internal/inventory/record.go:429-434 | in every history, a run the record or a sweep's copy notes as told was posted or had nothing to announce |
| `Delivery.ClosedIsAccounted` | internal/collect/reconciler.go:347-410 | over crashes, refused posts, failed writes, removals and sweeps, an attempt that does not keep its run open had its sentence posted, had none or nobody to post it to, was expired, malformed, passed by a later run, given up after the retry window because the repository is nowhere or the team could not be told, or met a record that awaits its creation |
| `Delivery.TakenIsStoredExactly` | internal/collect/collect.go:489-502 | over any history, an attempt that ends without an error leaves its run on the record if and only if it did not meet a record that awaits its creation |
| `Delivery.AwaitedCreationLosesARun` | internal/collect/collect.go:489-492 | the input where it did not: a run that meets a record awaiting its creation is taken, neither stored nor told |
| `Delivery.PostsExactly` | internal/collect/reconciler.go:569-590 | an attempt posts the sentence if and only if it comes that far and the record's run does not stand past the artifact; a noted post leaves the record past it |
| `Delivery.PostedOnceExactly` | internal/collect/reconciler.go:569-590 | over any crashes, refusals, removals, sweeps and equal times, a run's sentence is posted at most once if and only if the record stands past it each time an attempt could post it again |
| `Delivery.UnsettlesExactly` | internal/collect/reconciler.go:580-590 | what takes the record back behind a run, exactly: its removal, an attempt that finds the repository gone, another run of the same finish time stored over it, and a sweep's copy from before written back |
| `Delivery.SweepLeaves` | internal/collect/collect.go:358-376 | a sweep's write puts back the last run and the mark its copy has and takes the rest from what it read |
| `Delivery.PostedAtMostOnce` | internal/collect/reconciler.go:569-590 | over any history, a run's sentence is posted at most once more than its posts went unnoted by a crash or a failed write, and than the record was taken back behind it |
| `Delivery.SetbacksAreCounted` | internal/collect/reconciler.go:580-590 | with distinct finish times, the record is taken back no more often than it was removed or a sweep put another run back |
| `Delivery.PostedOnce` | internal/collect/reconciler.go:569-590 | with distinct finish times, and without a crash or failed write after the post, a removal or a roll-back by a sweep, no sentence is posted twice |
| `Delivery.EqualTimesPostTwiceExactly` | internal/collect/reconciler.go:585-587 | for any two runs with different keys, some history of undisturbed attempts posts the announced one twice if and only if they finished at the same time |
| `Delivery.SweepPostsTwice` | internal/collect/collect.go:358-376 | the input where a sweep makes a run post twice: its copy from before the run is written back, and the run, kept open, is read again |
| `Delivery.PostedAgainExactly` | internal/collect/collect.go:358-376 | once the record stands past a run, some continuation without a removal posts it again if and only if a sweep holds a copy that does not stand past it |
| `Delivery.RecordCarriesNewest` | internal/collect/reconciler.go:580-590 | while nothing is removed and no sweep puts another run back, the record's last run is the newest artifact that landed |
| `Delivery.Confluent` | internal/collect/reconciler.go:556-590 | any two orders of artifacts with distinct finish times, with replays, crashes, retries and sweeps that put nothing back, in which the same landed, end with the same last run |
| `Delivery.FinishFallsExactly` | internal/collect/reconciler.go:580-587 | the finish time falls or is lost by exactly: a removal, an attempt that finds the repository gone, and a sweep that writes back an older last run or none |
| `Delivery.FinishNeverFalls` | internal/collect/reconciler.go:580-587 | while the record is not removed and no sweep puts another run back, its finish time never decreases |
| `Consumption.PodsRun` | internal/collect/reconciler.go:225-410 | any number of pods polling, with the artifacts behind the runs, is a run of the poller's protocol in which a run is read through as `Delivery` decides: the protocol's theorems hold of it |
| `Consumption.ReadThroughIsDelivered` | internal/collect/reconciler.go:260-281 | a run that a poll or a pod's own unfinished poll counts as read through was delivered at an earlier step and kept open by none of its artifacts |
| `Consumption.ReadThroughExactly` | internal/collect/reconciler.go:260-410 | a poll counts the run it stands at as read through exactly when its artifacts were listed and none holds it open, so that after the retry window a run that nothing fails on no longer holds the watermark |
| `Consumption.DeliverIsConsumeRun` | internal/collect/reconciler.go:347-410 | a delivered run leaves on every record what `Delivery.Collector.ConsumeRun` leaves |
| `Consumption.ReachedTheCursorIsAccounted` | internal/collect/reconciler.go:260-410 | with crashes, refused posts, unreadable artifacts, removals and sweeps: an attempt whose consumption reached the cursor had each of its artifacts posted, silent, expired, malformed, passed, given up after the retry window, or met by a record that awaits its creation |
| `Consumption.ListedIsAccounted` | internal/collect/reconciler.go:225-410 | and with timely pods each attempt a poll listed had its artifacts so accounted for, is still to be listed, was superseded by a later attempt, or is behind the lookback |
| `ExpectedRuns.Record.Dispatched` | internal/inventory/record.go:743-758 | an Align now replaces whatever was expected and forgets a missing run |
| `ExpectedRuns.Record.Opened` | internal/inventory/record.go:768-775 | a team-file pull request is expected without a deadline |
| `ExpectedRuns.Record.Merged` | internal/inventory/record.go:777-781 | the window counts from the merge |
| `ExpectedRuns.Record.Closed` | internal/inventory/record.go:783-788 | the mark goes, nothing is missing |
| `ExpectedRuns.Record.Conflicts` | internal/inventory/record.go:790-796 | the first note of a conflict keeps its time |
| `ExpectedRuns.Record.Mergeable` | internal/inventory/record.go:798-804 | the note goes |
| `ExpectedRuns.Record.GiveUpAs` | internal/inventory/record.go:826-835 | the pending run moves into the missing one; without one nothing changes |
| `ExpectedRuns.Record.Expire` | internal/collect/reconciler.go:729-831 | expirePending with readMerge and readConflict on one record, in the fields: the stored state and the conflict hook are those of `Expired`, which `ExpiresExactly` pins down, with each store write taken or refused |
| `ExpectedRuns.StepKeeps` | internal/collect/reconciler.go:421-493 | every event, a sweep's read and write among them, keeps: never both pending and missing, a pull request given up only with its merge known and its window over, marks resolved once each unless put back |
| `ExpectedRuns.ExpiresExactly` | internal/collect/reconciler.go:729-831 | the conflict hook is called on exactly a first conflict the store took, which is then noted; the note goes with exactly a mergeable read, the mark with exactly a closed one, that the store took; the run is given up exactly when its window, from the dispatch or the merge, is over and the store takes it |
| `ExpectedRuns.ExpiryNotesExactly` | internal/collect/reconciler.go:729-831 | in a history each of these is remembered on exactly its cause, the hook if and only if the note of a conflict appears in that step |
| `ExpectedRuns.ConflictWasHooked` | internal/collect/reconciler.go:799-831 | over every history, where a conflict is noted the hook was called since the mark was last free of one, unless a sweep put the note back |
| `ExpectedRuns.EveryMarkEndsOnce` | internal/collect/reconciler.go:729-831 | over every sequence of dispatches, openings, merges, closes, conflicts, failed writes, reports, give-ups and sweeps: never both a pending and a missing run, a pull request's run missing only with its merge known, one resolution for each time a run came to be expected, by a mark or by a sweep that put a mark back the record had not, and one conflict hook a stretch of conflict |
| `ExpectedRuns.ReportIsFinal` | internal/collect/reconciler.go:347-410 | between a report and any later give-up a new mark was made, or a sweep put a mark back |
| `ExpectedRuns.GivenUpUnmarkedExactly` | internal/collect/collect.go:358-376 | with nothing expected, some continuation without a new mark gives a run up if and only if a sweep holds a copy in which one is expected |
| `ExpectedRuns.ReportedRunIsGivenUp` | internal/collect/collect.go:358-376 | the input: a run that reported is given up after a sweep wrote its mark back |
| `ExpectedRuns.OnlyTheMarksOwnRunFailsIt` | internal/collect/reconciler.go:421-472 | a completed run without a report ends a mark if and only if it is the mark's own: dispatched at most the slack before it, or the push of its merge commit |
| `ExpectedRuns.UnreportedExactly` | internal/collect/reconciler.go:421-493 | what such a run leaves: the mark given up as this run, with the merge noted, if it is the mark's own and the store takes it; else everything as it was |
| `ExpectedRuns.MarksAndReports` | internal/inventory/record.go:743-775 | a dispatch and an opened pull request replace whatever was expected or missing, a report leaves nothing of either |
| `CIJobs.MatchesAnyRef` | internal/inventory/cijob.go:98-113 | the loop finds a matching pattern if and only if one matches |
| `CIJobs.OpenToBranches` | internal/inventory/cijob.go:52-64 | no catch-all is among the ignored branches, or branches are named |
| `CIJobs.TagOnlyNames` | internal/inventory/cijob.go:69-80 | the names, in order, of the uses that run on the tag and not on the branch |
| `CIJobs.AnyReported` | internal/inventory/cijob.go:84-96 | some context names one of the jobs, both ways |
| `CIJobs.BranchJobIsOpen` | internal/inventory/cijob.go:46-64 | a job that some branch's pipeline runs is one the filters leave open to branches: the four catch-all patterns really shut every branch out |
| `CIJobs.TagOnlyNamesUses` | internal/inventory/cijob.go:66-80 | a name is tag-only if and only if one use of it runs on the tag and not on the branch |
| `CIJobs.PatternMeans` | internal/inventory/cijob.go:98-113 | a pattern between slashes is an expression, any other the ref's own name, with or without spaces around it |
| `CIJobs.FiltersMean` | internal/inventory/cijob.go:30-64 | without a filter a job runs on every branch and on no tag; a filter opens it to exactly the refs it matches; an ignored ref is shut out in any case |
| `CIJobs.JobIsNamed` | internal/inventory/cijob.go:9-16 | a status context names its job |
| `Statuses.RollupStatus` | internal/collect/circleci.go:152-183 | the worst state, the newest time, and all, the failed and the pending contexts, sorted |
| `Statuses.SortedIsInOrder` | internal/collect/circleci.go:176-178 | the sort permutes the contexts and puts them in the order of their names |
| `Statuses.RollupKeepsStates` | internal/collect/circleci.go:152-183 | the lists agree with the contexts and the worst state, so reading them loses no failure |
| `Statuses.WorstSays` | internal/collect/circleci.go:152-183 | the worst state is a failure if and only if a context failed, pending if and only if none failed and one is pending, success if and only if neither |
| `Statuses.SplitStatuses` | internal/collect/statuses.go:92-110 | own and foreign contexts in order; all own when none is |
| `Statuses.TagStatusIsOwn` | internal/collect/statuses.go:92-110 | against the posters of the statuses: one of the tag pipeline's is never read as foreign |
| `Statuses.TagFailureIsNeverGreen` | internal/collect/statuses.go:51-90 | a job of the tag pipeline that reads as failed, on an older record by the worst state, and is not the GitHub release's, is named by the verdict, which is never built or running |
| `Statuses.VerdictExactly` | internal/collect/statuses.go:51-90 | the verdict of the statuses, exactly, status by status: red, two pipelines, running, not reported and built each on its own condition, and which jobs it names |
| `Statuses.TagPendingIsWaitedFor` | internal/collect/statuses.go:76-79 | a job of the tag pipeline that is still to come in is never read built or not reported; beside no unpublished failure the verdict is running |
| `Statuses.RunningWaitsForSome` | internal/collect/statuses.go:76-79 | running is said on a status still to come in that may be the tag's, unless the declaration shuts the tag out of them all |
| `Statuses.TagOnlyIsTheTags` | internal/collect/statuses.go:112-125 | a context of a job that runs on the tag alone was posted by the tag pipeline |
| `Statuses.RedNamesFailures` | internal/collect/statuses.go:62-75 | red names only real failures that leave the release unpublished, and beside foreign statuses one that runs on the tag alone |
| `Statuses.RedBesideForeignIsReal` | internal/collect/statuses.go:62-75 | red beside foreign statuses: the tag pipeline failed one of the jobs |
| `Statuses.FailureIsCertainExactly` | internal/collect/statuses.go:112-125 | every attribution the filters allow blames the tag pipeline if and only if a failed job runs on the tag alone: the guard between red and unchecked is exact |
| `Statuses.ReportIsCertainExactly` | internal/inventory/cijob.go:66-96 | beside pipelines of one branch alone, every attribution the filters allow has the tag pipeline report if and only if some context is of a job the declaration names and never runs on that branch |
| `Statuses.BuiltMeansTheTagReported` | internal/collect/statuses.go:76-90 | with default-branch pipelines alone beside the tag's and names no branch use shares, built with tag-only jobs declared means the tag pipeline reported |
| `Statuses.RedAloneMayBeABranchs` | internal/collect/statuses.go:40-43 | without foreign statuses red may be a branch's: the input |
| `Statuses.SharedNameReadsBuilt` | internal/inventory/cijob.go:66-80 | with a shared job name built is read though the tag pipeline never ran: the input |
| `TagPipelines.TagPipeline.Read` | internal/collect/tagpipeline.go:45-82 | the loop over the newest workflow runs leaves the counts of the fold, and says whether every read succeeded |
| `TagPipelines.FoldMeansRule` | internal/collect/tagpipeline.go:30-82 | the counts mean the rule: red if and only if a newest run failed for more than the GitHub release, built if and only if none did, none is moving and one succeeded |
| `TagPipelines.RunMeans` | internal/collect/tagpipeline.go:45-82 | a failed run counts as red exactly when none of its jobs failed or one that leaves something unpublished did, and as green when only the GitHub release failed |
| `TagPipelines.FailuresExactly` | internal/collect/tagpipeline.go:45-82 | the words of a red pipeline name exactly the failed jobs of its red runs, or the workflow where none failed |
| `TagPipelines.OrderDoesNotMatter` | internal/collect/tagpipeline.go:45-82 | red and built are the same for every order of the runs |
| `TagPipelines.RerunsTurnRedBuilt` | internal/collect/releases.go:383-386 | a settled red pipeline with a newer green run for every failed name is built |
| `ReleaseWatches.ReleaseWatch.ReadRelease` | internal/collect/releases.go:392-428 | one read of the tag's pipeline, in the fields, is `Read` for every answer, which `PassSettlesExactly` pins down |
| `ReleaseWatches.PassSettlesExactly` | internal/collect/releases.go:381-428 | exactly which answer moves a followed tag: unchecked where CircleCI does not know the project, unbuilt where there is no pipeline and the grace is over, red and built by the workflows once all were read; any other leaves the state; and what is noted of pipeline, failed jobs, reason and times |
| `ReleaseWatches.UnbuiltWaitedForTheGrace` | internal/collect/releases.go:404-412 | over any passes, runs and sweeps, an unbuilt tag was settled not before its grace was over |
| `ReleaseWatches.GreenRerunTurnsBuilt` | internal/collect/releases.go:383-387 | a rerun that goes green turns a red release built, and nothing is posted |
| `ReleaseWatches.OutsideIsUnchecked` | internal/collect/releases.go:354-376 | a release out of the watch's reach is unchecked from the start |
| `ReleaseWatches.SettledIsLeftAlone` | internal/collect/releases.go:294-315 | a settled release other than red is left alone until the page shows another one than the record read, and then at most the note of the telling changes |
| `ReleaseWatches.TellingNotesExactly` | internal/collect/releases.go:316-334 | what is posted and noted of a red or unbuilt release: a run's sentence where one told it, else the one posted or recorded now, nothing where the post is tried again |
| `ReleaseWatches.ReleaseWatch.Settle` | internal/inventory/record.go:408-413 | the state and its time, nothing else |
| `ReleaseWatches.ReachableIsWellFormed` | internal/inventory/record.go:339-413 | in every state passes and sweeps reach: red has a pipeline and failed jobs, built a pipeline and none, watching no settle time and nothing told, unchecked a reason |
| `ReleaseWatches.NoMissingPipeline` | internal/collect/steps.go:377-407 | the release step and the notice never meet a missing pipeline |
| `ReleaseWatches.SettledIsFinal` | internal/collect/releases.go:274-334 | through refused and retried posts and sweeps, for tags that go forward, and given that a pass between a sweep's read and its write does not move CheckedAt back and moves it on with the tag or the state: built, unbuilt and unchecked are final for a tag, red stays or settles otherwise, nothing goes back to watching |
| `ReleaseWatches.LaterPassMovesInOrder` | internal/collect/releases.go:274-334 | a clock past the stored CheckedAt is enough for that: whatever changes the tag or the state moves CheckedAt |
| `ReleaseWatches.SweepsKeepTheWatch` | internal/collect/releases.go:515-528 | when each pass between a sweep's read and its write that changed the watch moved CheckedAt, the sweep never writes over it |
| `ReleaseWatches.FindTold` | internal/collect/releases.go:339-352 | the loop finds the first told sentence that opens as one about the tag |
| `ReleaseWatches.PostsExactly` | internal/collect/releases.go:316-332 | the posts of a tag, the watch's and the runs', grow by one in exactly the passes and runs that `Tells` describes |
| `ReleaseWatches.SilencedIsQuiet` | internal/collect/releases.go:316-332 | a tag the watch has noted, or whose sentence is in the told set, is posted by neither path; a post that is stored silences it |
| `ReleaseWatches.SilentRunLeaves` | internal/tools/completion.go:44-73 | a run with nothing to tell or nobody to tell it to leaves everything, one whose note is refused the record |
| `ReleaseWatches.ToldOnceExactly` | internal/collect/releases.go:316-352 | the team hears of a tag at most once, from the watch and the runs together, if and only if the record remembers an earlier telling each time the tag comes up again |
| `ReleaseWatches.ForgetsExactly` | internal/tools/completion.go:112-124 | what makes the record forget a tag, exactly: another tag followed or the project out of reach, a telling run that replaces the told set without the sentence before the watch noted the tag, and a sweep's copy from before both notes |
| `ReleaseWatches.ToldOnce` | internal/collect/releases.go:316-332 | over any passes, runs, reruns, refused posts, failed writes and sweeps, both paths together post a tag told in one sentence at most once more than its posts went unnoted because the store refused the record, and than the record forgot the tag |
| `ReleaseWatches.WatchTellsOnce` | internal/collect/releases.go:303-332 | with runs that leave the tag to the watch, and passes that move CheckedAt while a sweep holds a copy: at most once more than its posts went unnoted, through reruns, refused posts and sweeps |
| `ReleaseWatches.SecondRunTellsTwice` | internal/tools/completion.go:112-124 | the input where a run makes the record forget: told before there was a watch, left out by the next run's told set, told again when the watch settles |
| `ReleaseWatches.StatusesSentenceTellsTwice` | internal/collect/releases.go:339-352 | the input the prefix does not match: a red release told by a run in the words of the commit's statuses is told again by the watch |
| `ReleaseWatches.UncheckedReleaseTellsTwice` | internal/tools/completion.go:193-200 | a release the watch told and then lost from its reach is told again by the next run |
| `ReleaseWatches.UnmovedCheckedAtTellsTwice` | internal/collect/releases.go:303-327 | the input where a sweep makes the record forget: an unbuilt release told by a re-read that leaves CheckedAt is told again after the sweep's write |
| `ReleaseWatches.ReturningTagTellsTwice` | internal/collect/releases.go:294-302 | a tag that returns after another starts a new watch and is told again |
| `ReleaseSteps.Checks.Converge` | internal/collect/steps.go:44-54 | the loop sets the flag if and only if every step converges |
| `ReleaseSteps.Checks.FillClientlessSteps` | internal/collect/steps.go:31-42 | the two steps skipped for want of a client are written in place, the flag follows |
| `ReleaseSteps.Checks.RewriteReleaseStep` | internal/collect/steps.go:63-74 | the release step is overwritten in place for the newer tag, unless skipped for another reason; a run's step keeps the run's own words, dated |
| `ReleaseSteps.TagFailureIsReported` | internal/collect/steps.go:284-296 | over all sources: a failed job of the tag's own pipeline is reported by name and never read green, unless the watch decides or a run read the tag's pipeline itself |
| `ReleaseSteps.TagPendingIsWaitedFor` | internal/collect/steps.go:284-296 | nor is a job of the tag's own pipeline that is still to come in read built or missing: the step waits for it or reports a failure, unless the watch or a run decides |
| `ReleaseSteps.ClaimsExactly` | internal/collect/steps.go:262-333 | over all sources in their order, exactly when the step reports the release red, not built or unchecked: by the watch, a run that counts, the statuses, or what the record read of the release |
| `ReleaseSteps.IsFineExactly` | internal/collect/steps.go:262-333 | and exactly when it finds nothing wrong |
| `ReleaseSteps.SpeakingIsMentioning` | internal/collect/steps.go:408-428 | a run step that names a tag as a whole word mentions it; `mentions` also takes a tag inside another's name |
| `ReleaseSteps.StepSpeaksExactly` | internal/collect/steps.go:278-347 | the release step for a tag speaks of it if and only if it is not a run's, or the run's own words name the tag |
| `ReleaseSteps.LatestTagIsSpokenOfExactly` | internal/collect/steps.go:63-84 | a rewrite is for the newest release the record knows, and the step it leaves speaks of that release if and only if it is not a run's, or the run's own words name it |
| `ReleaseSteps.CandidatesRunIsSpokenOf` | internal/collect/steps.go:284-306 | the input where it does not: a tag the watch could not read and a run about its release candidate; the step names a release the record does not know |
| `ReleaseSteps.MissedBuildIsSeenExactly` | internal/collect/steps.go:278-333 | a tag is called not built on evidence about this very tag, the watch's word, a run's, or a whole read of its commit without a status while no watch waits, if and only if the run taken for it, where one is, names the tag as a whole word |
| `ReleaseSteps.RedIsSeenExactly` | internal/collect/steps.go:278-296 | a release is called red on evidence about this very tag, the watch's word, a run's or, beside foreign statuses, a job the tag's pipeline failed, if and only if the run taken for it, where one is, names the tag as a whole word |
| `ReleaseSteps.CandidatesRedIsTaken` | internal/collect/steps.go:284-296 | the input where a green release is called red: no job of the tag's alone is declared and the last run reports its release candidate red |
| `ReleaseSteps.CandidatesMissIsTaken` | internal/collect/steps.go:284-296 | likewise the input where a release with green statuses is called not built |
| `ReleaseSteps.RewrittenSays` | internal/collect/steps.go:55-74 | after a rewrite the step is the one the record's facts decide, every other step is as it was, and the flag agrees |
| `ReleaseSteps.RewriteLeaves` | internal/collect/steps.go:55-74 | a rewrite changes nothing without a watch, without a release step, or where the engine skipped it for another reason than a missing client |
| `ReleaseSteps.FilledSays` | internal/collect/steps.go:31-42 | filling replaces exactly the clientless steps, the release step by the one for the tag it named |
| `ReleaseSteps.RewriteTwice` | internal/collect/steps.go:63-74 | rewriting again from the same facts changes nothing |
| `ReleaseSteps.FillThenRewrite` | internal/collect/steps.go:31-74 | filling a step and rewriting it agree when both name one tag |
| `ReleaseSteps.EnginesTag` | internal/collect/steps.go:106-115 | the tag is read back from the engine's sentence |
| `Records.Record.Finalize` | internal/inventory/record.go:623-659 | the findings are computed source by source as `FindingsOf` |
| `Records.Record.KeepRelease` | internal/collect/releases.go:515-528 | in place: the stored watch is taken when it is the newer, and the step, flag and findings follow |
| `Records.Record.RewriteReleaseStep` | internal/collect/steps.go:63-74 | the record's check after the watch wrote its release step |
| `Records.Record.Check` | internal/collect/collect.go:554-605 | in place: each guard of the check in its order, what it keeps, drops or stores |
| `Records.Record.Mark` | internal/inventory/record.go:785-835 | a mark moves and the findings follow |
| `Records.KeptIsMerged` | internal/collect/releases.go:515-528 | the watch that a sweep's write keeps is the one the release watch's own merge keeps |
| `Records.EventKeepsAgreement` | internal/collect/collect.go:358-391 | each write keeps the stored findings and flag in agreement with the facts |
| `Records.DerivedFieldsAgree` | internal/inventory/record.go:623-659 | over every sequence of refreshes, sweep reads and writes, watch passes, marks and notes, the stored findings equal those recomputed and the converged flag says whether every step converges |
| `Records.CheckLeaves` | internal/collect/collect.go:554-605 | what a check leaves in each case: the old result, none, the refusal, or the engine's with its steps filled |
| `Records.RefreshCarries` | internal/collect/collect.go:641-665 | a refresh carries the marks, the last run and the watch over; with a run it takes the run and nothing is expected or missing any more |
| `Records.RefreshDrops` | internal/collect/collect.go:489-496 | a refresh that finds neither declaration nor repository drops the record unless it awaits its creation |
| `Records.FailedCheckLeaves` | internal/collect/collect.go:554-605 | a check that fails leaves no result behind a refresh and the copy's behind a sweep |
| `Records.KeptStepFollows` | internal/collect/releases.go:515-528 | where a sweep's write takes the stored watch over, the release step is the one its facts decide |
| `Records.WatchPassLeaves` | internal/collect/releases.go:274-334 | a watch pass leaves alone what is not declared, not on GitHub or archived, and else stores what it read and told |
| `Records.WritesLeave` | internal/inventory/record.go:785-835 | a mark, a note on it and the note that a run was told each change their own part alone |
| `Records.FindingShows` | internal/inventory/record.go:653-657 | the engine findings a record shows are exactly its steps' findings |
| `Records.FindingsExactly` | internal/inventory/record.go:623-652 | each of the other findings is on the record on exactly its cause: declared but gone, undeclared, a missing run, unknown fields |
| `Records.FlagReadsInFindings` | internal/collect/steps.go:44-54 | converged if and only if no step drifted or failed and every engine finding the record shows is advisory |
| `Records.RedReleaseShows` | internal/collect/releases.go:309-315 | a pass that read a red release stores the finding naming its failed jobs and a check that is not converged, whatever the other sources said |
| `Records.SweepKeepsMarksExactly` | internal/collect/collect.go:358-376 | an expected run and a last run survive a sweep's write if and only if the sweep's copy holds the same: only the release is merged |
| `Records.SweepForgetsADispatch` | internal/collect/collect.go:358-376 | an Align now dispatched while a sweep runs is forgotten by its write |
| `Completions.VerifiedFindings` | internal/tools/completion.go:227-252 | the nested loops compute `Verified` |
| `Completions.VerifiedIsExact` | internal/tools/completion.go:222-252 | for each kind: tellable and reported, precisely the live check's findings in number and order where it ran the step, else the run's; any other kind never |
| `Completions.FindingsToldAreNews` | internal/tools/completion.go:165-190 | a finding is told if and only if it is news of one of the run's steps |
| `Completions.ToldIsExactly` | internal/tools/completion.go:165-190 | what a run tells: nothing unless a person made the change; else the change first, every failed step, and every finding that is news, and nothing else |
| `Completions.LiveExactly` | internal/tools/completion.go:222-252 | the live check speaks for a step by its first result of that name, unless it skipped the step or failed in it |
| `Completions.Tell` | internal/tools/completion.go:79-110 | the loop posts exactly what was not heard and reaches the channel, and returns the new told set |
| `Completions.ToldExactly` | internal/tools/completion.go:79-124 | after a run that tells, the told set is exactly the reported findings told already or delivered now |
| `Completions.StandingIsHeardOnce` | internal/inventory/record.go:316-323 | a finding heard and noted, and reported by every run since that stored its told set, is not tried again |
| `Completions.UndeliveredIsTriedAgain` | internal/tools/completion.go:79-110 | an undelivered finding is tried by every telling run that reports it, until it is heard and the record stored |
| `Completions.HeardAgainExactly` | internal/tools/completion.go:44-48 | a told finding is tried again if and only if some telling run in between stored its told set without it |
| `Completions.SilentRunHidesAReturn` | internal/tools/completion.go:44-48 | the input where a returning finding is not heard: the run without it had nothing to tell |
| `Completions.UnnotedIsHeardAgain` | internal/tools/completion.go:112-124 | a finding delivered by a run whose record the store refused is tried again by the next telling run that reports it |
| `Sweeps.Sweeper.TakeCursor` | internal/collect/collect.go:335-351 | the unfinished sweep while younger than the interval, else a new one, stored before anything is read |
| `Sweeps.Sweeper.WriteRecords` | internal/collect/collect.go:358-391 | what was written before the cut is stored, all of it if and only if nothing cut the pass |
| `Sweeps.Sweeper.Sweep` | internal/collect/collect.go:198-329 | one pass, cut short anywhere: what is written are the repositories it names and does not carry, each record saying what the pass read of it; all others stay but that a complete pass removes those that stand for nothing and then ends the sweep, either of which may fail; and every figure of the summary counts exactly its repositories, by the carried records and what was read |
| `Sweeps.CountsAddUp` | internal/collect/collect.go:417-430 | the classes of the summary are disjoint and leave no repository out |
| `Sweeps.SweptAtMostOnce` | internal/collect/collect.go:227-237 | over every sequence of interrupted, stopped and resumed passes, with refreshes and removals between any two of their steps, a sweep writes a record at most once more than it was removed; the cursor counts the passes |
| `Sweeps.OverlappingPassWritesTwiceExactly` | internal/collect/collect.go:227-237 | two pods' passes at once: a record one has still to write is written by both, with nothing removed, if and only if it is not done when the second begins |
| `Sweeps.StepKeepsCovering` | internal/collect/collect.go:190-197 | at every step of a pass, each repository it names is still to be written, refreshed since the sweep's start, or removed since the pass began; once the stale records are removed, whatever else is left came since or awaited its creation |
| `Sweeps.OnlyACompletePassRemoves` | internal/collect/collect.go:289-305 | of a pass's own steps only the removal takes a record away, and exactly one the pass, a complete one, found at its start neither on GitHub nor declared nor awaiting its creation |
| `Sweeps.CompletedSweep` | internal/collect/collect.go:190-324 | when a complete pass ends a whole run: all on GitHub or declared covered unless removed since the pass began, each written at most once but for removals; every record nobody else wrote or removed meanwhile says what the pass read, or is carried as found; no other record left than those that awaited a creation, came after the pass began or were written since its removal, and no cursor |
| `Sweeps.ClearedPassIsTakenUp` | internal/collect/collect.go:295-324 | a pod that stops after the removal and before the cursor goes leaves nothing to do twice: the next pass of the sweep has nothing left to write |
| `Sweeps.AwaitedSinceIsRemoved` | internal/inventory/record.go:760-766 | the input where a record that awaits a creation is removed: its creation was asked for while the pass ran |
| `Sweeps.PassIsItsSteps` | internal/collect/collect.go:198-329 | what the method for a whole pass leaves is what the pass's steps leave with nothing between them, in whatever order it wrote and wherever it stopped |
| `TeamFiles.JoinSplit` | internal/teamfiles/entries.go:316-325 | splitting into lines loses no byte |
| `TeamFiles.OffsetOf` | internal/teamfiles/entries.go:327-334 | the loop's offset is the length of the lines before |
| `TeamFiles.WriteRead` | internal/teamfiles/entries.go:45-80 | every sequence of bytes reads as a well-formed file and writes back to the same bytes |
| `TeamFiles.ReadWrite` | internal/teamfiles/entries.go:45-80 | every well-formed file written reads as itself |
| `TeamFiles.FindEntryRange` | internal/teamfiles/entries.go:52-80 | the offsets computed from item lines and head comments are those of `EntryRange`, for every input and error |
| `TeamFiles.RangeIsTheEntry` | internal/teamfiles/entries.go:45-80 | the range holds exactly the entry's own lines; before it are the header, the entries above and the head comment, after it the entries below with theirs |
| `TeamFiles.ReplaceReads` | internal/teamfiles/entries.go:82-103 | after a replacement the file reads as the same header and entries with that one body changed |
| `TeamFiles.RemoveReads` | internal/teamfiles/entries.go:105-113 | after a removal the other entries read as before in the same order; the removed entry's head comment stays with its neighbour |
| `Rerender.ApplyChanges` | internal/teamfiles/entries.go:138-154 | the loop over the pull request's entries leaves each changed or added one declared as there, the others as they were |
| `Rerender.ApplyRemovals` | internal/teamfiles/entries.go:155-164 | the loop over the old entries removes exactly those the pull request removed |
| `Rerender.RerenderFile` | internal/teamfiles/entries.go:122-167 | one file: a three-way merge of the declarations; its bytes unchanged if and only if the base has every touched entry verbatim; every entry of the base keeps its head comment unless an entry is removed; a file in alphabetical order stays in it; and with nothing added or removed it reads as before but for the touched entries' lines |
| `Rerender.RerenderPullRequest` | internal/teamfiles/rerender.go:111-147 | the loop over the changed files: what is committed, the entries named, the refusals |
| `Rerender.RerenderTwice` | internal/teamfiles/entries.go:115-121 | re-rendering again changes no declaration and no head comment |
| `Rerender.BaseUnmoved` | internal/teamfiles/entries.go:115-121 | on a base that did not move the result declares what the pull request declares; where nothing is removed an entry has the pull request's head comment if and only if it had it before |
| `Rerender.DisjointCommute` | internal/teamfiles/entries.go:115-167 | pull requests that touch different entries re-render to the same declarations in either order |
| `Rerender.TransferDeclaresOnce` | internal/teamfiles/rerender.go:76-92 | a transfer of a repository declared once in two files leaves it declared once, in the receiving one |
| `Rerender.RefusedIsRedundant` | internal/teamfiles/rerender.go:137-142 | what is refused as redundant reads, its head comment aside, on the base already |
| `Rerender.RefusedIsRedundantExactly` | internal/teamfiles/entries.go:171-178 | and reads there as the pull request declares it, head comment included, if and only if the base's entry has that head comment |
| `Rerender.MergedIsDeclaredExactly` | internal/teamfiles/entries.go:95-103 | a touched entry the base has reads after re-rendering as declared, head comment included, if and only if the base had its head comment: a replacement keeps the base's |
| `Rerender.HeadCommentIsRefused` | internal/teamfiles/rerender.go:137-142 | the input: a pull request that changes an entry's head comment alone is refused as on the base, which does not declare it so |
| `Rerender.BlankLineHidesRedundancy` | internal/teamfiles/rerender.go:81-84 | the converse fails: a blank line behind the entry is rendered away and the redundant change is not refused |
| `Fetches.FetchHistories` | internal/collect/collect.go:1149-1198 | terminates under any pattern of failures and halvings, and gives up only on a query it could make no smaller or with its context over; without an error every name was asked in exactly one answered batch and its history attached |
| `Fetches.FetchRepositories` | internal/collect/collect.go:1103-1145 | terminates and gives up likewise; without an error every repository the listing shows is read |

## Left out

- Transport and decoding: GitHub, CircleCI, Valkey, the gateway, zip and JSON. Each call is an answer the environment
  chooses; each Valkey script, and each read-modify-write of one record, is one step.
- ReconcilerProtocol: a pod's listing is one step, and runs appear in creation order; the code never lists a new
  attempt of a run created before the watermark, and nothing is claimed of it.
- Delivery.Collector.ConsumeRun: takes the artifacts of one run one after the other, where the code takes several at a time.
  Artifacts are those of the attempt; the listing is by the run, so that of a rerun may still show an earlier attempt's.
- Consumption.ReachedTheCursorIsAccounted: the artifacts of one run are attempted in one step, each on its own record;
  a sweep's reads and writes come between runs, not between two artifacts of one.
- Delivery.PostedOnce: needs distinct finish times, which `EqualTimesPostTwiceExactly` shows, and no roll-back by a sweep,
  which `SweepPostsTwice` shows.
- Statuses.RedNamesFailures: for records that keep their contexts' states; an older record has its worst state alone, which
  is read onto every own context.
- Statuses.BuiltMeansTheTagReported: needs names no branch use shares, which `SharedNameReadsBuilt` shows.
- TagPipelines.TagPipeline.Read: takes the newest run of every name, which devctl selects, by the behaviour its caller relies on.
- ReleaseWatches.ToldOnce: counts a tag's posts for a history in which the runs tell it in one sentence, as
  `ToldOnceExactly` does not need; a run's release step carries at most one finding, the record is never removed, and
  which repositories a process follows in memory is left out.
- ReleaseWatches.WatchTellsOnce: needs passes that move CheckedAt while a sweep holds a copy, and tags that go forward,
  which `UnmovedCheckedAtTellsTwice` and `ReturningTagTellsTwice` show.
- ReleaseSteps.StepSpeaksExactly: for tags without a space, as git's are; sentences written by the code itself are taken by
  what they are about, a run's by their text.
- ReleaseSteps.Checks.FillClientlessSteps: takes the CircleCI step as given; its sentence by sentence case analysis is not
  modelled.
- Records.DerivedFieldsAgree: takes the engine's own refusal of an entry to follow the engine's rule.
- Records.Record.Finalize: findings carry what they are about, not their wording.
- Sweeps.Sweeper.Sweep: writes one record after the other in no particular order, where the code writes several at a time
  in name order; a pass reads its sources and its records in one step, and one pass runs at a time.
- Sweeps.SweptAtMostOnce: needs one pass at a time, as `OverlappingPassWritesTwiceExactly` shows, clocks not behind the
  sweep's start and writes that do not move a record's time back; it covers the records, not the freshness of the
  histories in them.
- TeamFiles.FindEntryRange: the YAML engine is a line grammar: an entry starts at a line beginning with a dash and a space,
  comment lines directly above it are its head comment. SetField, orderKeys and the schema are left out.
- Rerender.RerenderFile: for files in which no name is declared twice, which is what makes the merge one per name; where
  an entry is removed, `TeamFiles.RemoveReads` says which neighbour gets its head comment.
- Rerender.ApplyChanges: the alphabetical insertion is devctl's and modelled by its documented behaviour; entries are
  compared as their rendered lines.
- CIJobs.MatchesAnyRef: the regular-expression engine is a parameter; only the four catch-all patterns are specified.
- Completions.Tell: sentences are opaque; the lemmas about one finding are about one sentence.
- The tools that open pull requests, list and filter the inventory and follow a new repository, the server,
  authentication and flags: each answers one request and keeps no state of its own.
- Wall-clock pacing (backoff, the REST pause, the poll and sweep schedules): durations are kept where a window or a lease
  depends on them.
