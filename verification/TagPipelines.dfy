/**
Where a tag's own pipeline stands: the fold over the newest run of every workflow name, and the rule it implements.
*/
module TagPipelines {
  import opened Common

  /** A job of a workflow; how is the word for its failure, None for a job that did not fail. */
  datatype Job = Job(name: string, how: Option<string>)

  /** devctl's classes of a workflow's status, with the status where the words need it. */
  datatype Status = Failed(word: string) | Succeeded | NotRun | Moving

  /** One run of a workflow; jobs is what the listing of its jobs answers, None when it cannot be read. */
  datatype WorkflowRun = WorkflowRun(name: string, created: Time, status: Status, jobs: Option<seq<Job>>)

  /** devctl's rule: whether a failed job leaves something of the release unpublished. */
  type Leaves = string -> bool

  predicate JobFailed(j: Job) {
    j.how.Some?
  }

  /** Some job failed, and every failed one only publishes the GitHub release. */
  predicate ReleaseOnly(jobs: seq<Job>, leaves: Leaves) {
    && (exists i :: 0 <= i < |jobs| && JobFailed(jobs[i]))
    && (forall i :: 0 <= i < |jobs| && JobFailed(jobs[i]) ==> !leaves(jobs[i].name))
  }

  /** The run failed for more than the GitHub-release job. */
  predicate IsRed(run: WorkflowRun, leaves: Leaves) {
    run.status.Failed? && run.jobs.Some? && !ReleaseOnly(run.jobs.value, leaves)
  }

  predicate IsGreen(run: WorkflowRun, leaves: Leaves) {
    run.status.Succeeded? || (run.status.Failed? && run.jobs.Some? && ReleaseOnly(run.jobs.value, leaves))
  }

  /** A failed run's jobs could not be listed. */
  predicate IsUnread(run: WorkflowRun) {
    run.status.Failed? && run.jobs.None?
  }

  /** The words for what failed in a red run: its failed jobs, or the workflow when none of them is a failure. */
  function FailureWords(run: WorkflowRun): (r: seq<string>)
    requires run.status.Failed? && run.jobs.Some?
    ensures r != []
  {
    var names := FailedJobs(run.jobs.value);
    if names == [] then [run.name + " (" + run.status.word + ")"] else names
  }

  function FailedJobs(jobs: seq<Job>): seq<string> {
    if jobs == [] then []
    else FailedJobs(jobs[..|jobs| - 1]) +
         (var j := jobs[|jobs| - 1]; if j.how.Some? then [j.name + " (" + j.how.value + ")"] else [])
  }

  /** Every failure word of the red runs, in the runs' order. */
  function AllFailures(runs: seq<WorkflowRun>, leaves: Leaves): seq<string> {
    if runs == [] then []
    else AllFailures(runs[..|runs| - 1], leaves) +
         (var run := runs[|runs| - 1]; if IsRed(run, leaves) then FailureWords(run) else [])
  }

  function CountGreen(runs: seq<WorkflowRun>, leaves: Leaves): nat {
    if runs == [] then 0
    else CountGreen(runs[..|runs| - 1], leaves) + if IsGreen(runs[|runs| - 1], leaves) then 1 else 0
  }

  function AnyMoving(runs: seq<WorkflowRun>): bool {
    runs != [] && (AnyMoving(runs[..|runs| - 1]) || runs[|runs| - 1].status.Moving?)
  }

  /** The first red run's name. */
  function FirstRed(runs: seq<WorkflowRun>, leaves: Leaves): Option<string> {
    if runs == [] then None
    else if FirstRed(runs[..|runs| - 1], leaves).Some? then FirstRed(runs[..|runs| - 1], leaves)
    else if IsRed(runs[|runs| - 1], leaves) then Some(runs[|runs| - 1].name)
    else None
  }

  /** The pipeline as the fold leaves it; workflow is the first failed workflow, for the link. */
  class TagPipeline {
    var workflow: Option<string>
    var failed: seq<string>
    var running: bool
    var succeeded: nat

    constructor ()
      ensures workflow == None && failed == [] && !running && succeeded == 0
    {
      workflow, failed, running, succeeded := None, [], false, 0;
    }

    predicate Red()
      reads this
    {
      |failed| > 0
    }

    predicate Built()
      reads this
    {
      !Red() && !running && succeeded > 0
    }

    /** Reads the newest runs; ok says every listing of a failed run's jobs was read. */
    method Read(newest: seq<WorkflowRun>, leaves: Leaves) returns (ok: bool)
      requires workflow == None && failed == [] && !running && succeeded == 0
      modifies this
      ensures ok <==> forall i :: 0 <= i < |newest| ==> !IsUnread(newest[i])
      ensures ok ==> failed == AllFailures(newest, leaves) && workflow == FirstRed(newest, leaves)
      ensures ok ==> (Red() <==> SomeRed(newest, leaves))
      ensures ok ==> (Built() <==> ReadsBuilt(newest, leaves))
      ensures ok && Red() ==> workflow.Some?
    {
      for n := 0 to |newest|
        invariant forall i :: 0 <= i < n ==> !IsUnread(newest[i])
        invariant failed == AllFailures(newest[..n], leaves)
        invariant running == AnyMoving(newest[..n])
        invariant succeeded == CountGreen(newest[..n], leaves)
        invariant workflow == FirstRed(newest[..n], leaves)
      {
        var run := newest[n];
        assert newest[..n + 1][..n] == newest[..n];
        match run.status {
          case Failed(_) =>
            if run.jobs.None? {
              return false;
            }
            if ReleaseOnly(run.jobs.value, leaves) {
              succeeded := succeeded + 1;
            } else {
              failed := failed + FailureWords(run);
              if workflow.None? {
                workflow := Some(run.name);
              }
            }
          case Succeeded => succeeded := succeeded + 1;
          case NotRun =>
          case Moving => running := true;
        }
      }
      assert newest[..|newest|] == newest;
      FoldMeansRule(newest, leaves);
      return true;
    }
  }

  // ----- the rule, on all the runs of a pipeline

  /** The run failed, its jobs were read, and they do not put it down to the GitHub release alone: none of them failed,
      or one that leaves something of the release unpublished did. */
  ghost predicate FailedForMore(run: WorkflowRun, leaves: Leaves) {
    && run.status.Failed? && run.jobs.Some?
    && ((forall j :: j in run.jobs.value ==> j.how.None?)
        || exists j :: j in run.jobs.value && j.how.Some? && leaves(j.name))
  }

  /** The run succeeded, or failed in nothing but the GitHub release, which exists. */
  ghost predicate WentGreen(run: WorkflowRun, leaves: Leaves) {
    || run.status.Succeeded?
    || (&& run.status.Failed? && run.jobs.Some? && (exists j :: j in run.jobs.value && j.how.Some?)
        && forall j :: j in run.jobs.value && j.how.Some? ==> !leaves(j.name))
  }

  lemma RunMeans(run: WorkflowRun, leaves: Leaves)
    ensures IsRed(run, leaves) <==> FailedForMore(run, leaves)
    ensures IsGreen(run, leaves) <==> WentGreen(run, leaves)
  {
    if run.jobs.Some? {
      var jobs := run.jobs.value;
      if exists j :: j in jobs && j.how.Some? {
        var j :| j in jobs && j.how.Some?;
        var i :| 0 <= i < |jobs| && jobs[i] == j;
      }
      if exists j :: j in jobs && j.how.Some? && leaves(j.name) {
        var j :| j in jobs && j.how.Some? && leaves(j.name);
        var i :| 0 <= i < |jobs| && jobs[i] == j;
      }
    }
  }

  ghost predicate SomeRed(runs: seq<WorkflowRun>, leaves: Leaves) {
    exists run :: run in runs && FailedForMore(run, leaves)
  }

  ghost predicate SomeMoving(runs: seq<WorkflowRun>) {
    exists run :: run in runs && run.status.Moving?
  }

  ghost predicate SomeGreen(runs: seq<WorkflowRun>, leaves: Leaves) {
    exists run :: run in runs && WentGreen(run, leaves)
  }

  ghost predicate ReadsBuilt(runs: seq<WorkflowRun>, leaves: Leaves) {
    !SomeRed(runs, leaves) && !SomeMoving(runs) && SomeGreen(runs, leaves)
  }

  /** What the fold counts is what the rule asks. */
  lemma {:induction false} FoldMeansRule(runs: seq<WorkflowRun>, leaves: Leaves)
    ensures AllFailures(runs, leaves) != [] <==> SomeRed(runs, leaves)
    ensures FirstRed(runs, leaves).Some? <==> SomeRed(runs, leaves)
    ensures AnyMoving(runs) <==> SomeMoving(runs)
    ensures CountGreen(runs, leaves) > 0 <==> SomeGreen(runs, leaves)
  {
    if runs != [] {
      var front, last := runs[..|runs| - 1], runs[|runs| - 1];
      FoldMeansRule(front, leaves);
      RunMeans(last, leaves);
      assert forall run :: run in runs <==> run in front || run == last;
    }
  }

  /** The word names a failed job of the run and how it failed, or the workflow where none of its jobs did. */
  ghost predicate NamesFailure(run: WorkflowRun, word: string) {
    && run.status.Failed? && run.jobs.Some?
    && ((exists j :: j in run.jobs.value && j.how.Some? && word == j.name + " (" + j.how.value + ")")
        || ((forall j :: j in run.jobs.value ==> j.how.None?)
            && word == run.name + " (" + run.status.word + ")"))
  }

  lemma {:induction false} FailedJobsNamed(jobs: seq<Job>, word: string)
    ensures word in FailedJobs(jobs) <==>
              exists j :: j in jobs && j.how.Some? && word == j.name + " (" + j.how.value + ")"
    ensures FailedJobs(jobs) == [] <==> forall j :: j in jobs ==> j.how.None?
  {
    if jobs != [] {
      var front, last := jobs[..|jobs| - 1], jobs[|jobs| - 1];
      FailedJobsNamed(front, word);
      assert forall j :: j in jobs <==> j in front || j == last;
    }
  }

  /** A red pipeline names, of its runs that failed for more than the GitHub release, every failed job and nothing
      else. */
  lemma {:induction false} FailuresExactly(runs: seq<WorkflowRun>, leaves: Leaves, word: string)
    ensures word in AllFailures(runs, leaves) <==>
              exists run :: run in runs && FailedForMore(run, leaves) && NamesFailure(run, word)
  {
    if runs != [] {
      var front, last := runs[..|runs| - 1], runs[|runs| - 1];
      FailuresExactly(front, leaves, word);
      RunMeans(last, leaves);
      if last.jobs.Some? {
        FailedJobsNamed(last.jobs.value, word);
      }
      assert forall run :: run in runs <==> run in front || run == last;
    }
  }

  /** run is the newest of its name. */
  ghost predicate Newest(all: seq<WorkflowRun>, run: WorkflowRun) {
    run in all && forall other :: other in all && other.name == run.name ==> other.created <= run.created
  }

  predicate HasName(runs: seq<WorkflowRun>, name: string) {
    exists i :: 0 <= i < |runs| && runs[i].name == name
  }

  /** A selection of the newest run of every name, in any order. */
  ghost predicate Selects(all: seq<WorkflowRun>, newest: seq<WorkflowRun>) {
    && (forall run :: run in newest ==> Newest(all, run))
    && (forall run {:trigger HasName(newest, run.name)} :: run in all ==> HasName(newest, run.name))
  }

  /** Two runs of one name start at different times. */
  ghost predicate DistinctStarts(all: seq<WorkflowRun>) {
    forall a, b :: a in all && b in all && a.name == b.name && a.created == b.created ==> a == b
  }

  lemma SelectsAll(all: seq<WorkflowRun>, newest: seq<WorkflowRun>, run: WorkflowRun)
    requires Selects(all, newest) && DistinctStarts(all)
    ensures run in newest <==> Newest(all, run)
  {
    if Newest(all, run) {
      assert HasName(newest, run.name);
      var i :| 0 <= i < |newest| && newest[i].name == run.name;
      assert Newest(all, newest[i]);
    }
  }

  /** The answer is the same however the runs were listed and the newest ordered. */
  lemma OrderDoesNotMatter(all: seq<WorkflowRun>, all': seq<WorkflowRun>, newest: seq<WorkflowRun>,
      newest': seq<WorkflowRun>, leaves: Leaves)
    requires forall run :: run in all <==> run in all'
    requires DistinctStarts(all) && Selects(all, newest) && Selects(all', newest')
    ensures SomeRed(newest, leaves) <==> SomeRed(newest', leaves)
    ensures ReadsBuilt(newest, leaves) <==> ReadsBuilt(newest', leaves)
  {
    forall run
      ensures run in newest <==> run in newest'
    {
      SelectsAll(all, newest, run);
      SelectsAll(all', newest', run);
    }
  }

  /** Reruns from failed: newer green runs, one for every name whose newest run is red. */
  ghost predicate GreenReruns(all: seq<WorkflowRun>, newest: seq<WorkflowRun>, reruns: seq<WorkflowRun>,
      leaves: Leaves) {
    && (forall rerun :: rerun in reruns ==> rerun.status.Succeeded?)
    && (forall rerun, run :: rerun in reruns && run in all && run.name == rerun.name ==> run.created < rerun.created)
    && (forall run :: run in newest && IsRed(run, leaves) ==> HasName(reruns, run.name))
  }

  /** A settled red pipeline whose failed names all have a newer green run is built. */
  lemma RerunsTurnRedBuilt(all: seq<WorkflowRun>, newest: seq<WorkflowRun>, reruns: seq<WorkflowRun>,
      newest': seq<WorkflowRun>, leaves: Leaves)
    requires Selects(all, newest) && DistinctStarts(all) && SomeRed(newest, leaves) && !SomeMoving(newest)
    requires GreenReruns(all, newest, reruns, leaves) && Selects(all + reruns, newest')
    ensures ReadsBuilt(newest', leaves)
  {
    forall run | run in newest'
      ensures !IsRed(run, leaves) && !run.status.Moving?
    {
      AfterReruns(all, newest, reruns, leaves, run);
    }
    var red :| red in newest && IsRed(red, leaves);
    var k :| 0 <= k < |reruns| && reruns[k].name == red.name;
    RerunSelected(all, reruns, newest', reruns[k]);
  }

  /** A name that was rerun is read from one of the reruns. */
  lemma RerunSelected(all: seq<WorkflowRun>, reruns: seq<WorkflowRun>, newest': seq<WorkflowRun>, rerun: WorkflowRun)
    requires Selects(all + reruns, newest') && rerun in reruns
    requires forall run :: run in all && run.name == rerun.name ==> run.created < rerun.created
    ensures exists run :: run in newest' && run in reruns
  {
    assert rerun in all + reruns;
    assert HasName(newest', rerun.name);
    var i :| 0 <= i < |newest'| && newest'[i].name == rerun.name;
    assert Newest(all + reruns, newest'[i]);
  }

  lemma AfterReruns(all: seq<WorkflowRun>, newest: seq<WorkflowRun>, reruns: seq<WorkflowRun>, leaves: Leaves,
      run: WorkflowRun)
    requires Selects(all, newest) && DistinctStarts(all) && !SomeMoving(newest)
    requires GreenReruns(all, newest, reruns, leaves) && Newest(all + reruns, run)
    ensures !IsRed(run, leaves) && !run.status.Moving?
  {
    if run !in reruns {
      assert Newest(all, run) by {
        forall other | other in all && other.name == run.name
          ensures other.created <= run.created
        {
          assert other in all + reruns;
        }
      }
      SelectsAll(all, newest, run);
      if HasName(reruns, run.name) {
        OutrunByRerun(all, reruns, run);
      }
    }
  }

  /** A run whose name was rerun is no longer the newest of it. */
  lemma OutrunByRerun(all: seq<WorkflowRun>, reruns: seq<WorkflowRun>, run: WorkflowRun)
    requires run in all && HasName(reruns, run.name)
    requires forall rerun :: rerun in reruns && run.name == rerun.name ==> run.created < rerun.created
    ensures !Newest(all + reruns, run)
  {
    var k :| 0 <= k < |reruns| && reruns[k].name == run.name;
    assert reruns[k] in all + reruns;
  }
}
