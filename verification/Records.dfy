/**
The derived fields of a stored record, its findings and the converged flag of its engine check, under everything that
writes the record: refreshes, sweeps, release-watch passes, expected-run marks.
*/
module Records {
  import opened Common
  import CIJobs
  import ExpectedRuns
  import ReleaseSteps
  import ReleaseWatches

  const LIFECYCLE_DELETED := "deleted"
  const LIFECYCLE_ARCHIVED := "archived"

  datatype Declaration = Declaration(file: string, lifecycle: string, accepted: bool, unknownFields: seq<string>)

  datatype Reality = Reality(branch: string, archived: bool, release: Option<ReleaseSteps.ReadRelease>)

  /** A reconciler's run: at is its time as it is written. */
  datatype LastRun = LastRun(at: string, steps: seq<ReleaseSteps.StepResult>, told: bool)

  /** The set-up state, which outlives a rebuild of the record. */
  datatype Setup = Setup(expected: ExpectedRuns.Setup, checks: Option<ReleaseSteps.Result>, lastRun: Option<LastRun>,
      release: Option<ReleaseWatches.Watch>)

  const NO_SETUP := Setup(ExpectedRuns.NOTHING, None, None, None)

  /** What a rebuild reads: circleci is the CircleCI step the repository's statuses give. */
  datatype Sources = Sources(declaration: Option<Declaration>, reality: Option<Reality>, jobs: seq<CIJobs.CIJob>,
      circleci: ReleaseSteps.StepResult)

  datatype Finding =
    | DeclaredButGone(file: string, archived: bool)
    | UndeclaredOnGitHub
    | ReconcileRunMissing(run: ExpectedRuns.MissingRun)
    | EntryFieldUnknown(file: string, fields: seq<string>)
    | Engine(found: ReleaseSteps.Finding)

  /** The record as the store holds it. */
  datatype Stored = Stored(sources: Sources, setup: Setup, findings: seq<Finding>)

  function StepFindings(found: seq<ReleaseSteps.Finding>): seq<Finding> {
    if found == [] then [] else StepFindings(found[..|found| - 1]) + [Engine(found[|found| - 1])]
  }

  function EngineFindings(steps: seq<ReleaseSteps.StepResult>): seq<Finding> {
    if steps == [] then [] else EngineFindings(steps[..|steps| - 1]) + StepFindings(steps[|steps| - 1].findings)
  }

  function PresenceFindings(s: Sources): seq<Finding> {
    if s.declaration.Some? && s.reality.None? then
      var d := s.declaration.value;
      if d.lifecycle == LIFECYCLE_DELETED then [] else [DeclaredButGone(d.file, d.lifecycle == LIFECYCLE_ARCHIVED)]
    else if s.declaration.None? && s.reality.Some? then [UndeclaredOnGitHub]
    else []
  }

  function FieldFindings(s: Sources): seq<Finding> {
    if s.declaration.Some? && s.declaration.value.accepted && s.declaration.value.unknownFields != []
    then [EntryFieldUnknown(s.declaration.value.file, s.declaration.value.unknownFields)] else []
  }

  function RunFindings(e: ExpectedRuns.Setup): seq<Finding> {
    if e.missing.Some? then [ReconcileRunMissing(e.missing.value)] else []
  }

  /** The findings the record's facts call for. */
  function FindingsOf(s: Sources, setup: Setup): seq<Finding> {
    PresenceFindings(s) + RunFindings(setup.expected) + FieldFindings(s)
    + if setup.checks.Some? then EngineFindings(setup.checks.value.steps) else []
  }

  /** Findings and flag say what the facts say. */
  predicate Agrees(s: Stored) {
    && s.findings == FindingsOf(s.sources, s.setup)
    && (s.setup.checks.Some? ==> ReleaseSteps.Agrees(s.setup.checks.value))
  }

  predicate WatchReachable(s: Stored) {
    s.setup.release.Some? ==> ReleaseWatches.WellFormed(s.setup.release.value)
  }

  /** The release step of the last run, unless no run reports it or that run skipped it. */
  function RunStep(last: Option<LastRun>): (r: Option<ReleaseSteps.StepResult>)
    ensures r.Some? ==> r.value.verdict != ReleaseSteps.Skipped
  {
    if last.None? then None
    else
      var k := ReleaseSteps.IndexOf(last.value.steps, ReleaseSteps.Release);
      if k.None? || last.value.steps[k.value].verdict == ReleaseSteps.Skipped then None
          else Some(last.value.steps[k.value])
  }

  /** What the record knows of its release. */
  function FactsOf(s: Sources, setup: Setup): ReleaseSteps.Facts
    requires s.reality.Some?
  {
    ReleaseSteps.Facts(s.reality.value.branch, s.reality.value.release, s.jobs, RunStep(setup.lastRun),
                       if setup.lastRun.Some? then setup.lastRun.value.at else "", setup.release)
  }

  /** The check's steps after the watch wrote its release step. */
  function RewrittenSetup(s: Sources, setup: Setup, rules: ReleaseSteps.Rules): Setup
    requires setup.release.Some? ==> ReleaseWatches.WellFormed(setup.release.value)
  {
    if setup.release.None? || setup.checks.None? || s.reality.None? then setup
    else setup.(checks := Some(ReleaseSteps.Rewritten(setup.checks.value, FactsOf(s, setup), rules)))
  }

  function Finalized(s: Sources, setup: Setup): Stored {
    Stored(s, setup, FindingsOf(s, setup))
  }

  /** keepRelease: the stored record's watch goes into the record a sweep is about to write when it is the newer. */
  function Kept(s: Stored, stored: Option<Stored>, rules: ReleaseSteps.Rules): Stored
    requires stored.Some? ==> WatchReachable(stored.value)
  {
    if stored.None? || stored.value.setup.release.None? then s
    else
      var w := stored.value.setup.release.value;
      if s.setup.release.None? || w.checkedAt > s.setup.release.value.checkedAt
      then Finalized(s.sources, RewrittenSetup(s.sources, s.setup.(release := Some(w)), rules))
      else s
  }

  /** What a check meets: whether there is an engine, whether the sources declare the repository, the refusal of a
      refused entry, whether the pause before it ended well, and the engine's result, if it gave one. */
  datatype CheckRun = CheckRun(engine: bool, declared: bool, refusal: ReleaseSteps.Result, paced: bool,
      result: Option<ReleaseSteps.Result>)

  /** The engine's refusal of an entry follows its own rule. */
  predicate Possible(c: CheckRun) {
    ReleaseSteps.Agrees(c.refusal)
  }

  function Checked(s: Sources, setup: Setup, c: CheckRun, keepOld: bool, rules: ReleaseSteps.Rules): Setup
    requires setup.release.Some? ==> ReleaseWatches.WellFormed(setup.release.value)
  {
    if !c.engine then setup
    else if s.declaration.None? || !c.declared then setup.(checks := None)
    else if !s.declaration.value.accepted then setup.(checks := Some(c.refusal))
    else if s.reality.None? then setup.(checks := None)
    else if !c.paced then setup
    else if c.result.None? then (if keepOld then setup else setup.(checks := None))
    else setup.(checks := Some(ReleaseSteps.FilledSteps(c.result.value, s.circleci, FactsOf(s, setup), rules)))
  }

  /** A record in memory, as it is read, changed and written. */
  class Record {
    var sources: Sources
    var expected: ExpectedRuns.Setup
    var checks: ReleaseSteps.Checks?
    var lastRun: Option<LastRun>
    var release: Option<ReleaseWatches.Watch>
    var findings: seq<Finding>

    constructor (s: Stored)
      ensures Value() == s && (checks != null ==> fresh(checks))
    {
      sources, expected, lastRun, release := s.sources, s.setup.expected, s.setup.lastRun, s.setup.release;
      findings := s.findings;
      if s.setup.checks.Some? {
        var copy := new ReleaseSteps.Checks(s.setup.checks.value);
        checks := copy;
      } else {
        checks := null;
      }
    }

    function SetupValue(): Setup
      reads this, checks
    {
      Setup(expected, if checks == null then None else Some(checks.Value()), lastRun, release)
    }

    function Value(): Stored
      reads this, checks
    {
      Stored(sources, SetupValue(), findings)
    }

    /** Computes the findings, one source of them after the other. */
    method Finalize()
      modifies this`findings
      ensures Value() == Finalized(old(sources), old(SetupValue()))
    {
      var out := Present(sources);
      if expected.missing.Some? {
        out := out + [ReconcileRunMissing(expected.missing.value)];
      }
      assert out == PresenceFindings(sources) + RunFindings(expected);
      var d := sources.declaration;
      if d.Some? && d.value.accepted && |d.value.unknownFields| > 0 {
        out := out + [EntryFieldUnknown(d.value.file, d.value.unknownFields)];
      }
      assert out == PresenceFindings(sources) + RunFindings(expected) + FieldFindings(sources);
      if checks != null {
        var engine := AppendFindings(checks.steps);
        out := out + engine;
      }
      findings := out;
    }

    static method Present(s: Sources) returns (out: seq<Finding>)
      ensures out == PresenceFindings(s)
    {
      out := [];
      if s.declaration.Some? && s.reality.None? {
        var d := s.declaration.value;
        if d.lifecycle != LIFECYCLE_DELETED {
          out := out + [DeclaredButGone(d.file, d.lifecycle == LIFECYCLE_ARCHIVED)];
        }
      } else if s.declaration.None? && s.reality.Some? {
        out := out + [UndeclaredOnGitHub];
      }
    }

    static method AppendFindings(steps: seq<ReleaseSteps.StepResult>) returns (out: seq<Finding>)
      ensures out == EngineFindings(steps)
    {
      out := [];
      for i := 0 to |steps|
        invariant out == EngineFindings(steps[..i])
      {
        assert steps[..i + 1][..i] == steps[..i];
        var found := steps[i].findings;
        for k := 0 to |found|
          invariant out == EngineFindings(steps[..i]) + StepFindings(found[..k])
        {
          assert found[..k + 1][..k] == found[..k];
          out := out + [Engine(found[k])];
        }
        assert found[..|found|] == found;
      }
      assert steps[..|steps|] == steps;
    }

    method RewriteReleaseStep(rules: ReleaseSteps.Rules)
      requires WatchReachable(Value())
      modifies checks
      ensures SetupValue() == RewrittenSetup(old(sources), old(SetupValue()), rules)
    {
      if release.None? || checks == null || sources.reality.None? {
        return;
      }
      checks.RewriteReleaseStep(FactsOf(sources, SetupValue()), rules);
    }

    method KeepRelease(stored: Option<Stored>, rules: ReleaseSteps.Rules)
      requires stored.Some? ==> WatchReachable(stored.value)
      modifies this, checks
      ensures Value() == Kept(old(Value()), stored, rules) && checks == old(checks)
    {
      if stored.None? || stored.value.setup.release.None? {
        return;
      }
      var w := stored.value.setup.release.value;
      if release.None? || w.checkedAt > release.value.checkedAt {
        release := Some(w);
        RewriteReleaseStep(rules);
        Finalize();
      }
    }

    /** The engine's check of an accepted, present declaration; keepOld leaves an older result where the check fails. */
    method Check(c: CheckRun, keepOld: bool, rules: ReleaseSteps.Rules)
      requires WatchReachable(Value())
      modifies this
      ensures SetupValue() == Checked(old(sources), old(SetupValue()), c, keepOld, rules) && sources == old(sources)
    {
      if !c.engine {
        return;
      }
      if sources.declaration.None? || !c.declared {
        checks := null;
        return;
      }
      if !sources.declaration.value.accepted {
        checks := new ReleaseSteps.Checks(c.refusal);
        return;
      }
      if sources.reality.None? {
        checks := null;
        return;
      }
      if !c.paced {
        return;
      }
      if c.result.None? {
        if !keepOld {
          checks := null;
        }
        return;
      }
      var res := new ReleaseSteps.Checks(c.result.value);
      res.FillClientlessSteps(sources.circleci, FactsOf(sources, SetupValue()), rules);
      checks := res;
    }

    /** A dispatch, an opened or closed pull request, a give-up: the mark moves and the findings follow. */
    method Mark(e: ExpectedRuns.Setup)
      modifies this
      ensures Value() == Finalized(old(sources), old(SetupValue()).(expected := e)) && checks == old(checks)
    {
      expected := e;
      Finalize();
    }
  }

  // ---- histories of one repository's record

  datatype Event =
    | Refreshes(read: Sources, run: Option<LastRun>, check: CheckRun)
    | SweepReads
    | SweepWrites(read: Sources, check: CheckRun)
    | WatchPass(release: Option<ReleaseSteps.ReadRelease>, watch: ReleaseWatches.Watch, told: string)
    | Marked(e: ExpectedRuns.Setup)
    | Noted(pending: ExpectedRuns.PendingRun)
    | RunTold
    | Dropped

  datatype History = History(stored: Option<Stored>, copy: Option<Stored>)

  const EMPTY_SOURCES := Sources(None, None, [],
      ReleaseSteps.StepResult(ReleaseSteps.CircleCI, ReleaseSteps.Skipped, ReleaseSteps.Text(""), [], []))

  function SetupOf(s: Option<Stored>): Setup {
    if s.Some? then s.value.setup else NO_SETUP
  }

  predicate MayHappen(e: Event) {
    match e
    case Refreshes(_, _, check) => Possible(check)
    case SweepWrites(_, check) => Possible(check)
    case WatchPass(_, w, told) => ReleaseWatches.WellFormed(w.(told := told)) && ReleaseWatches.WellFormed(w)
    case _ => true
  }

  ghost predicate Reachable(s: Option<Stored>) {
    s.Some? ==> Agrees(s.value) && WatchReachable(s.value)
  }

  /** The record stands for a repository its reconciler run will create. */
  predicate AwaitsCreation(s: Stored) {
    s.sources.declaration.None? && s.sources.reality.None? && s.setup.expected.pending.Some?
  }

  /** The release watch leaves a record alone that nobody is told of or that releases nothing. */
  predicate Watchable(s: Option<Stored>) {
    s.Some? && s.value.sources.declaration.Some? && s.value.sources.reality.Some? &&
        !s.value.sources.reality.value.archived
  }

  /** One event as the code stores it. A refresh and a sweep rebuild the record around the set-up state of the record
      they read, which for a sweep is its copy; a refresh with a run takes the run and ends what was expected. */
  function Happen(h: History, e: Event, rules: ReleaseSteps.Rules): History
    requires (h.stored.Some? ==> WatchReachable(h.stored.value)) && (h.copy.Some? ==> WatchReachable(h.copy.value)) &&
        MayHappen(e)
  {
    match e
    case Refreshes(read, run, check) =>
      var before := SetupOf(h.stored);
      var setup := if run.Some? then before.(lastRun := run, expected := ExpectedRuns.NOTHING) else before;
      if read.declaration.None? && read.reality.None? then
        if h.stored.Some? && AwaitsCreation(h.stored.value) then h else h.(stored := None)
      else h.(stored := Some(Finalized(read, Checked(read, setup, check, false, rules))))
    case SweepReads => h.(copy := h.stored)
    case SweepWrites(read, check) =>
      var built := Finalized(read, Checked(read, SetupOf(h.copy), check, true, rules));
      h.(stored := Some(Kept(built, h.stored, rules)))
    case WatchPass(release, w, told) =>
      if !Watchable(h.stored) then h
      else
        var s := h.stored.value;
        var sources := s.sources.(reality := Some(s.sources.reality.value.(release := release)));
        var setup := RewrittenSetup(sources, s.setup.(release := Some(w)), rules);
        var done := Finalized(sources, setup);
        h.(stored := Some(done.(setup := setup.(release := Some(w.(told := told))))))
    case Marked(e) =>
      var s := if h.stored.Some? then h.stored.value else Stored(EMPTY_SOURCES, NO_SETUP, []);
      h.(stored := Some(Finalized(s.sources, s.setup.(expected := e))))
    case Noted(pending) =>
      if h.stored.None? || h.stored.value.setup.expected.pending.None? then h
      else
        var s := h.stored.value;
        h.(stored := Some(s.(setup := s.setup.(expected := s.setup.expected.(pending := Some(pending))))))
    case RunTold =>
      if h.stored.None? || h.stored.value.setup.lastRun.None? then h
      else
        var s := h.stored.value;
        h.(stored := Some(s.(setup := s.setup.(lastRun := Some(s.setup.lastRun.value.(told := true))))))
    case Dropped => h.(stored := None)
  }

  lemma RewriteKeepsAgreement(s: Sources, setup: Setup, rules: ReleaseSteps.Rules)
    requires setup.release.Some? ==> ReleaseWatches.WellFormed(setup.release.value)
    requires setup.checks.Some? ==> ReleaseSteps.Agrees(setup.checks.value)
    ensures var setup' := RewrittenSetup(s, setup, rules);
            setup' == setup.(checks := setup'.checks) &&
                (setup'.checks.Some? ==> ReleaseSteps.Agrees(setup'.checks.value))
  {
  }

  lemma CheckKeepsAgreement(s: Sources, setup: Setup, c: CheckRun, keepOld: bool, rules: ReleaseSteps.Rules)
    requires setup.release.Some? ==> ReleaseWatches.WellFormed(setup.release.value)
    requires Possible(c) && (setup.checks.Some? ==> ReleaseSteps.Agrees(setup.checks.value))
    ensures var setup' := Checked(s, setup, c, keepOld, rules);
            setup' == setup.(checks := setup'.checks) &&
                (setup'.checks.Some? ==> ReleaseSteps.Agrees(setup'.checks.value))
  {
  }

  lemma KeepKeepsAgreement(s: Stored, stored: Option<Stored>, rules: ReleaseSteps.Rules)
    requires Agrees(s) && WatchReachable(s) && Reachable(stored)
    ensures Agrees(Kept(s, stored, rules)) && WatchReachable(Kept(s, stored, rules))
  {
    if stored.Some? && stored.value.setup.release.Some? {
      RewriteKeepsAgreement(s.sources, s.setup.(release := stored.value.setup.release), rules);
    }
  }

  lemma EventKeepsAgreement(h: History, e: Event, rules: ReleaseSteps.Rules)
    requires Reachable(h.stored) && Reachable(h.copy) && MayHappen(e)
    ensures Reachable(Happen(h, e, rules).stored) && Reachable(Happen(h, e, rules).copy)
  {
    match e
    case Refreshes(read, run, check) =>
      var before := SetupOf(h.stored);
      var setup := if run.Some? then before.(lastRun := run, expected := ExpectedRuns.NOTHING) else before;
      CheckKeepsAgreement(read, setup, check, false, rules);
    case SweepWrites(read, check) =>
      CheckKeepsAgreement(read, SetupOf(h.copy), check, true, rules);
      KeepKeepsAgreement(Finalized(read, Checked(read, SetupOf(h.copy), check, true, rules)), h.stored, rules);
    case WatchPass(release, w, told) =>
      if Watchable(h.stored) {
        var s := h.stored.value;
        var sources := s.sources.(reality := Some(s.sources.reality.value.(release := release)));
        RewriteKeepsAgreement(sources, s.setup.(release := Some(w)), rules);
      }
    case _ =>
  }

  ghost predicate IsHistory(hs: seq<History>, es: seq<Event>, rules: ReleaseSteps.Rules) {
    && |hs| == |es| + 1 && hs[0] == History(None, None)
    && forall i :: 0 <= i < |es| ==> MayHappen(es[i]) && Follows(hs[i], es[i], hs[i + 1], rules)
  }

  ghost predicate Follows(h: History, e: Event, h': History, rules: ReleaseSteps.Rules) {
    && MayHappen(e) && (h.stored.Some? ==> WatchReachable(h.stored.value)) &&
        (h.copy.Some? ==> WatchReachable(h.copy.value))
    && h' == Happen(h, e, rules)
  }

  /** The derived fields always agree with the facts: whatever refreshes, sweeps, watch passes, marks and notes have
      happened in whatever order, the stored findings are those the facts call for and the check is converged exactly
      when every step converges. */
  lemma {:induction false} DerivedFieldsAgree(hs: seq<History>, es: seq<Event>, rules: ReleaseSteps.Rules, n: nat)
    requires IsHistory(hs, es, rules) && n <= |es|
    ensures Reachable(hs[n].stored) && Reachable(hs[n].copy)
  {
    if n > 0 {
      DerivedFieldsAgree(hs, es, rules, n - 1);
      assert Follows(hs[n - 1], es[n - 1], hs[n - 1 + 1], rules);
      EventKeepsAgreement(hs[n - 1], es[n - 1], rules);
    }
  }

  // ---- what the derived fields tell

  lemma {:induction false} StepFindingsHas(found: seq<ReleaseSteps.Finding>, x: ReleaseSteps.Finding)
    ensures Engine(x) in StepFindings(found) <==> x in found
    ensures forall f :: f in StepFindings(found) ==> f.Engine?
  {
    if found != [] {
      var front := found[..|found| - 1];
      assert found == front + [found[|found| - 1]];
      StepFindingsHas(front, x);
    }
  }

  lemma {:induction false} EngineFindingsHas(steps: seq<ReleaseSteps.StepResult>, x: ReleaseSteps.Finding)
    ensures Engine(x) in EngineFindings(steps) <==> exists i :: 0 <= i < |steps| && x in steps[i].findings
    ensures forall f :: f in EngineFindings(steps) ==> f.Engine?
  {
    if steps != [] {
      var front, last := steps[..|steps| - 1], steps[|steps| - 1];
      EngineFindingsHas(front, x);
      StepFindingsHas(last.findings, x);
      if Engine(x) in EngineFindings(front) {
        var i :| 0 <= i < |front| && x in front[i].findings;
        assert steps[i] == front[i];
      }
      if exists i :: 0 <= i < |steps| && x in steps[i].findings {
        var i :| 0 <= i < |steps| && x in steps[i].findings;
        assert i < |front| ==> front[i] == steps[i];
      }
    }
  }

  /** The engine's part of an agreeing record's findings is exactly what the steps found. */
  lemma FindingShows(s: Stored, x: ReleaseSteps.Finding)
    requires Agrees(s) && s.setup.checks.Some?
    ensures var steps := s.setup.checks.value.steps;
            Engine(x) in s.findings <==> exists i :: 0 <= i < |steps| && x in steps[i].findings
  {
    EngineFindingsHas(s.setup.checks.value.steps, x);
    var own := PresenceFindings(s.sources) + RunFindings(s.setup.expected) + FieldFindings(s.sources);
    assert forall f :: f in own ==> !f.Engine?;
    assert s.findings == own + EngineFindings(s.setup.checks.value.steps);
  }

  /** Every other finding is there on exactly its cause: a declared repository that is gone and not declared deleted,
      one on GitHub that is not declared, a run that is missing, an accepted entry with fields nobody knows. */
  lemma FindingsExactly(s: Stored, x: Finding)
    requires Agrees(s) && !x.Engine?
    ensures x in s.findings <==>
              match x
              case DeclaredButGone(file, archived) =>
                && s.sources.declaration.Some? && s.sources.reality.None?
                && s.sources.declaration.value.lifecycle != "deleted"
                && file == s.sources.declaration.value.file
                && (archived <==> s.sources.declaration.value.lifecycle == "archived")
              case UndeclaredOnGitHub => s.sources.declaration.None? && s.sources.reality.Some?
              case ReconcileRunMissing(run) => s.setup.expected.missing == Some(run)
              case EntryFieldUnknown(file, fields) =>
                && s.sources.declaration.Some? && s.sources.declaration.value.accepted
                && fields == s.sources.declaration.value.unknownFields != []
                && file == s.sources.declaration.value.file
  {
    if s.setup.checks.Some? {
      EngineFindingsHas(s.setup.checks.value.steps, ReleaseSteps.Finding(ReleaseSteps.Unchecked, ReleaseSteps.Text(""),
                                                                         false));
    }
    var own := PresenceFindings(s.sources) + RunFindings(s.setup.expected) + FieldFindings(s.sources);
    assert x in s.findings <==> x in own;
  }

  predicate NoneBroken(steps: seq<ReleaseSteps.StepResult>) {
    forall i :: 0 <= i < |steps| ==> steps[i].verdict != ReleaseSteps.Drift && steps[i].verdict != ReleaseSteps.Failed
  }

  /** The two derived fields tell one story: a record's check is converged exactly when no step drifted or failed and
      every engine finding the record shows is advisory. */
  lemma FlagReadsInFindings(s: Stored)
    requires Agrees(s) && s.setup.checks.Some?
    ensures s.setup.checks.value.converged
       <==> NoneBroken(s.setup.checks.value.steps) && forall x :: Engine(x) in s.findings ==> x.advisory
  {
    var steps := s.setup.checks.value.steps;
    if s.setup.checks.value.converged {
      forall x | Engine(x) in s.findings ensures x.advisory {
        FindingShows(s, x);
        var i :| 0 <= i < |steps| && x in steps[i].findings;
        assert steps[i].Converges();
      }
    }
    if NoneBroken(steps) && forall x :: Engine(x) in s.findings ==> x.advisory {
      forall i | 0 <= i < |steps| ensures steps[i].Converges() {
        forall k | 0 <= k < |steps[i].findings| ensures steps[i].findings[k].advisory {
          FindingShows(s, steps[i].findings[k]);
        }
      }
    }
  }

  /** A red release the watch read shows on the record: a pass over a record with a release step of its own stores the
      finding naming the failed jobs, and with it the check is not converged, whatever the statuses or a run said. */
  lemma RedReleaseShows(h: History, release: Option<ReleaseSteps.ReadRelease>, w: ReleaseWatches.Watch, told: string,
      rules: ReleaseSteps.Rules)
    requires Reachable(h.stored) && Reachable(h.copy) && MayHappen(WatchPass(release, w, told)) &&
        w.state == ReleaseWatches.Red
    requires Watchable(h.stored) && h.stored.value.setup.checks.Some?
    requires ReleaseSteps.Writable(h.stored.value.setup.checks.value) && ReleaseSteps.LatestTag(release, w) == w.tag
    requires !rules.advisory(ReleaseSteps.RedRelease)
    ensures var s := Happen(h, WatchPass(release, w, told), rules).stored.value;
            && s.setup.release == Some(w.(told := told))
            && s.setup.checks.Some? && !s.setup.checks.value.converged
            && Engine(RedFinding(w)) in s.findings
  {
    var before := h.stored.value;
    var sources := before.sources.(reality := Some(before.sources.reality.value.(release := release)));
    var facts := FactsOf(sources, before.setup.(release := Some(w)));
    EventKeepsAgreement(h, WatchPass(release, w, told), rules);
    var s := Happen(h, WatchPass(release, w, told), rules).stored.value;
    assert s.setup.checks == Some(ReleaseSteps.Rewritten(before.setup.checks.value, facts, rules));
    RedStepShows(before.setup.checks.value, facts, rules);
    var x := RedFinding(w);
    var i :| 0 <= i < |s.setup.checks.value.steps| && x in s.setup.checks.value.steps[i].findings;
    FindingShows(s, x);
  }

  /** The finding of a red release. */
  function RedFinding(w: ReleaseWatches.Watch): ReleaseSteps.Finding
    requires w.pipeline.Some?
  {
    ReleaseSteps.Finding(ReleaseSteps.RedRelease,
                         ReleaseSteps.OfTag(w.tag, ReleaseSteps.PipelineFailed(w.pipeline.value.number), w.failedJobs),
                             false)
  }

  lemma RedStepShows(r: ReleaseSteps.Result, f: ReleaseSteps.Facts, rules: ReleaseSteps.Rules)
    requires ReleaseSteps.WatchReachable(f) && ReleaseSteps.RunRan(f) && ReleaseSteps.Writable(r)
    requires f.watch.Some? && f.watch.value.state == ReleaseWatches.Red &&
        ReleaseSteps.LatestTag(f.release, f.watch.value) == f.watch.value.tag
    requires !rules.advisory(ReleaseSteps.RedRelease)
    ensures var steps := ReleaseSteps.Rewritten(r, f, rules).steps;
            exists i :: 0 <= i < |steps| && RedFinding(f.watch.value) in steps[i].findings
    ensures !ReleaseSteps.Rewritten(r, f, rules).converged
  {
    ReleaseSteps.RewrittenSays(r, f, rules);
    var steps := ReleaseSteps.Rewritten(r, f, rules).steps;
    var k := ReleaseSteps.IndexOf(steps, ReleaseSteps.Release).value;
    assert steps[k].findings[0] == RedFinding(f.watch.value);
    assert !steps[k].Converges();
  }

  // ---- what a refresh and a check leave

  /** What a check leaves, exactly: the old result where there is no engine, where the pause before it was cut short, or
      where it failed and the caller keeps it; none for a repository that is not declared, or accepted and not on
      GitHub, or where it failed otherwise; the refusal of an entry that is not accepted; else the engine's result with
      its clientless steps filled. */
  lemma CheckLeaves(s: Sources, setup: Setup, c: CheckRun, keepOld: bool, rules: ReleaseSteps.Rules)
    requires setup.release.Some? ==> ReleaseWatches.WellFormed(setup.release.value)
    ensures var checks := Checked(s, setup, c, keepOld, rules).checks;
            var declared := s.declaration.Some? && c.declared;
            var accepted := declared && s.declaration.value.accepted;
            var checkable := accepted && s.reality.Some?;
            && Checked(s, setup, c, keepOld, rules) == setup.(checks := checks)
            && (!c.engine ==> checks == setup.checks)
            && (c.engine && !declared ==> checks == None)
            && (c.engine && declared && !accepted ==> checks == Some(c.refusal))
            && (c.engine && accepted && !checkable ==> checks == None)
            && (c.engine && checkable && !c.paced ==> checks == setup.checks)
            && (c.engine && checkable && c.paced && c.result.None? ==>
                  checks == if keepOld then setup.checks else None)
            && (c.engine && checkable && c.paced && c.result.Some? ==>
                  checks.Some? && |checks.value.steps| == |c.result.value.steps|
                  && checks == Some(ReleaseSteps.FilledSteps(c.result.value, s.circleci, FactsOf(s, setup), rules)))
  {
  }

  /** A refresh of a repository that is declared or on GitHub carries the set-up state over: the marks, the last run and
      the watch as they were; with a run it takes the run, and nothing is expected or missing any more. */
  lemma RefreshCarries(h: History, read: Sources, run: Option<LastRun>, check: CheckRun, rules: ReleaseSteps.Rules)
    requires Reachable(h.stored) && Reachable(h.copy) && Possible(check)
    requires read.declaration.Some? || read.reality.Some?
    ensures var h' := Happen(h, Refreshes(read, run, check), rules);
            && h'.stored.Some? && h'.copy == h.copy && h'.stored.value.sources == read
            && h'.stored.value.setup.release == SetupOf(h.stored).release
            && (run.None? ==> h'.stored.value.setup.lastRun == SetupOf(h.stored).lastRun
                              && h'.stored.value.setup.expected == SetupOf(h.stored).expected)
            && (run.Some? ==> h'.stored.value.setup.lastRun == run
                              && h'.stored.value.setup.expected.pending == None
                              && h'.stored.value.setup.expected.missing == None)
  {
    var before := SetupOf(h.stored);
    var setup := if run.Some? then before.(lastRun := run, expected := ExpectedRuns.NOTHING) else before;
    CheckLeaves(read, setup, check, false, rules);
  }

  /** A check that fails on a repository it could check leaves no result behind a refresh, and the copy's behind a
      sweep that takes no newer watch over. */
  lemma FailedCheckLeaves(h: History, read: Sources, run: Option<LastRun>, check: CheckRun, rules: ReleaseSteps.Rules)
    requires Reachable(h.stored) && Reachable(h.copy) && Possible(check)
    requires check.engine && check.declared && check.paced && check.result.None?
    requires read.declaration.Some? && read.declaration.value.accepted && read.reality.Some?
    ensures var h' := Happen(h, Refreshes(read, run, check), rules);
            h'.stored.Some? && h'.stored.value.setup.checks == None
    ensures var h' := Happen(h, SweepWrites(read, check), rules);
            h'.stored.Some? && (SetupOf(h.stored).release.None? ==>
                                  h'.stored.value.setup.checks == SetupOf(h.copy).checks)
  {
    CheckLeaves(read, SetupOf(h.copy), check, true, rules);
    var before := SetupOf(h.stored);
    var setup := if run.Some? then before.(lastRun := run, expected := ExpectedRuns.NOTHING) else before;
    CheckLeaves(read, setup, check, false, rules);
  }

  /** A refresh that finds neither a declaration nor the repository drops the record, unless it awaits its creation. */
  lemma RefreshDrops(h: History, read: Sources, run: Option<LastRun>, check: CheckRun, rules: ReleaseSteps.Rules)
    requires Reachable(h.stored) && Reachable(h.copy) && Possible(check)
    requires read.declaration.None? && read.reality.None?
    ensures var awaits := h.stored.Some? && h.stored.value.sources.declaration.None?
                          && h.stored.value.sources.reality.None? && h.stored.value.setup.expected.pending.Some?;
            Happen(h, Refreshes(read, run, check), rules) == if awaits then h else h.(stored := None)
  {
  }

  /** The release watch leaves a record alone that is not there, or stands for a repository that is not declared, not on
      GitHub or archived; else it stores what it read of the release, the watch and what was told. */
  lemma WatchPassLeaves(h: History, release: Option<ReleaseSteps.ReadRelease>, w: ReleaseWatches.Watch, told: string,
                        rules: ReleaseSteps.Rules)
    requires Reachable(h.stored) && Reachable(h.copy) && MayHappen(WatchPass(release, w, told))
    ensures var h' := Happen(h, WatchPass(release, w, told), rules);
            var watched := h.stored.Some? && h.stored.value.sources.declaration.Some?
                           && h.stored.value.sources.reality.Some? && !h.stored.value.sources.reality.value.archived;
            && h'.copy == h.copy && (!watched ==> h' == h)
            && (watched ==>
                  && h'.stored.Some? && h'.stored.value.setup.release == Some(w.(told := told))
                  && h'.stored.value.sources.reality.Some?
                  && h'.stored.value.sources.reality.value.release == release
                  && h'.stored.value.setup.lastRun == h.stored.value.setup.lastRun
                  && h'.stored.value.setup.expected == h.stored.value.setup.expected)
  {
    if Watchable(h.stored) {
      var s := h.stored.value;
      var sources := s.sources.(reality := Some(s.sources.reality.value.(release := release)));
      RewriteKeepsAgreement(sources, s.setup.(release := Some(w)), rules);
    }
  }

  /** The smaller writes, each of its own part alone: a mark, a note on the mark, the note that a run was told. */
  lemma WritesLeave(h: History, e: ExpectedRuns.Setup, p: ExpectedRuns.PendingRun, rules: ReleaseSteps.Rules)
    requires Reachable(h.stored) && Reachable(h.copy) && h.stored.Some?
    ensures var s, marked := h.stored.value, Happen(h, Marked(e), rules);
            marked.copy == h.copy && marked.stored.Some? && marked.stored.value.setup == s.setup.(expected := e)
            && marked.stored.value.sources == s.sources
    ensures var s, noted := h.stored.value, Happen(h, Noted(p), rules);
            noted == if s.setup.expected.pending.None? then h
                     else h.(stored := Some(s.(setup := s.setup.(
                                expected := ExpectedRuns.Setup(Some(p), s.setup.expected.missing)))))
    ensures var s, told := h.stored.value, Happen(h, RunTold, rules);
            && (s.setup.lastRun.None? ==> told == h)
            && (s.setup.lastRun.Some? ==>
                  told.stored.Some? && told.stored.value.setup.lastRun.Some?
                  && told.stored.value.setup.lastRun.value.told
                  && told.stored.value.setup.lastRun.value.steps == s.setup.lastRun.value.steps
                  && told.stored.value == s.(setup := s.setup.(lastRun := told.stored.value.setup.lastRun)))
    ensures Happen(h, Dropped, rules).stored == None && Happen(h, SweepReads, rules) == History(h.stored, h.stored)
  {
  }

  /** A sweep's write that takes the stored watch over has the release step follow it. */
  lemma KeptStepFollows(s: Stored, stored: Option<Stored>, rules: ReleaseSteps.Rules)
    requires WatchReachable(s) && (stored.Some? ==> WatchReachable(stored.value))
    requires s.setup.checks.Some? && ReleaseSteps.Writable(s.setup.checks.value) && s.sources.reality.Some?
    requires stored.Some? && stored.value.setup.release.Some?
    requires s.setup.release.None? || stored.value.setup.release.value.checkedAt > s.setup.release.value.checkedAt
    ensures var kept := Kept(s, stored, rules);
            var facts := FactsOf(kept.sources, kept.setup);
            && kept.sources == s.sources && kept.setup.release == stored.value.setup.release
            && kept.setup.lastRun == s.setup.lastRun && kept.setup.expected == s.setup.expected
            && kept.setup.checks.Some?
            && var steps := kept.setup.checks.value.steps;
               ReleaseSteps.IndexOf(steps, ReleaseSteps.Release).Some?
               && steps[ReleaseSteps.IndexOf(steps, ReleaseSteps.Release).value]
                  == ReleaseSteps.ReleaseStep(ReleaseSteps.LatestTag(facts.release, facts.watch.value), facts, rules)
  {
    var setup := s.setup.(release := stored.value.setup.release);
    ReleaseSteps.RewrittenSays(s.setup.checks.value, FactsOf(s.sources, setup), rules);
  }

  // ---- what a sweep's write keeps, and what it does not

  /** The watch a sweep writes is the one the release watch's own merge keeps. */
  lemma KeptIsMerged(s: Stored, stored: Option<Stored>, rules: ReleaseSteps.Rules)
    requires stored.Some? ==> WatchReachable(stored.value)
    ensures Kept(s, stored, rules).setup.release == ReleaseWatches.KeepRelease(s.setup.release, SetupOf(stored).release)
  {
  }

  /** The release alone is merged: an expected run and a reconciler's run stored since the sweep read its records
      survive its write exactly when the copy the sweep read holds the same. */
  lemma SweepKeepsMarksExactly(h: History, read: Sources, check: CheckRun, rules: ReleaseSteps.Rules)
    requires Reachable(h.stored) && Reachable(h.copy) && h.stored.Some? && Possible(check)
    ensures var s := Happen(h, SweepWrites(read, check), rules).stored.value;
            && (s.setup.expected == h.stored.value.setup.expected <==>
                SetupOf(h.copy).expected == h.stored.value.setup.expected)
            && (s.setup.lastRun == h.stored.value.setup.lastRun <==>
                SetupOf(h.copy).lastRun == h.stored.value.setup.lastRun)
  {
    CheckKeepsAgreement(read, SetupOf(h.copy), check, true, rules);
  }

  /** So an Align now dispatched while a sweep runs is forgotten by it: no run is expected any more, though none has
      reported and no window has passed. */
  lemma SweepForgetsADispatch(read: Sources, mark: ExpectedRuns.PendingRun, c: CheckRun, rules: ReleaseSteps.Rules)
    requires !c.engine && Possible(c) && (read.declaration.Some? || read.reality.Some?)
    ensures var h0 := Happen(History(None, None), Refreshes(read, None, c), rules);
            var h1 := Happen(h0, SweepReads, rules);
            var h2 := Happen(h1, Marked(ExpectedRuns.ExpectRun(mark)), rules);
            var h3 := Happen(h2, SweepWrites(read, c), rules);
            && h2.stored.value.setup.expected.pending == Some(mark)
            && h3.stored.value.setup.expected == ExpectedRuns.NOTHING
  {
  }
}
