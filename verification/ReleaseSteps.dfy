/**
The release step of a record's engine check, decided from what knows the tag: the release watch, the reconciler's run,
the tag commit's statuses; and the check result it is written into.
*/
module ReleaseSteps {
  import opened Common
  import opened CIJobs
  import Statuses
  import ReleaseWatches

  type Watch = ReleaseWatches.Watch

  datatype StepName = CircleCI | Release | OtherStep(name: string)

  datatype Verdict = OK | Reported | Repaired | Drift | Failed | Skipped

  datatype Kind = MissedTagBuild | RedRelease | Unchecked | OtherKind(name: string)

  /** The sentences of a step: the engine's text, or what a sentence written here is about. */
  datatype Topic =
    | PipelineBuilt(number: nat) | PipelineFailed(number: nat) | PipelineRunning(number: nat) | NoPipeline
    | FromRun | TwoPipelines | StatusFailure | StatusRunning | NotReported | StatusSuccess
    | WaitsForRead | NotLatest | Truncated | WaitsForPipeline | NoStatus

  datatype Words = Text(text: string) | OfTag(tag: string, topic: Topic, jobs: seq<string>)

  datatype Finding = Finding(kind: Kind, message: Words, advisory: bool)

  datatype StepResult = StepResult(step: StepName, verdict: Verdict, summary: Words, changes: seq<string>,
      findings: seq<Finding>) {
    /** The engine's rule: not drifted or failed, and every finding advisory. */
    predicate Converges() {
      verdict != Drift && verdict != Failed && forall i :: 0 <= i < |findings| ==> findings[i].advisory
    }

    predicate Claims(kind: Kind) {
      exists i :: 0 <= i < |findings| && findings[i].kind == kind
    }
  }

  /** What is devctl's or the engine's: the pattern matcher, which failed jobs leave something of a release
      unpublished, and which findings are advisory. */
  datatype Rules = Rules(re: Regex, leaves: string -> bool, advisory: Kind -> bool)

  /** A release as the record read it: build is the `ci/circleci:` statuses of its tag commit. */
  datatype ReadRelease = ReadRelease(tag: string, publishedAt: Time, build: Option<Statuses.HeadStatus>,
      truncated: bool)

  /** What the record knows beside the tag; run is the release step of the last run, unless it skipped it, and runAt
      that run's time as it is written. */
  datatype Facts = Facts(branch: string, release: Option<ReadRelease>, jobs: seq<CIJob>, run: Option<StepResult>,
                         runAt: string, watch: Option<Watch>)

  predicate WatchReachable(f: Facts) {
    f.watch.Some? ==> ReleaseWatches.WellFormed(f.watch.value)
  }

  predicate Contains(s: string, sub: string) {
    exists i :: 0 <= i <= |s| && sub <= s[i..]
  }

  predicate WordsName(w: Words, tag: string) {
    match w
    case Text(text) => Contains(text, tag)
    case OfTag(t, _, _) => t == tag
  }

  /** The step's summary, changes or findings name the tag. */
  predicate Mentions(sr: StepResult, tag: string) {
    && tag != ""
    && (|| WordsName(sr.summary, tag)
        || (exists i :: 0 <= i < |sr.changes| && Contains(sr.changes[i], tag))
        || (exists i :: 0 <= i < |sr.findings| && WordsName(sr.findings[i].message, tag)))
  }

  // ---- words that speak of a tag, and not of another one whose name it is part of

  predicate IsWordChar(c: char) {
    'a' <= c <= 'z' || 'A' <= c <= 'Z' || '0' <= c <= '9' || c == '-' || c == '_' || c == '+' || c == '/'
  }

  /** What stands behind a name goes on with it; a full stop does not, unless more of the name follows. */
  predicate GoesOn(rest: string) {
    rest != "" && (IsWordChar(rest[0]) || (rest[0] == '.' && |rest| > 1 && IsWordChar(rest[1])))
  }

  /** The tag stands in s as a whole word; inWord says whether what is before s would go on with it. */
  predicate NamesIn(inWord: bool, s: string, tag: string)
    decreases s
  {
    s != "" &&
    (|| (!inWord && tag <= s && !GoesOn(s[|tag|..]))
     || NamesIn(IsWordChar(s[0]) || s[0] == '.', s[1..], tag))
  }

  predicate Speaks(w: Words, tag: string) {
    match w
    case Text(text) => NamesIn(false, text, tag)
    case OfTag(t, _, _) => t == tag
  }

  /** The step's summary, changes or findings are about the tag. */
  predicate SpeaksOf(sr: StepResult, tag: string) {
    || Speaks(sr.summary, tag)
    || (exists i :: 0 <= i < |sr.changes| && NamesIn(false, sr.changes[i], tag))
    || (exists i :: 0 <= i < |sr.findings| && Speaks(sr.findings[i].message, tag))
  }

  lemma {:induction false} NamedIsContained(inWord: bool, s: string, tag: string)
    requires NamesIn(inWord, s, tag)
    ensures Contains(s, tag)
    decreases s
  {
    if tag <= s {
      assert tag <= s[0..];
    } else {
      NamedIsContained(IsWordChar(s[0]) || s[0] == '.', s[1..], tag);
      var i :| 0 <= i <= |s[1..]| && tag <= s[1..][i..];
      assert s[1..][i..] == s[i + 1..];
    }
  }

  /** A step about a tag mentions it; the converse fails where the tag is part of another's name. */
  lemma SpeakingIsMentioning(sr: StepResult, tag: string)
    requires SpeaksOf(sr, tag) && tag != ""
    ensures Mentions(sr, tag)
  {
    if sr.summary.Text? && Speaks(sr.summary, tag) {
      NamedIsContained(false, sr.summary.text, tag);
    }
    if i :| 0 <= i < |sr.changes| && NamesIn(false, sr.changes[i], tag) {
      NamedIsContained(false, sr.changes[i], tag);
    }
    if i :| 0 <= i < |sr.findings| && Speaks(sr.findings[i].message, tag) {
      if sr.findings[i].message.Text? {
        NamedIsContained(false, sr.findings[i].message.text, tag);
      }
    }
  }

  /** A tag has no space in it. */
  predicate IsTag(tag: string) {
    tag != "" && ' ' !in tag
  }

  lemma NotedStands(s: string, note: string, tag: string)
    requires IsTag(tag) && note != "" && note[0] == ' '
    ensures tag <= s + note <==> tag <= s
    ensures tag <= s ==> (GoesOn((s + note)[|tag|..]) <==> GoesOn(s[|tag|..]))
  {
    if tag <= s {
      assert (s + note)[|tag|..] == s[|tag|..] + note;
    } else if |s| < |tag| {
      assert (s + note)[|s|] == ' ' && tag[|s|] != ' ';
    } else {
      assert (s + note)[..|tag|] == s[..|tag|];
    }
  }

  /** A note behind a text, a space between them, makes the text name no other tag. */
  lemma {:induction false} NotedNames(inWord: bool, s: string, note: string, tag: string)
    requires IsTag(tag) && note != "" && note[0] == ' '
    ensures NamesIn(inWord, s + note, tag) <==> NamesIn(inWord, s, tag) || NamesIn(false, note, tag)
    decreases s
  {
    NotedStands(s, note, tag);
    if s == "" {
      assert s + note == note;
    } else {
      NotedNames(IsWordChar(s[0]) || s[0] == '.', s[1..], note, tag);
      assert (s + note)[1..] == s[1..] + note && (s + note)[0] == s[0];
    }
  }

  lemma {:induction false} NotNamed(inWord: bool, s: string, tag: string)
    requires tag != "" && tag[0] !in s
    ensures !NamesIn(inWord, s, tag)
    decreases s
  {
    if s != "" {
      NotNamed(IsWordChar(s[0]) || s[0] == '.', s[1..], tag);
    }
  }

  lemma {:induction false} NamedBehind(inWord: bool, a: string, s: string, tag: string)
    requires tag != "" && a != "" && tag[0] !in a
    ensures NamesIn(inWord, a + s, tag)
       <==> NamesIn(IsWordChar(a[|a| - 1]) || a[|a| - 1] == '.', s, tag)
    decreases a
  {
    assert (a + s)[1..] == a[1..] + s;
    if |a| > 1 {
      NamedBehind(IsWordChar(a[0]) || a[0] == '.', a[1..], s, tag);
    } else {
      assert a[1..] + s == s;
    }
  }

  /** The run read the tag's own pipeline green. */
  predicate ReadBuilt(run: StepResult, tag: string) {
    run.verdict == OK && run.findings == [] && run.summary.Text? &&
        "release " + tag + " built: pipeline " <= run.summary.text
  }

  /** The run found the tag not built. */
  predicate ReadUnbuilt(run: StepResult) {
    run.verdict == Failed || run.Claims(MissedTagBuild) || run.Claims(RedRelease)
  }

  function Step(verdict: Verdict, tag: string, topic: Topic, jobs: seq<string>): StepResult {
    StepResult(Release, verdict, OfTag(tag, topic, jobs), [], [])
  }

  function Report(kind: Kind, tag: string, topic: Topic, jobs: seq<string>, rules: Rules): StepResult {
    Step(Reported, tag, topic, jobs).(findings := [Finding(kind, OfTag(tag, topic, jobs), rules.advisory(kind))])
  }

  /** The step from the watch; None where the watch leaves it to the other sources. */
  function Watched(tag: string, w: Watch, rules: Rules): Option<StepResult>
    requires ReleaseWatches.WellFormed(w)
  {
    match w.state
    case Built => Some(Step(OK, tag, PipelineBuilt(w.pipeline.value.number), []))
    case Red => Some(Report(RedRelease, tag, PipelineFailed(w.pipeline.value.number), w.failedJobs, rules))
    case Unbuilt => Some(Report(MissedTagBuild, tag, NoPipeline, [], rules))
    case Watching => if w.pipeline.None? then None
        else Some(Step(OK, tag, PipelineRunning(w.pipeline.value.number), []))
    case Unchecked => None
  }

  /** What is written behind the words of a run. */
  function Dating(runAt: string): string {
    " (reconciler run of " + runAt + ")"
  }

  /** The run's release step, dated: its own words, or the tag's name where it has none. */
  function FromTheRun(run: StepResult, tag: string, runAt: string): StepResult {
    StepResult(Release, run.verdict, Dated(run.summary, tag, runAt), run.changes, run.findings)
  }

  function Dated(summary: Words, tag: string, runAt: string): Words {
    if summary == Text("") then OfTag(tag, FromRun, [])
    else match summary
      case Text(text) => Text(text + Dating(runAt))
      case OfTag(_, _, _) => summary
  }

  function FromStatuses(tag: string, build: Statuses.HeadStatus, jobs: seq<CIJob>, tagOnly: seq<string>,
      rules: Rules): (step: StepResult)
    ensures step.step == Release && (step.verdict == OK || step.verdict == Reported)
  {
    FromVerdict(Statuses.StatusesReleaseStep(tag, build, jobs, tagOnly, rules.re, rules.leaves), tag, tagOnly, rules)
  }

  function FromVerdict(v: Statuses.Verdict, tag: string, tagOnly: seq<string>, rules: Rules): (step: StepResult)
    ensures step.step == Release && (step.verdict == OK || step.verdict == Reported)
  {
    match v
    case UncheckedTwoPipelines(failed) => Report(Unchecked, tag, TwoPipelines, failed, rules)
    case Red(failed) => Report(RedRelease, tag, StatusFailure, failed, rules)
    case Running => Step(OK, tag, StatusRunning, [])
    case UncheckedNotReported => Report(Unchecked, tag, NotReported, tagOnly, rules)
    case Built => Step(OK, tag, StatusSuccess, [])
  }

  /** The tag is a release the watch followed and the record has not read yet. */
  predicate PendingRead(tag: string, f: Facts) {
    && f.watch.Some? && f.watch.value.tag == tag
    && (f.release.None? || (f.release.value.tag != tag && f.release.value.publishedAt < f.watch.value.createdAt))
  }

  /** Neither the watch nor a run knows the tag, and the record did not read statuses of its commit. */
  function WithoutStatuses(tag: string, f: Facts, rules: Rules): StepResult {
    if PendingRead(tag, f) then Step(OK, tag, WaitsForRead, [])
    else if f.release.None? || f.release.value.tag != tag then Report(Unchecked, tag, NotLatest, [], rules)
    else if f.release.value.truncated then Report(Unchecked, tag, Truncated, [], rules)
    else if f.watch.Some? && f.watch.value.tag == tag && f.watch.value.state.Watching?
        then Step(OK, tag, WaitsForPipeline, [])
    else Report(MissedTagBuild, tag, NoStatus, [], rules)
  }

  /** The run that speaks of the tag. */
  function RunOf(tag: string, f: Facts): Option<StepResult> {
    if f.run.Some? && Mentions(f.run.value, tag) then f.run else None
  }

  predicate ReadStatuses(tag: string, f: Facts) {
    f.release.Some? && f.release.value.tag == tag && f.release.value.build.Some?
  }

  /** The run decides over the statuses it stands beside. */
  predicate RunDecides(run: StepResult, tag: string, f: Facts, rules: Rules)
    requires ReadStatuses(tag, f)
  {
    || ReadBuilt(run, tag)
    || (ReadUnbuilt(run) && !CIJobs.Reported(f.release.value.build.value.contexts,
        TagOnly(f.jobs, tag, f.branch, rules.re)))
  }

  function WatchedStep(tag: string, f: Facts, rules: Rules): Option<StepResult>
    requires WatchReachable(f)
  {
    if f.watch.Some? && f.watch.value.tag == tag then Watched(tag, f.watch.value, rules) else None
  }

  function ReleaseStep(tag: string, f: Facts, rules: Rules): StepResult
    requires WatchReachable(f)
  {
    var watched := WatchedStep(tag, f, rules);
    if watched.Some? then watched.value
    else
      var run := RunOf(tag, f);
      if ReadStatuses(tag, f) then
        if run.Some? && RunDecides(run.value, tag, f, rules) then FromTheRun(run.value, tag, f.runAt)
        else FromStatuses(tag, f.release.value.build.value, f.jobs, TagOnly(f.jobs, tag, f.branch, rules.re), rules)
      else if run.Some? then FromTheRun(run.value, tag, f.runAt)
      else WithoutStatuses(tag, f, rules)
  }

  /** The newer of the watch's tag and the one the record read. */
  function LatestTag(release: Option<ReadRelease>, w: Watch): string {
    if release.Some? && release.value.tag != w.tag && release.value.publishedAt > w.createdAt then release.value.tag
        else w.tag
  }

  // ---- what the step means

  /** A run's step is read only where the run did not skip it. */
  predicate RunRan(f: Facts) {
    f.run.Some? ==> f.run.value.verdict != Skipped
  }

  /** The engine reports a finding with a verdict other than OK. */
  predicate RunReports(f: Facts) {
    f.run.Some? && f.run.value.verdict == OK ==> f.run.value.findings == []
  }

  /** A release step is about the release and never skipped, so writing it again decides anew. */
  lemma NeverSkipped(tag: string, f: Facts, rules: Rules)
    requires WatchReachable(f) && RunRan(f)
    ensures ReleaseStep(tag, f, rules).step == Release && ReleaseStep(tag, f, rules).verdict != Skipped
  {
  }

  /** No source's failure of the tag is read green: beside statuses the record read, a job of the tag's own pipeline
      that failed and left the release unpublished is reported by name, unless the watch decides or a run read the
      tag's pipeline itself; then the step is not OK unless the run read it built. */
  lemma TagFailureIsReported(tag: string, f: Facts, rules: Rules, posters: Statuses.Posters, c: string)
    requires WatchReachable(f) && RunReports(f) && WatchedStep(tag, f, rules).None? && ReadStatuses(tag, f)
    requires var b := f.release.value.build.value;
             && Statuses.Consistent(b.contexts, f.jobs, tag, posters, rules.re)
             && c in b.contexts && c in Statuses.StatesOf(b, b.contexts).0
             && posters(c) == Statuses.TagPipeline && rules.leaves(JobOf(c))
    requires f.run.Some? && Mentions(f.run.value, tag) ==> !ReadBuilt(f.run.value, tag)
    ensures var step := ReleaseStep(tag, f, rules);
            && step.verdict != OK
            && (RunOf(tag, f).None? || !RunDecides(RunOf(tag, f).value, tag, f, rules) ==>
                  && (step.Claims(RedRelease) || step.Claims(Unchecked))
                  && step.summary.OfTag? && c in step.summary.jobs)
  {
    var b, tagOnly := f.release.value.build.value, TagOnly(f.jobs, tag, f.branch, rules.re);
    Statuses.TagFailureIsNeverGreen(tag, b, f.jobs, tagOnly, posters, rules.re, rules.leaves, c);
    var run := RunOf(tag, f);
    if run.Some? && RunDecides(run.value, tag, f, rules) {
      assert ReadUnbuilt(run.value);
    } else {
      var step := FromStatuses(tag, b, f.jobs, tagOnly, rules);
      assert ReleaseStep(tag, f, rules) == step;
      assert step.findings[0].kind == RedRelease || step.findings[0].kind == Unchecked;
    }
  }

  /** Nor is a job of the tag's own pipeline that is still to come in read as built, or as missing: beside statuses the
      record read the step waits for it, or reports a failure, unless the watch or a run decides. */
  lemma TagPendingIsWaitedFor(tag: string, f: Facts, rules: Rules, posters: Statuses.Posters, c: string)
    requires WatchReachable(f) && WatchedStep(tag, f, rules).None? && ReadStatuses(tag, f)
    requires RunOf(tag, f).Some? ==> !RunDecides(RunOf(tag, f).value, tag, f, rules)
    requires var b := f.release.value.build.value;
             && Statuses.Consistent(b.contexts, f.jobs, tag, posters, rules.re)
             && c in b.contexts && posters(c) == Statuses.TagPipeline && Statuses.ReadsPending(b, c)
    ensures var step, b := ReleaseStep(tag, f, rules), f.release.value.build.value;
            if Statuses.SomeFails(b, f.jobs, tag, rules.re, rules.leaves)
            then step.Claims(RedRelease) || step.Claims(Unchecked)
            else step == Step(OK, tag, StatusRunning, [])
  {
    var b, tagOnly := f.release.value.build.value, TagOnly(f.jobs, tag, f.branch, rules.re);
    Statuses.TagPendingIsWaitedFor(tag, b, f.jobs, tagOnly, posters, rules.re, rules.leaves, c);
    Statuses.VerdictExactly(tag, b, f.jobs, tagOnly, rules.re, rules.leaves);
    var step := FromStatuses(tag, b, f.jobs, tagOnly, rules);
    assert ReleaseStep(tag, f, rules) == step;
    assert step.findings != [] ==> step.findings[0].kind == RedRelease || step.findings[0].kind == Unchecked;
  }

  /** The step is the run's, in the run's words. */
  predicate TakesTheRun(tag: string, f: Facts, rules: Rules)
    requires WatchReachable(f)
  {
    && WatchedStep(tag, f, rules).None? && RunOf(tag, f).Some?
    && (ReadStatuses(tag, f) ==> RunDecides(f.run.value, tag, f, rules))
  }

  /** The commit was read whole and without a status, and no watch waits for one. */
  predicate ReadNoStatus(tag: string, f: Facts) {
    && f.release.Some? && f.release.value.tag == tag && f.release.value.build.None? && !f.release.value.truncated
    && !(f.watch.Some? && f.watch.value.tag == tag && f.watch.value.state == ReleaseWatches.Watching)
  }

  /** What the record saw of this very tag that justifies saying it was not built. */
  predicate SawNoBuild(tag: string, f: Facts) {
    || (f.watch.Some? && f.watch.value.tag == tag && f.watch.value.state == ReleaseWatches.Unbuilt)
    || (f.run.Some? && f.run.value.Claims(MissedTagBuild) && SpeaksOf(f.run.value, tag))
    || ReadNoStatus(tag, f)
  }

  lemma RunsFinding(tag: string, f: Facts, kind: Kind)
    requires RunOf(tag, f).Some? && FromTheRun(RunOf(tag, f).value, tag, f.runAt).Claims(kind)
    ensures RunOf(tag, f).value.Claims(kind)
  {
    var step := FromTheRun(RunOf(tag, f).value, tag, f.runAt);
    var i :| 0 <= i < |step.findings| && step.findings[i].kind == kind;
    assert RunOf(tag, f).value.findings[i].kind == kind;
  }

  lemma StatusesMissNoBuild(v: Statuses.Verdict, tag: string, tagOnly: seq<string>, rules: Rules)
    ensures !FromVerdict(v, tag, tagOnly, rules).Claims(MissedTagBuild)
  {
  }

  /** A tag is called not built on evidence, the watch's, a run's or a whole read of its commit without a status while
      no watch waits, if and only if the run whose step it is, where it is one, speaks of the tag as a whole word; a
      tag inside another's name is none. */
  lemma MissedBuildIsSeenExactly(tag: string, f: Facts, rules: Rules)
    requires WatchReachable(f) && ReleaseStep(tag, f, rules).Claims(MissedTagBuild)
    ensures SawNoBuild(tag, f)
       <==> (TakesTheRun(tag, f, rules) ==> SpeaksOf(f.run.value, tag) || ReadNoStatus(tag, f))
  {
    if TakesTheRun(tag, f, rules) {
      RunsFinding(tag, f, MissedTagBuild);
    } else if WatchedStep(tag, f, rules).None? && ReadStatuses(tag, f) {
      var tagOnly := TagOnly(f.jobs, tag, f.branch, rules.re);
      StatusesMissNoBuild(Statuses.StatusesReleaseStep(tag, f.release.value.build.value, f.jobs, tagOnly, rules.re,
                                                       rules.leaves), tag, tagOnly, rules);
    }
  }

  /** Among the statuses the record read, a job of the tag's own pipeline failed and left the release unpublished. */
  ghost predicate StatusesSawRed(tag: string, f: Facts, rules: Rules, posters: Statuses.Posters) {
    && ReadStatuses(tag, f)
    && exists c :: c in f.release.value.build.value.failed && posters(c) == Statuses.TagPipeline &&
                   rules.leaves(JobOf(c))
  }

  /** A failure of this very tag's own pipeline, as the record saw it. */
  ghost predicate SawRed(tag: string, f: Facts, rules: Rules, posters: Statuses.Posters) {
    || (f.watch.Some? && f.watch.value.tag == tag && f.watch.value.state == ReleaseWatches.Red)
    || (f.run.Some? && f.run.value.Claims(RedRelease) && SpeaksOf(f.run.value, tag))
    || StatusesSawRed(tag, f, rules, posters)
  }

  lemma OnlyRedClaimsRed(v: Statuses.Verdict, tag: string, tagOnly: seq<string>, rules: Rules)
    ensures FromVerdict(v, tag, tagOnly, rules).Claims(RedRelease) <==> v.Red?
  {
    if v.Red? {
      assert FromVerdict(v, tag, tagOnly, rules).findings[0].kind == RedRelease;
    }
  }

  lemma RedStatuses(tag: string, b: Statuses.HeadStatus, jobs: seq<CIJob>, tagOnly: seq<string>, rules: Rules,
                    posters: Statuses.Posters)
    requires CatchAllMatches(rules.re) && Statuses.Consistent(b.contexts, jobs, tag, posters, rules.re) &&
             Statuses.StatesKept(b)
    requires Statuses.Split(b.contexts, jobs, (j: CIJob) => j.RunsOnTag(tag, rules.re)).1 != []
    requires FromStatuses(tag, b, jobs, tagOnly, rules).Claims(RedRelease)
    ensures exists c :: c in b.failed && posters(c) == Statuses.TagPipeline && rules.leaves(JobOf(c))
  {
    OnlyRedClaimsRed(Statuses.StatusesReleaseStep(tag, b, jobs, tagOnly, rules.re, rules.leaves), tag, tagOnly, rules);
    Statuses.RedBesideForeignIsReal(tag, b, jobs, tagOnly, posters, rules.re, rules.leaves);
  }

  /** A release is called red on evidence, the watch's, a run's or, where another pipeline's statuses are on the
      commit, a job the tag's own pipeline really failed, if and only if the run whose step it is, where it is one,
      speaks of the tag as a whole word. */
  lemma RedIsSeenExactly(tag: string, f: Facts, rules: Rules, posters: Statuses.Posters)
    requires WatchReachable(f) && CatchAllMatches(rules.re) && ReleaseStep(tag, f, rules).Claims(RedRelease)
    requires ReadStatuses(tag, f) && !TakesTheRun(tag, f, rules) ==>
               var b := f.release.value.build.value;
               && Statuses.Consistent(b.contexts, f.jobs, tag, posters, rules.re) && Statuses.StatesKept(b)
               && Statuses.Split(b.contexts, f.jobs, (j: CIJob) => j.RunsOnTag(tag, rules.re)).1 != []
    ensures SawRed(tag, f, rules, posters)
       <==> (TakesTheRun(tag, f, rules) ==>
               SpeaksOf(f.run.value, tag) || StatusesSawRed(tag, f, rules, posters))
  {
    if TakesTheRun(tag, f, rules) {
      RunsFinding(tag, f, RedRelease);
    } else if WatchedStep(tag, f, rules).None? && ReadStatuses(tag, f) {
      RedStatuses(tag, f.release.value.build.value, f.jobs, TagOnly(f.jobs, tag, f.branch, rules.re), rules, posters);
    }
  }

  // ---- what the step says, exactly, in the order of the sources

  /** The watch settled the tag, or sees its pipeline. */
  predicate WatchKnows(tag: string, f: Facts) {
    && f.watch.Some? && f.watch.value.tag == tag
    && (f.watch.value.state == ReleaseWatches.Built || f.watch.value.state == ReleaseWatches.Red
        || f.watch.value.state == ReleaseWatches.Unbuilt
        || (f.watch.value.state == ReleaseWatches.Watching && f.watch.value.pipeline.Some?))
  }

  predicate WatchIn(tag: string, f: Facts, state: ReleaseWatches.State) {
    f.watch.Some? && f.watch.value.tag == tag && f.watch.value.state == state
  }

  /** A job that runs on the tag and not on the default branch has reported on the tag's commit. */
  ghost predicate TagJobReported(tag: string, f: Facts, rules: Rules) {
    && f.release.Some? && f.release.value.build.Some?
    && exists c, j :: c in f.release.value.build.value.contexts && j in f.jobs && JobOf(c) == j.name
                      && j.RunsOnTag(tag, rules.re) && !j.RunsOnBranch(f.branch, rules.re)
  }

  /** The run counts: it speaks of the tag, and where the commit has statuses it read the tag's pipeline green, or found
      the tag not built while no job of the tag's alone has reported. */
  ghost predicate RunCounts(tag: string, f: Facts, rules: Rules) {
    && f.run.Some? && Mentions(f.run.value, tag)
    && (f.release.Some? && f.release.value.tag == tag && f.release.value.build.Some? ==>
          var run := f.run.value;
          || (run.verdict == OK && run.findings == [] && run.summary.Text?
              && "release " + tag + " built: pipeline " <= run.summary.text)
          || ((run.verdict == Failed || run.Claims(MissedTagBuild) || run.Claims(RedRelease))
              && !TagJobReported(tag, f, rules)))
  }

  ghost predicate NothingCounts(tag: string, f: Facts, rules: Rules) {
    !WatchKnows(tag, f) && !RunCounts(tag, f, rules) && !ReadStatuses(tag, f)
  }

  /** The record read this very release; it has read no release as new as the one the watch follows. */
  predicate ReadThis(tag: string, f: Facts) {
    f.release.Some? && f.release.value.tag == tag
  }

  predicate NotReadYet(tag: string, f: Facts) {
    && !ReadThis(tag, f) && f.watch.Some? && f.watch.value.tag == tag
    && (f.release.None? || f.release.value.publishedAt < f.watch.value.createdAt)
  }

  lemma TagOnlyReported(tag: string, f: Facts, rules: Rules)
    requires ReadStatuses(tag, f)
    ensures CIJobs.Reported(f.release.value.build.value.contexts, TagOnly(f.jobs, tag, f.branch, rules.re))
       <==> TagJobReported(tag, f, rules)
  {
    var contexts, names := f.release.value.build.value.contexts, TagOnly(f.jobs, tag, f.branch, rules.re);
    forall name
      ensures name in names <==> exists j :: j in f.jobs && j.name == name && j.RunsOnTag(tag, rules.re)
                                             && !j.RunsOnBranch(f.branch, rules.re)
    {
      TagOnlyNamesUses(f.jobs, tag, f.branch, rules.re, name);
    }
    if CIJobs.Reported(contexts, names) {
      var i, k :| 0 <= i < |contexts| && 0 <= k < |names| && JobOf(contexts[i]) == names[k];
      assert contexts[i] in contexts && names[k] in names;
    }
    if TagJobReported(tag, f, rules) {
      var c, j :| c in contexts && j in f.jobs && JobOf(c) == j.name
                  && j.RunsOnTag(tag, rules.re) && !j.RunsOnBranch(f.branch, rules.re);
      assert j.name in names;
    }
  }

  /** The sources in their order. */
  lemma SourcesInOrder(tag: string, f: Facts, rules: Rules)
    requires WatchReachable(f)
    ensures WatchKnows(tag, f) <==> WatchedStep(tag, f, rules).Some?
    ensures TakesTheRun(tag, f, rules) <==> !WatchKnows(tag, f) && RunCounts(tag, f, rules)
  {
    if ReadStatuses(tag, f) {
      TagOnlyReported(tag, f, rules);
    }
  }

  lemma WatchedSays(tag: string, f: Facts, rules: Rules, kind: Kind)
    requires WatchReachable(f) && WatchKnows(tag, f)
    ensures var step := ReleaseStep(tag, f, rules);
            && (step.Claims(kind) <==> (kind == RedRelease && WatchIn(tag, f, ReleaseWatches.Red))
                                       || (kind == MissedTagBuild && WatchIn(tag, f, ReleaseWatches.Unbuilt)))
            && (step.verdict == OK <==>
                WatchIn(tag, f, ReleaseWatches.Built) || WatchIn(tag, f, ReleaseWatches.Watching))
  {
    var step := ReleaseStep(tag, f, rules);
    assert step.findings != [] ==> step.Claims(step.findings[0].kind);
  }

  lemma RunSaysOf(tag: string, f: Facts, rules: Rules, kind: Kind)
    requires WatchReachable(f) && !WatchKnows(tag, f) && RunCounts(tag, f, rules)
    ensures var step, run := ReleaseStep(tag, f, rules), f.run.value;
            && step.verdict == run.verdict && step.changes == run.changes && step.findings == run.findings
            && (step.Claims(kind) <==> run.Claims(kind))
  {
    SourcesInOrder(tag, f, rules);
    var step := ReleaseStep(tag, f, rules);
    assert step == FromTheRun(f.run.value, tag, f.runAt);
    if step.Claims(kind) {
      RunsFinding(tag, f, kind);
    }
    if f.run.value.Claims(kind) {
      var i :| 0 <= i < |f.run.value.findings| && f.run.value.findings[i].kind == kind;
      assert step.findings[i].kind == kind;
    }
  }

  lemma VerdictSays(v: Statuses.Verdict, tag: string, tagOnly: seq<string>, rules: Rules, kind: Kind)
    ensures var step := FromVerdict(v, tag, tagOnly, rules);
            && (step.Claims(kind) <==> (kind == RedRelease && v.Red?)
                                       || (kind == Unchecked && (v.UncheckedTwoPipelines? || v.UncheckedNotReported?)))
            && (step.verdict == OK <==> v.Running? || v.Built?)
  {
    var step := FromVerdict(v, tag, tagOnly, rules);
    assert step.findings != [] ==> step.Claims(step.findings[0].kind);
  }

  lemma NothingSays(tag: string, f: Facts, rules: Rules, kind: Kind)
    requires WatchReachable(f) && NothingCounts(tag, f, rules)
    ensures var step := ReleaseStep(tag, f, rules);
            && (step.Claims(kind) <==>
                || (kind == Unchecked && (if ReadThis(tag, f) then f.release.value.truncated else !NotReadYet(tag, f)))
                || (kind == MissedTagBuild && ReadThis(tag, f) && !f.release.value.truncated
                    && !WatchIn(tag, f, ReleaseWatches.Watching)))
            && (step.verdict == OK <==>
                if ReadThis(tag, f) then !f.release.value.truncated && WatchIn(tag, f, ReleaseWatches.Watching)
                else NotReadYet(tag, f))
  {
    SourcesInOrder(tag, f, rules);
    var step := ReleaseStep(tag, f, rules);
    assert step == WithoutStatuses(tag, f, rules);
    assert step.findings != [] ==> step.Claims(step.findings[0].kind);
  }

  /** The verdict of the statuses, where the record read them. */
  function StatusesSay(tag: string, f: Facts, rules: Rules): Statuses.Verdict
    requires ReadStatuses(tag, f)
  {
    Statuses.StatusesReleaseStep(tag, f.release.value.build.value, f.jobs, TagOnly(f.jobs, tag, f.branch, rules.re),
                                 rules.re, rules.leaves)
  }

  /** Whom the step believes and what it says then, exactly: the watch, a run, the statuses, and without all three what
      the record read of the release itself. */
  lemma ClaimsExactly(tag: string, f: Facts, rules: Rules, kind: Kind)
    requires WatchReachable(f)
    ensures ReleaseStep(tag, f, rules).Claims(kind) <==>
              if WatchKnows(tag, f) then
                || (kind == RedRelease && WatchIn(tag, f, ReleaseWatches.Red))
                || (kind == MissedTagBuild && WatchIn(tag, f, ReleaseWatches.Unbuilt))
              else if RunCounts(tag, f, rules) then f.run.value.Claims(kind)
              else if ReadStatuses(tag, f) then
                || (kind == RedRelease && StatusesSay(tag, f, rules).Red?)
                || (kind == Unchecked && (StatusesSay(tag, f, rules).UncheckedTwoPipelines?
                                          || StatusesSay(tag, f, rules).UncheckedNotReported?))
              else
                || (kind == Unchecked && (if ReadThis(tag, f) then f.release.value.truncated else !NotReadYet(tag, f)))
                || (kind == MissedTagBuild && ReadThis(tag, f) && !f.release.value.truncated
                    && !WatchIn(tag, f, ReleaseWatches.Watching))
  {
    SourcesInOrder(tag, f, rules);
    if WatchKnows(tag, f) {
      WatchedSays(tag, f, rules, kind);
    } else if RunCounts(tag, f, rules) {
      RunSaysOf(tag, f, rules, kind);
    } else if ReadStatuses(tag, f) {
      VerdictSays(StatusesSay(tag, f, rules), tag, TagOnly(f.jobs, tag, f.branch, rules.re), rules, kind);
    } else {
      NothingSays(tag, f, rules, kind);
    }
  }

  /** And when it finds nothing wrong. */
  lemma IsFineExactly(tag: string, f: Facts, rules: Rules)
    requires WatchReachable(f)
    ensures ReleaseStep(tag, f, rules).verdict == OK <==>
              if WatchKnows(tag, f)
              then WatchIn(tag, f, ReleaseWatches.Built) || WatchIn(tag, f, ReleaseWatches.Watching)
              else if RunCounts(tag, f, rules) then f.run.value.verdict == OK
              else if ReadStatuses(tag, f) then StatusesSay(tag, f, rules).Running? || StatusesSay(tag, f, rules).Built?
              else if ReadThis(tag, f) then !f.release.value.truncated && WatchIn(tag, f, ReleaseWatches.Watching)
              else NotReadYet(tag, f)
  {
    SourcesInOrder(tag, f, rules);
    if WatchKnows(tag, f) {
      WatchedSays(tag, f, rules, Unchecked);
    } else if RunCounts(tag, f, rules) {
      RunSaysOf(tag, f, rules, Unchecked);
    } else if ReadStatuses(tag, f) {
      VerdictSays(StatusesSay(tag, f, rules), tag, TagOnly(f.jobs, tag, f.branch, rules.re), rules, Unchecked);
    } else {
      NothingSays(tag, f, rules, Unchecked);
    }
  }

  // ---- a run about another tag that has this one in its name

  /** A tag of the release flow, as far as it matters here: one v, and nothing but words' characters behind it. */
  predicate IsVersion(tag: string) {
    |tag| > 1 && tag[0] == 'v' && forall i :: 0 < i < |tag| ==> tag[i] != 'v' && tag[i] != ' '
  }

  function Candidate(tag: string): string {
    tag + "-rc.1"
  }

  /** What a run says of the tag's release candidate. */
  function AboutCandidate(tag: string, rest: string): string {
    "release " + (Candidate(tag) + rest)
  }

  predicate IsRest(rest: string) {
    rest != "" && !GoesOn(rest) && 'v' !in rest
  }

  lemma ContainedBehind(a: string, s: string, tag: string)
    requires tag <= s
    ensures Contains(a + s, tag)
  {
    assert (a + s)[|a|..] == s;
  }

  lemma CandidateStands(tag: string, rest: string)
    requires IsVersion(tag) && IsRest(rest)
    ensures var s := Candidate(tag) + rest;
            tag <= s && NamesIn(false, s, Candidate(tag)) && !NamesIn(false, s, tag)
  {
    var s := Candidate(tag) + rest;
    assert s[..|tag|] == tag && s[|Candidate(tag)|..] == rest;
    assert s[|tag|..][0] == '-';
    assert 'v' !in s[1..];
    NotNamed(true, s[1..], tag);
  }

  lemma CandidateIsNamed(tag: string, rest: string)
    requires IsVersion(tag) && IsRest(rest)
    ensures Contains(AboutCandidate(tag, rest), tag)
    ensures NamesIn(false, AboutCandidate(tag, rest), Candidate(tag)) && !NamesIn(false, AboutCandidate(tag, rest), tag)
  {
    CandidateStands(tag, rest);
    ContainedBehind("release ", Candidate(tag) + rest, tag);
    NamedBehind(false, "release ", Candidate(tag) + rest, tag);
    NamedBehind(false, "release ", Candidate(tag) + rest, Candidate(tag));
  }

  /** A run's release step about the tag's release candidate. */
  function CandidateRun(tag: string, rest: string, found: seq<Kind>, rules: Rules): StepResult {
    StepResult(Release, Reported, Text(AboutCandidate(tag, rest)), [],
               seq(|found|, (i: int) requires 0 <= i < |found| =>
                 Finding(found[i], Text(AboutCandidate(tag, rest)), rules.advisory(found[i]))))
  }

  lemma CandidateRunMentions(tag: string, rest: string, found: seq<Kind>, rules: Rules)
    requires IsVersion(tag) && IsRest(rest)
    ensures var run := CandidateRun(tag, rest, found, rules);
            && Mentions(run, tag) && !SpeaksOf(run, tag) && SpeaksOf(run, Candidate(tag))
            && forall kind :: run.Claims(kind) <==> kind in found
  {
    CandidateIsNamed(tag, rest);
    var run := CandidateRun(tag, rest, found, rules);
    forall kind
      ensures run.Claims(kind) <==> kind in found
    {
      if kind in found {
        var i :| 0 <= i < |found| && found[i] == kind;
        assert run.findings[i].kind == kind;
      }
    }
  }

  /** The watch could not read the tag, and the last run spoke of its release candidate: the step a rewrite leaves is
      that run's, and speaks of a release the record does not know instead of the latest. */
  lemma CandidatesRunIsSpokenOf(r: Result, f: Facts, tag: string, rest: string, rules: Rules)
    requires WatchReachable(f) && Writable(r) && IsVersion(tag) && IsRest(rest) && 'v' !in f.runAt
    requires f.watch.Some? && f.watch.value.tag == tag && f.watch.value.state == ReleaseWatches.Unchecked
    requires f.release.None? && f.run == Some(CandidateRun(tag, rest, [], rules))
    ensures var step := Rewritten(r, f, rules).steps[IndexOf(r.steps, Release).value];
            && LatestTag(f.release, f.watch.value) == tag
            && Speaks(step.summary, Candidate(tag)) && !Speaks(step.summary, tag)
            && forall at :: !KnowsRelease(f, Candidate(tag), at)
  {
    CandidateRunMentions(tag, rest, [], rules);
    DatedCandidate(tag, rest, f.runAt);
    assert ReleaseStep(tag, f, rules) == FromTheRun(f.run.value, tag, f.runAt);
  }

  lemma DatingNamesNone(runAt: string, tag: string)
    requires IsVersion(tag) && 'v' !in runAt
    ensures !NamesIn(false, Dating(runAt), tag) && Dating(runAt) != "" && Dating(runAt)[0] == ' '
  {
    NotNamed(false, Dating(runAt), tag);
  }

  lemma DatedCandidate(tag: string, rest: string, runAt: string)
    requires IsVersion(tag) && IsRest(rest) && 'v' !in runAt
    ensures var dated := AboutCandidate(tag, rest) + Dating(runAt);
            NamesIn(false, dated, Candidate(tag)) && !NamesIn(false, dated, tag)
  {
    CandidateIsNamed(tag, rest);
    DatingNamesNone(runAt, tag);
    var about, note := AboutCandidate(tag, rest), Dating(runAt);
    NotedNames(false, about, note, tag);
    NotedNames(false, about, note, Candidate(tag));
  }

  /** The tag's commit is all green and the declaration has no job of the tag's alone; the last run spoke of the tag's
      release candidate. */
  predicate GreenBesideCandidate(tag: string, rest: string, f: Facts, kind: Kind, rules: Rules) {
    && IsVersion(tag) && IsRest(rest) && f.run == Some(CandidateRun(tag, rest, [kind], rules))
    && ReadStatuses(tag, f) && f.release.value.build.value.state == Statuses.SUCCESS
    && f.release.value.build.value.failed == [] && f.release.value.build.value.pending == []
    && TagOnly(f.jobs, tag, f.branch, rules.re) == []
  }

  /** The step reports of the tag what the run reports of the candidate, over statuses that read built. */
  lemma CandidatesFindingIsTaken(tag: string, rest: string, f: Facts, kind: Kind, rules: Rules)
    requires WatchReachable(f) && WatchedStep(tag, f, rules).None? && GreenBesideCandidate(tag, rest, f, kind, rules)
    requires kind == RedRelease || kind == MissedTagBuild
    ensures ReleaseStep(tag, f, rules).Claims(kind) && TakesTheRun(tag, f, rules) && !SpeaksOf(f.run.value, tag)
    ensures FromStatuses(tag, f.release.value.build.value, f.jobs, TagOnly(f.jobs, tag, f.branch, rules.re), rules)
         == Step(OK, tag, StatusSuccess, [])
  {
    CandidateRunMentions(tag, rest, [kind], rules);
    var step := FromTheRun(f.run.value, tag, f.runAt);
    assert step.findings[0].kind == kind;
  }

  /** So a green release is called red though nothing of it was seen to fail. */
  lemma CandidatesRedIsTaken(tag: string, rest: string, f: Facts, rules: Rules, posters: Statuses.Posters)
    requires WatchReachable(f) && WatchedStep(tag, f, rules).None?
    requires GreenBesideCandidate(tag, rest, f, RedRelease, rules)
    ensures ReleaseStep(tag, f, rules).Claims(RedRelease) && !SawRed(tag, f, rules, posters)
  {
    CandidatesFindingIsTaken(tag, rest, f, RedRelease, rules);
  }

  /** And a built one not built. */
  lemma CandidatesMissIsTaken(tag: string, rest: string, f: Facts, rules: Rules)
    requires WatchReachable(f) && WatchedStep(tag, f, rules).None?
    requires GreenBesideCandidate(tag, rest, f, MissedTagBuild, rules)
    ensures ReleaseStep(tag, f, rules).Claims(MissedTagBuild) && !SawNoBuild(tag, f)
  {
    CandidatesFindingIsTaken(tag, rest, f, MissedTagBuild, rules);
  }

  // ---- the check result the step is written into

  datatype Result = Result(steps: seq<StepResult>, converged: bool)

  predicate AllConverge(steps: seq<StepResult>) {
    forall i :: 0 <= i < |steps| ==> steps[i].Converges()
  }

  /** The flag says what the steps say. */
  predicate Agrees(r: Result) {
    r.converged <==> AllConverge(r.steps)
  }

  predicate FirstOf(steps: seq<StepResult>, name: StepName, k: nat) {
    k < |steps| && steps[k].step == name && forall i :: 0 <= i < k ==> steps[i].step != name
  }

  /** The first step of the name. */
  function IndexOf(steps: seq<StepResult>, name: StepName): (k: Option<nat>)
    ensures k.Some? ==> FirstOf(steps, name, k.value)
    ensures k.None? ==> forall i :: 0 <= i < |steps| ==> steps[i].step != name
  {
    if steps == [] then None
    else if IndexOf(steps[..|steps| - 1], name).Some? then IndexOf(steps[..|steps| - 1], name)
    else if steps[|steps| - 1].step == name then Some(|steps| - 1)
    else None
  }

  const NO_CLIENT := "no CircleCI client"

  /** The engine skipped the step for want of a CircleCI client. */
  predicate Clientless(sr: StepResult) {
    sr.verdict == Skipped && sr.summary.Text? && Contains(sr.summary.text, NO_CLIENT)
  }

  /** The tag in the engine's skipped release step. */
  function ReleaseTag(summary: string): string {
    var tag := if "release " <= summary then summary[|"release "|..] else summary;
    UpTo(tag)
  }

  function UpTo(s: string): string {
    if s == "" || ": " <= s then "" else [s[0]] + UpTo(s[1..])
  }

  function Reconverged(steps: seq<StepResult>): Result {
    Result(steps, AllConverge(steps))
  }

  /** The step in place of the first of its name, where that one is clientless. */
  function Filled(steps: seq<StepResult>, name: StepName, step: StepResult): seq<StepResult> {
    var k := IndexOf(steps, name);
    if k.Some? && Clientless(steps[k.value]) then steps[k.value := step] else steps
  }

  function TagNamed(steps: seq<StepResult>): string {
    var k := IndexOf(steps, Release);
    if k.Some? && steps[k.value].summary.Text? then ReleaseTag(steps[k.value].summary.text) else ""
  }

  /** The two steps the engine skips without a client, from what the record knows; circleci is its CircleCI step. */
  function FilledSteps(r: Result, circleci: StepResult, f: Facts, rules: Rules): Result
    requires WatchReachable(f)
  {
    var steps := Filled(r.steps, CircleCI, circleci);
    Reconverged(Filled(steps, Release, ReleaseStep(TagNamed(steps), f, rules)))
  }

  /** The release step is the watch's to write: there, and not skipped for another reason than a missing client. */
  predicate Writable(r: Result) {
    var k := IndexOf(r.steps, Release);
    k.Some? && (r.steps[k.value].verdict == Skipped ==> Clientless(r.steps[k.value]))
  }

  function Rewritten(r: Result, f: Facts, rules: Rules): Result
    requires WatchReachable(f)
  {
    if f.watch.None? || !Writable(r) then r
    else
      Reconverged(r.steps[IndexOf(r.steps, Release).value := ReleaseStep(LatestTag(f.release, f.watch.value), f,
          rules)])
  }

  /** The engine's result as the record holds it, its steps overwritten in place. */
  class Checks {
    var steps: seq<StepResult>
    var converged: bool

    constructor (r: Result)
      ensures Value() == r
    {
      steps, converged := r.steps, r.converged;
    }

    function Value(): Result
      reads this
    {
      Result(steps, converged)
    }

    method Converge()
      modifies this`converged
      ensures Value() == Reconverged(old(steps))
    {
      converged := true;
      for i := 0 to |steps|
        invariant steps == old(steps) && (converged <==> forall k :: 0 <= k < i ==> steps[k].Converges())
      {
        if !steps[i].Converges() {
          converged := false;
        }
      }
    }

    method FillClientlessSteps(circleci: StepResult, f: Facts, rules: Rules)
      requires WatchReachable(f)
      modifies this
      ensures Value() == FilledSteps(old(Value()), circleci, f, rules)
    {
      var k := IndexOf(steps, CircleCI);
      if k.Some? && Clientless(steps[k.value]) {
        steps := steps[k.value := circleci];
      }
      k := IndexOf(steps, Release);
      if k.Some? && Clientless(steps[k.value]) {
        steps := steps[k.value := ReleaseStep(ReleaseTag(steps[k.value].summary.text), f, rules)];
      }
      Converge();
    }

    method RewriteReleaseStep(f: Facts, rules: Rules)
      requires WatchReachable(f)
      modifies this
      ensures Value() == Rewritten(old(Value()), f, rules)
    {
      if f.watch.None? {
        return;
      }
      var k := IndexOf(steps, Release);
      if k.None? || (steps[k.value].verdict == Skipped && !Clientless(steps[k.value])) {
        return;
      }
      steps := steps[k.value := ReleaseStep(LatestTag(f.release, f.watch.value), f, rules)];
      Converge();
    }
  }

  lemma FirstIsUnique(steps: seq<StepResult>, name: StepName, k: nat)
    requires FirstOf(steps, name, k)
    ensures IndexOf(steps, name) == Some(k)
  {
    var j := IndexOf(steps, name);
    assert j.Some?;
  }

  /** After a rewrite the record's release step is the one its facts decide, and the flag follows. */
  lemma RewrittenSays(r: Result, f: Facts, rules: Rules)
    requires WatchReachable(f) && RunRan(f) && f.watch.Some? && Writable(r)
    ensures var r' := Rewritten(r, f, rules);
            && Agrees(r') && Writable(r') && |r'.steps| == |r.steps|
            && (forall i :: 0 <= i < |r.steps| && i != IndexOf(r.steps, Release).value ==> r'.steps[i] == r.steps[i])
            && r'.steps[IndexOf(r'.steps, Release).value] == ReleaseStep(LatestTag(f.release, f.watch.value), f, rules)
  {
    var k := IndexOf(r.steps, Release).value;
    var tag := LatestTag(f.release, f.watch.value);
    NeverSkipped(tag, f, rules);
    var steps := r.steps[k := ReleaseStep(tag, f, rules)];
    assert FirstOf(steps, Release, k);
    FirstIsUnique(steps, Release, k);
  }

  /** What is not the watch's to write stays: without a watch, without a release step, or with one the engine skipped
      for another reason than a missing client, a rewrite changes nothing. */
  lemma RewriteLeaves(r: Result, f: Facts, rules: Rules)
    requires WatchReachable(f)
    requires || f.watch.None? || (forall i :: 0 <= i < |r.steps| ==> r.steps[i].step != Release)
             || exists k: nat :: FirstOf(r.steps, Release, k) && r.steps[k].verdict == Skipped
                                 && r.steps[k].summary.Text? && !Contains(r.steps[k].summary.text, NO_CLIENT)
    ensures Rewritten(r, f, rules) == r
  {
    if k: nat :| FirstOf(r.steps, Release, k) && r.steps[k].verdict == Skipped {
      FirstIsUnique(r.steps, Release, k);
    }
  }

  lemma {:induction false} UpToColon(tag: string, rest: string)
    requires ':' !in tag
    ensures UpTo(tag + ": " + rest) == tag
  {
    var s := tag + ": " + rest;
    if tag == "" {
      assert s[..2] == ": ";
    } else {
      assert s[0] == tag[0] && s[1..] == tag[1..] + ": " + rest;
      UpToColon(tag[1..], rest);
    }
  }

  /** The tag is read back from the engine's sentence, whatever stands behind it. */
  lemma EnginesTag(tag: string, rest: string)
    requires ':' !in tag
    ensures ReleaseTag("release " + (tag + ": " + rest)) == tag
  {
    var s := tag + ": " + rest;
    assert ("release " + s)[|"release "|..] == s;
    UpToColon(tag, rest);
  }

  /** After filling, a step is the engine's own unless that one was skipped for want of a client; the release step is
      then the one the facts decide for the tag it named, and the flag follows. */
  lemma FilledSays(r: Result, circleci: StepResult, f: Facts, rules: Rules, k: nat, i: nat)
    requires WatchReachable(f) && circleci.step == CircleCI && FirstOf(r.steps, Release, k) && i < |r.steps|
    ensures var r' := FilledSteps(r, circleci, f, rules);
            && Agrees(r') && |r'.steps| == |r.steps|
            && (r.steps[i].step != CircleCI && i != k ==> r'.steps[i] == r.steps[i])
            && r'.steps[k] == (if Clientless(r.steps[k])
                               then ReleaseStep(ReleaseTag(r.steps[k].summary.text), f, rules) else r.steps[k])
  {
    FirstIsUnique(r.steps, Release, k);
    var steps := Filled(r.steps, CircleCI, circleci);
    assert FirstOf(steps, Release, k);
    FirstIsUnique(steps, Release, k);
  }

  lemma FilledCircleCI(r: Result, circleci: StepResult, f: Facts, rules: Rules, k: nat)
    requires WatchReachable(f) && circleci.step == CircleCI && FirstOf(r.steps, CircleCI, k)
    ensures FilledSteps(r, circleci, f, rules).steps[k]
         == if Clientless(r.steps[k]) then circleci else r.steps[k]
  {
    FirstIsUnique(r.steps, CircleCI, k);
  }

  /** The record knows a release by its tag from then: the watch's, or the one it read. */
  predicate KnowsRelease(f: Facts, tag: string, at: Time) {
    || (f.watch.Some? && f.watch.value.tag == tag && f.watch.value.createdAt == at)
    || (f.release.Some? && f.release.value.tag == tag && f.release.value.publishedAt == at)
  }

  lemma OwnStepSpeaks(tag: string, f: Facts, rules: Rules)
    requires WatchReachable(f) && !TakesTheRun(tag, f, rules)
    ensures Speaks(ReleaseStep(tag, f, rules).summary, tag)
  {
    if ReadStatuses(tag, f) {
      StatusesSpeakOf(Statuses.StatusesReleaseStep(tag, f.release.value.build.value, f.jobs,
                                                   TagOnly(f.jobs, tag, f.branch, rules.re), rules.re, rules.leaves),
                      tag, TagOnly(f.jobs, tag, f.branch, rules.re), rules);
    }
  }

  lemma StatusesSpeakOf(v: Statuses.Verdict, tag: string, tagOnly: seq<string>, rules: Rules)
    ensures Speaks(FromVerdict(v, tag, tagOnly, rules).summary, tag)
  {
  }

  /** The run's own words name the tag, or it has none, so that the tag is written for it. */
  predicate RunSays(tag: string, f: Facts) {
    && f.run.Some?
    && (f.run.value.summary == Text("") || Speaks(f.run.value.summary, tag) || NamesIn(false, Dating(f.runAt), tag))
  }

  /** The release step for a tag speaks of it if and only if it is not a run's, or the run's own words do. */
  lemma StepSpeaksExactly(tag: string, f: Facts, rules: Rules)
    requires WatchReachable(f) && IsTag(tag) && (f.run.Some? ==> f.run.value.summary.Text?)
    ensures Speaks(ReleaseStep(tag, f, rules).summary, tag) <==> (TakesTheRun(tag, f, rules) ==> RunSays(tag, f))
  {
    if TakesTheRun(tag, f, rules) {
      NotedNames(false, f.run.value.summary.text, Dating(f.runAt), tag);
    } else {
      OwnStepSpeaks(tag, f, rules);
    }
  }

  /** The tag a rewrite writes the release step for is the newest release the record knows; the step it leaves speaks
      of it if and only if it is not a run's, or the run's own words name that tag. */
  lemma LatestTagIsSpokenOfExactly(r: Result, f: Facts, rules: Rules)
    requires WatchReachable(f) && RunRan(f) && f.watch.Some? && Writable(r)
    requires IsTag(LatestTag(f.release, f.watch.value)) && (f.run.Some? ==> f.run.value.summary.Text?)
    ensures var steps, tag := Rewritten(r, f, rules).steps, LatestTag(f.release, f.watch.value);
            && IndexOf(steps, Release).Some?
            && (exists at :: KnowsRelease(f, tag, at)
                             && forall other, t: Time :: KnowsRelease(f, other, t) && other != tag ==> t <= at)
            && (Speaks(steps[IndexOf(steps, Release).value].summary, tag)
                <==> (TakesTheRun(tag, f, rules) ==> RunSays(tag, f)))
  {
    RewrittenSays(r, f, rules);
    var w := f.watch.value;
    var tag := LatestTag(f.release, w);
    StepSpeaksExactly(tag, f, rules);
    var at := if tag == w.tag then w.createdAt else f.release.value.publishedAt;
    assert KnowsRelease(f, tag, at) && forall other, t: Time :: KnowsRelease(f, other, t) && other != tag ==> t <= at;
  }

  /** Rewriting from the same facts changes nothing more. */
  lemma RewriteTwice(r: Result, f: Facts, rules: Rules)
    requires WatchReachable(f) && RunRan(f)
    ensures Rewritten(Rewritten(r, f, rules), f, rules) == Rewritten(r, f, rules)
  {
    if f.watch.Some? && Writable(r) {
      RewrittenSays(r, f, rules);
      var k := IndexOf(r.steps, Release).value;
      var steps := Rewritten(r, f, rules).steps;
      assert FirstOf(steps, Release, k);
      FirstIsUnique(steps, Release, k);
      assert steps[k := steps[k]] == steps;
    }
  }

  /** Filling the steps a watch decides and rewriting them agree on the tag both name. */
  lemma FillThenRewrite(r: Result, circleci: StepResult, f: Facts, rules: Rules)
    requires WatchReachable(f) && RunRan(f) && f.watch.Some?
    requires circleci.step == CircleCI && Writable(r) && Clientless(r.steps[IndexOf(r.steps, Release).value])
    requires TagNamed(r.steps) == LatestTag(f.release, f.watch.value)
    ensures Rewritten(FilledSteps(r, circleci, f, rules), f, rules) == FilledSteps(r, circleci, f, rules)
  {
    var k := IndexOf(r.steps, Release).value;
    var steps := Filled(r.steps, CircleCI, circleci);
    assert FirstOf(steps, Release, k);
    FirstIsUnique(steps, Release, k);
    var tag := TagNamed(steps);
    assert tag == LatestTag(f.release, f.watch.value);
    NeverSkipped(tag, f, rules);
    var filled := steps[k := ReleaseStep(tag, f, rules)];
    assert FirstOf(filled, Release, k);
    FirstIsUnique(filled, Release, k);
    assert filled[k := filled[k]] == filled;
  }
}
