/**
What a reconciler run tells the team: its findings verified against the live check, and the set of findings the team
has heard, carried from run to run.
*/
module Completions {
  import opened Common

  datatype Finding = Finding(kind: string, text: string)

  datatype Verdict = OK | Drift | Reported | Failed | Skipped

  datatype StepResult = StepResult(step: string, verdict: Verdict, findings: seq<Finding>)

  /** Findings of these two kinds are never the team's news. */
  predicate Tellable(kind: string) {
    kind != "unchecked" && kind != "pending-pull-request"
  }

  /** The live check's findings for the step; None when the check did not run it. */
  function LiveStep(checks: Option<seq<StepResult>>, step: string): Option<seq<Finding>> {
    if checks.None? then None else FirstStep(checks.value, step)
  }

  function FirstStep(steps: seq<StepResult>, step: string): Option<seq<Finding>> {
    if steps == [] then None
    else if steps[0].step != step then FirstStep(steps[1..], step)
    else if steps[0].verdict == Skipped || steps[0].verdict == Failed then None
    else Some(steps[0].findings)
  }

  /** The findings of one kind, in order. */
  function OfKind(findings: seq<Finding>, kind: string): seq<Finding> {
    if findings == [] then []
    else OfKind(findings[..|findings| - 1], kind) +
         if findings[|findings| - 1].kind == kind then [findings[|findings| - 1]] else []
  }

  predicate Reports(findings: seq<Finding>, kind: string) {
    exists i :: 0 <= i < |findings| && findings[i].kind == kind
  }

  /** The step's findings worth telling, as the live check has them. */
  function Verified(live: Option<seq<Finding>>, findings: seq<Finding>): seq<Finding> {
    if findings == [] then []
    else
      var front, last := findings[..|findings| - 1], findings[|findings| - 1];
      Verified(live, front) +
      if !Tellable(last.kind) then []
      else if live.None? then [last]
      else if Reports(front, last.kind) then []
      else OfKind(live.value, last.kind)
  }

  /** The nested loops that compute it, a kind answered once. */
  method VerifiedFindings(checks: Option<seq<StepResult>>, st: StepResult) returns (out: seq<Finding>)
    ensures out == Verified(LiveStep(checks, st.step), st.findings)
  {
    var live := LiveStep(checks, st.step);
    out := [];
    var done: set<string> := {};
    for i := 0 to |st.findings|
      invariant out == Verified(live, st.findings[..i])
      invariant live.Some? ==> forall kind :: kind in done <==> Tellable(kind) && Reports(st.findings[..i], kind)
    {
      var f := st.findings[i];
      assert st.findings[..i + 1][..i] == st.findings[..i];
      ReportsOneMore(st.findings, i);
      if !Tellable(f.kind) {
        continue;
      }
      if live.None? {
        out := out + [f];
        continue;
      }
      if f.kind in done {
        continue;
      }
      done := done + {f.kind};
      var before := out;
      for k := 0 to |live.value|
        invariant out == before + OfKind(live.value[..k], f.kind)
      {
        assert live.value[..k + 1][..k] == live.value[..k];
        if live.value[k].kind == f.kind {
          out := out + [live.value[k]];
        }
      }
      assert live.value[..|live.value|] == live.value;
    }
    assert st.findings[..|st.findings|] == st.findings;
  }

  lemma ReportsOneMore(findings: seq<Finding>, i: nat)
    requires i < |findings|
    ensures forall kind :: Reports(findings[..i + 1], kind) <==>
        Reports(findings[..i], kind) || findings[i].kind == kind
  {
    forall kind
      ensures Reports(findings[..i + 1], kind) <==> Reports(findings[..i], kind) || findings[i].kind == kind
    {
      if Reports(findings[..i], kind) {
        var k :| 0 <= k < i && findings[..i][k].kind == kind;
        assert findings[..i + 1][k].kind == kind;
      }
      if Reports(findings[..i + 1], kind) && findings[i].kind != kind {
        var k :| 0 <= k < i + 1 && findings[..i + 1][k].kind == kind;
        assert findings[..i][k].kind == kind;
      }
      assert findings[..i + 1][i] == findings[i];
    }
  }

  lemma {:induction false} OfKindSplits(a: seq<Finding>, b: seq<Finding>, kind: string)
    ensures OfKind(a + b, kind) == OfKind(a, kind) + OfKind(b, kind)
  {
    if b == [] {
      assert a + b == a;
    } else {
      assert (a + b)[..|a + b| - 1] == a + b[..|b| - 1];
      OfKindSplits(a, b[..|b| - 1], kind);
    }
  }

  lemma {:induction false} OfKindTwice(findings: seq<Finding>, kind: string, other: string)
    ensures OfKind(OfKind(findings, kind), other) == if kind == other then OfKind(findings, kind) else []
  {
    if findings != [] {
      var front, last := findings[..|findings| - 1], findings[|findings| - 1];
      OfKindTwice(front, kind, other);
      if last.kind == kind {
        OfKindSplits(OfKind(front, kind), [last], other);
        assert [last][..0] == [];
      }
      assert OfKind(front, kind) + [] == OfKind(front, kind);
    }
  }

  lemma {:induction false} UnreportedIsEmpty(findings: seq<Finding>, kind: string)
    requires !Reports(findings, kind)
    ensures OfKind(findings, kind) == []
  {
    if findings != [] {
      var front := findings[..|findings| - 1];
      assert forall i :: 0 <= i < |front| ==> front[i] == findings[i];
      UnreportedIsEmpty(front, kind);
    }
  }

  /** Verification is exact: of every kind the step reported and the team may hear, the team hears precisely the live
      check's findings, with their number and order, where the check ran the step, else precisely the run's; of any
      other kind it hears nothing. */
  lemma {:induction false} VerifiedIsExact(live: Option<seq<Finding>>, findings: seq<Finding>, kind: string)
    ensures OfKind(Verified(live, findings), kind)
            == if Tellable(kind) && Reports(findings, kind)
               then OfKind(if live.Some? then live.value else findings, kind) else []
  {
    if findings != [] {
      var front, last := findings[..|findings| - 1], findings[|findings| - 1];
      VerifiedIsExact(live, front, kind);
      assert findings[..|findings| - 1 + 1] == findings;
      ReportsOneMore(findings, |findings| - 1);
      var tail := Verified(live, findings)[|Verified(live, front)|..];
      assert Verified(live, findings) == Verified(live, front) + tail;
      OfKindSplits(Verified(live, front), tail, kind);
      if !Reports(front, kind) {
        UnreportedIsEmpty(front, kind);
      }
      if tail == [last] {
        assert [last][..0] == [];
      }
      if live.Some? {
        OfKindTwice(live.value, last.kind, kind);
      }
    }
  }

  // ----- telling

  /** One message: the change, a failed step, or a finding. */
  datatype Message = ChangeMessage(text: string) | FailureMessage(text: string) | FindingMessage(text: string)

  /** What a run tells, in order: nothing unless a person made the change; then the change, and per step its failure and
      its verified findings. The release step's findings are left to the release watch where it reads the releases. */
  function Completions(personMade: bool, change: string, steps: seq<StepResult>, checks: Option<seq<StepResult>>,
                       releaseWatched: bool, failure: StepResult -> string, sentence: Finding -> string): seq<Message>
  {
    if !personMade then []
    else
      var about := if change != "" then [ChangeMessage(change)] else [];
      about + StepMessages(steps, checks, releaseWatched, failure, sentence)
  }

  function StepMessages(steps: seq<StepResult>, checks: Option<seq<StepResult>>, releaseWatched: bool,
                        failure: StepResult -> string, sentence: Finding -> string): seq<Message>
  {
    if steps == [] then []
    else
      var st := steps[|steps| - 1];
      StepMessages(steps[..|steps| - 1], checks, releaseWatched, failure, sentence)
      + (if st.verdict == Failed then [FailureMessage(failure(st))] else [])
      + (if st.step == "release" && releaseWatched then []
         else FindingMessages(Verified(LiveStep(checks, st.step), st.findings), sentence))
  }

  function FindingMessages(findings: seq<Finding>, sentence: Finding -> string): seq<Message> {
    seq(|findings|, i requires 0 <= i < |findings| => FindingMessage(sentence(findings[i])))
  }

  /** The finding is among the messages. */
  predicate Says(msgs: seq<Message>, text: string) {
    FindingMessage(text) in msgs
  }

  lemma {:induction false} InOfKind(findings: seq<Finding>, kind: string, f: Finding)
    ensures f in OfKind(findings, kind) <==> f in findings && f.kind == kind
  {
    if findings != [] {
      var front, last := findings[..|findings| - 1], findings[|findings| - 1];
      InOfKind(front, kind, f);
      assert findings == front + [last];
    }
  }

  /** Where a finding message may come from: a tellable kind its step reported, in the live check's words where the
      check ran the step, and never the release step of a repository whose releases are watched. */
  ghost predicate IsNews(st: StepResult, f: Finding, checks: Option<seq<StepResult>>, releaseWatched: bool) {
    var live := LiveStep(checks, st.step);
    && f.kind != "unchecked" && f.kind != "pending-pull-request" && Reports(st.findings, f.kind)
    && f in (if live.Some? then live.value else st.findings)
    && !(st.step == "release" && releaseWatched)
  }

  /** A finding is told exactly when it is news of one of the run's steps. */
  lemma {:induction false} FindingsToldAreNews(steps: seq<StepResult>, checks: Option<seq<StepResult>>,
                                               releaseWatched: bool,
                                               failure: StepResult -> string, sentence: Finding -> string, text: string)
    ensures Says(StepMessages(steps, checks, releaseWatched, failure, sentence), text) <==>
              exists st, f :: st in steps && IsNews(st, f, checks, releaseWatched) && sentence(f) == text
  {
    if steps != [] {
      var front, st := steps[..|steps| - 1], steps[|steps| - 1];
      FindingsToldAreNews(front, checks, releaseWatched, failure, sentence, text);
      var verified := Verified(LiveStep(checks, st.step), st.findings);
      forall f
        ensures f in verified && !(st.step == "release" && releaseWatched) <==> IsNews(st, f, checks, releaseWatched)
      {
        VerifiedIsExact(LiveStep(checks, st.step), st.findings, f.kind);
        InOfKind(verified, f.kind, f);
        InOfKind(if LiveStep(checks, st.step).Some? then LiveStep(checks, st.step).value else st.findings, f.kind, f);
      }
      FindingMessagesSay(verified, sentence, text);
      assert forall x :: x in steps <==> x in front || x == st;
    }
  }

  lemma FindingMessagesSay(findings: seq<Finding>, sentence: Finding -> string, text: string)
    ensures Says(FindingMessages(findings, sentence), text) <==> exists f :: f in findings && sentence(f) == text
  {
    var msgs := FindingMessages(findings, sentence);
    if exists f :: f in findings && sentence(f) == text {
      var f :| f in findings && sentence(f) == text;
      var i :| 0 <= i < |findings| && findings[i] == f;
      assert msgs[i] == FindingMessage(text);
    }
  }

  /** A failed step is told exactly where one of the run's steps failed. */
  lemma {:induction false} FailuresToldAreSteps(steps: seq<StepResult>, checks: Option<seq<StepResult>>,
                                                releaseWatched: bool, failure: StepResult -> string,
                                                sentence: Finding -> string, text: string)
    ensures FailureMessage(text) in StepMessages(steps, checks, releaseWatched, failure, sentence) <==>
              exists st :: st in steps && st.verdict == Failed && failure(st) == text
    ensures ChangeMessage(text) !in StepMessages(steps, checks, releaseWatched, failure, sentence)
  {
    if steps != [] {
      var front, st := steps[..|steps| - 1], steps[|steps| - 1];
      FailuresToldAreSteps(front, checks, releaseWatched, failure, sentence, text);
      assert forall x :: x in steps <==> x in front || x == st;
    }
  }

  /** What a run tells, exactly: nothing unless a person made the change; else the change where it has a sentence, first
      of all, every failed step, and every finding that is news. */
  lemma ToldIsExactly(personMade: bool, change: string, steps: seq<StepResult>, checks: Option<seq<StepResult>>,
                      releaseWatched: bool, failure: StepResult -> string, sentence: Finding -> string, text: string)
    ensures var msgs := Completions(personMade, change, steps, checks, releaseWatched, failure, sentence);
            && (!personMade ==> msgs == [])
            && (ChangeMessage(text) in msgs <==> personMade && text == change != "")
            && (personMade && change != "" ==> msgs[0] == ChangeMessage(change))
            && (FailureMessage(text) in msgs <==>
                personMade && exists st :: st in steps && st.verdict == Failed && failure(st) == text)
            && (FindingMessage(text) in msgs <==>
                personMade && exists st, f :: st in steps && IsNews(st, f, checks, releaseWatched)
                                              && sentence(f) == text)
  {
    FailuresToldAreSteps(steps, checks, releaseWatched, failure, sentence, text);
    FindingsToldAreNews(steps, checks, releaseWatched, failure, sentence, text);
  }

  /** The live check speaks for a step where it ran it: by its first result of that name, unless it skipped the step or
      failed in it. */
  lemma {:induction false} LiveExactly(steps: seq<StepResult>, step: string, k: nat)
    requires k < |steps| && steps[k].step == step && forall i :: 0 <= i < k ==> steps[i].step != step
    ensures LiveStep(Some(steps), step)
         == if steps[k].verdict == Skipped || steps[k].verdict == Failed then None else Some(steps[k].findings)
  {
    if k > 0 {
      LiveExactly(steps[1..], step, k - 1);
    }
  }

  lemma {:induction false} NotLive(steps: seq<StepResult>, step: string)
    requires forall i :: 0 <= i < |steps| ==> steps[i].step != step
    ensures LiveStep(Some(steps), step) == None && LiveStep(None, step) == None
  {
    if steps != [] {
      NotLive(steps[1..], step);
    }
  }

  /** The finding's message reaches the channel when it is posted. */
  predicate Delivers(msgs: seq<Message>, delivers: seq<bool>, text: string)
    requires |delivers| == |msgs|
  {
    exists i :: 0 <= i < |msgs| && msgs[i] == FindingMessage(text) && delivers[i]
  }

  /** The findings told after a run, from those told before it. */
  function ToldAfter(told: seq<string>, msgs: seq<Message>, delivers: seq<bool>): (r: seq<string>)
    requires |delivers| == |msgs|
  {
    if msgs == [] then []
    else
      var m, d := msgs[|msgs| - 1], delivers[|msgs| - 1];
      ToldAfter(told, msgs[..|msgs| - 1], delivers[..|msgs| - 1])
      + if m.FindingMessage? && (m.text in told || d) then [m.text] else []
  }

  /** The message is posted: it is no finding the team heard, nor the change of a run it was told of, and it reaches the
      channel. */
  predicate IsPosted(told: seq<string>, runTold: bool, m: Message, delivered: bool) {
    delivered && (m.FindingMessage? ==> m.text !in told) && (m.ChangeMessage? ==> !runTold)
  }

  /** The loop that posts what the team has not heard; told is the record's set, runTold the run's mark. */
  method Tell(told: seq<string>, runTold: bool, msgs: seq<Message>, delivers: seq<bool>)
    returns (heard: seq<string>, runToldNow: bool, posted: seq<Message>)
    requires |delivers| == |msgs|
    ensures heard == ToldAfter(told, msgs, delivers)
    ensures runToldNow <==> runTold || forall i :: 0 <= i < |msgs| && msgs[i].ChangeMessage? ==> delivers[i]
    ensures forall text :: FindingMessage(text) in posted <==> text !in told && Delivers(msgs, delivers, text)
    ensures forall m :: m in posted <==>
              exists i :: 0 <= i < |msgs| && msgs[i] == m && IsPosted(told, runTold, m, delivers[i])
  {
    heard, runToldNow, posted := [], true, [];
    for n := 0 to |msgs|
      invariant heard == ToldAfter(told, msgs[..n], delivers[..n])
      invariant runToldNow <==> runTold || forall i :: 0 <= i < n && msgs[i].ChangeMessage? ==> delivers[i]
      invariant forall m :: m in posted ==>
                  exists i :: 0 <= i < n && msgs[i] == m && IsPosted(told, runTold, m, delivers[i])
      invariant forall i :: 0 <= i < n && IsPosted(told, runTold, msgs[i], delivers[i]) ==> msgs[i] in posted
    {
      var m := msgs[n];
      assert msgs[..n + 1][..n] == msgs[..n] && delivers[..n + 1][..n] == delivers[..n];
      if m.FindingMessage? && m.text in told {
        heard := heard + [m.text];
      } else if m.ChangeMessage? && runTold {
      } else if !delivers[n] {
        if m.ChangeMessage? {
          runToldNow := false;
        }
      } else {
        posted := posted + [m];
        if m.FindingMessage? {
          heard := heard + [m.text];
        }
      }
    }
    assert msgs[..|msgs|] == msgs && delivers[..|msgs|] == delivers;
  }

  /** After a run that tells, the told set is exactly the findings it reports that were told already or are delivered
      now. */
  lemma {:induction false} ToldExactly(told: seq<string>, msgs: seq<Message>, delivers: seq<bool>, text: string)
    requires |delivers| == |msgs|
    ensures text in ToldAfter(told, msgs, delivers) <==>
        Says(msgs, text) && (text in told || Delivers(msgs, delivers, text))
  {
    if msgs != [] {
      var n := |msgs| - 1;
      ToldExactly(told, msgs[..n], delivers[..n], text);
      assert msgs == msgs[..n] + [msgs[n]];
      if Delivers(msgs[..n], delivers[..n], text) {
        var i :| 0 <= i < n && msgs[..n][i] == FindingMessage(text) && delivers[..n][i];
        assert msgs[i] == FindingMessage(text) && delivers[i];
      }
      if Delivers(msgs, delivers, text) && !(msgs[n] == FindingMessage(text) && delivers[n]) {
        var i :| 0 <= i < |msgs| && msgs[i] == FindingMessage(text) && delivers[i];
        assert msgs[..n][i] == FindingMessage(text) && delivers[..n][i];
      }
    }
  }

  // ----- runs over one repository

  /** A run as the team hears of it: its messages, whether the channel is reached at all, which posts it takes, and
      whether the store takes the note of them. */
  datatype Run = Run(msgs: seq<Message>, reachable: bool, delivers: seq<bool>, noted: bool) {
    /** The run has something to tell and somebody to tell it to. */
    predicate Telling() {
      msgs != [] && reachable
    }

    /** The run replaces the told set; any other leaves it as it is. */
    predicate Stores() {
      Telling() && noted
    }
  }

  predicate AllRuns(runs: seq<Run>) {
    forall i :: 0 <= i < |runs| ==> |runs[i].delivers| == |runs[i].msgs|
  }

  /** The told set after the runs. */
  function Told(runs: seq<Run>): seq<string>
    requires AllRuns(runs)
  {
    if runs == [] then []
    else
      var run := runs[|runs| - 1];
      if run.Stores() then ToldAfter(Told(runs[..|runs| - 1]), run.msgs, run.delivers) else Told(runs[..|runs| - 1])
  }

  /** Run j tries to post the finding: it reports it and the team has not heard it. */
  predicate Tries(runs: seq<Run>, j: nat, text: string)
    requires AllRuns(runs) && j < |runs|
  {
    runs[j].Telling() && Says(runs[j].msgs, text) && text !in Told(runs[..j])
  }

  predicate Hears(runs: seq<Run>, j: nat, text: string)
    requires AllRuns(runs) && j < |runs|
  {
    Tries(runs, j, text) && Delivers(runs[j].msgs, runs[j].delivers, text)
  }

  /** The team hears the finding from run j and the record notes it. */
  predicate Notes(runs: seq<Run>, j: nat, text: string)
    requires AllRuns(runs) && j < |runs|
  {
    Hears(runs, j, text) && runs[j].noted
  }

  /** Some run among i .. j-1 that replaced the told set does not report the finding. */
  ghost predicate Cleared(runs: seq<Run>, i: nat, j: nat, text: string)
    requires j <= |runs|
  {
    exists k :: i <= k < j && runs[k].Stores() && !Says(runs[k].msgs, text)
  }

  lemma ToldStep(runs: seq<Run>, j: nat, text: string)
    requires AllRuns(runs) && j < |runs|
    ensures text in Told(runs[..j + 1]) <==>
              if runs[j].Stores()
              then Says(runs[j].msgs, text) &&
                  (text in Told(runs[..j]) || Delivers(runs[j].msgs, runs[j].delivers, text))
              else text in Told(runs[..j])
  {
    assert runs[..j + 1][..j] == runs[..j];
    ToldExactly(Told(runs[..j]), runs[j].msgs, runs[j].delivers, text);
  }

  /** A standing finding is heard once: told after the first i runs and reported by every run that replaced the told set
      since, it is not tried again. */
  lemma {:induction false} StandingIsHeardOnce(runs: seq<Run>, i: nat, j: nat, text: string)
    requires AllRuns(runs) && i <= j < |runs| && text in Told(runs[..i])
    requires !Cleared(runs, i, j, text)
    ensures text in Told(runs[..j]) && !Tries(runs, j, text)
  {
    if i < j {
      StandingIsHeardOnce(runs, i, j - 1, text);
      ToldStep(runs, j - 1, text);
    }
  }

  /** An undelivered finding is tried by every telling run that reports it, until it is heard and noted. */
  lemma {:induction false} UndeliveredIsTriedAgain(runs: seq<Run>, i: nat, j: nat, text: string)
    requires AllRuns(runs) && i <= j < |runs| && text !in Told(runs[..i])
    requires forall k :: i <= k < j ==> !Notes(runs, k, text)
    ensures text !in Told(runs[..j]) && (Tries(runs, j, text) <==> runs[j].Telling() && Says(runs[j].msgs, text))
  {
    if i < j {
      UndeliveredIsTriedAgain(runs, i, j - 1, text);
      assert !Notes(runs, j - 1, text);
      ToldStep(runs, j - 1, text);
    }
  }

  /** A told finding is tried again by a later run exactly when some run in between replaced the told set without
      reporting it: a run with nothing at all to tell, with nobody to tell it to, or whose note the store refused does
      not count as the finding having gone away. */
  lemma {:induction false} HeardAgainExactly(runs: seq<Run>, i: nat, j: nat, text: string)
    requires AllRuns(runs) && i <= j < |runs| && text in Told(runs[..i])
    requires forall k :: i <= k < j ==> !Notes(runs, k, text)
    requires runs[j].Telling() && Says(runs[j].msgs, text)
    ensures Tries(runs, j, text) <==> Cleared(runs, i, j, text)
  {
    if !Cleared(runs, i, j, text) {
      StandingIsHeardOnce(runs, i, j, text);
    } else {
      var k :| i <= k < j && runs[k].Stores() && !Says(runs[k].msgs, text);
      ToldStep(runs, k, text);
      UndeliveredIsTriedAgain(runs, k + 1, j, text);
    }
  }

  /** The finding went away and came back, and the team does not hear it: the run in between had nothing to tell. */
  lemma SilentRunHidesAReturn(text: string)
    ensures var told := Run([FindingMessage(text)], true, [true], true);
            var runs := [told, Run([], true, [], true), told];
            && Hears(runs, 0, text) && !Says(runs[1].msgs, text)
            && Says(runs[2].msgs, text) && !Tries(runs, 2, text)
  {
    var told := Run([FindingMessage(text)], true, [true], true);
    var runs := [told, Run([], true, [], true), told];
    assert runs[0].msgs[0] == FindingMessage(text) && Delivers(runs[0].msgs, runs[0].delivers, text);
    assert runs[..0] == [];
    ToldStep(runs, 0, text);
    StandingIsHeardOnce(runs, 1, 2, text);
  }

  /** A finding heard and not noted, because the store refused the record, is heard again by the next telling run that
      reports it. */
  lemma UnnotedIsHeardAgain(runs: seq<Run>, i: nat, text: string)
    requires AllRuns(runs) && i + 1 < |runs| && Hears(runs, i, text) && !runs[i].noted
    requires runs[i + 1].Telling() && Says(runs[i + 1].msgs, text)
    ensures Tries(runs, i + 1, text)
  {
    UndeliveredIsTriedAgain(runs, i, i + 1, text);
  }
}
