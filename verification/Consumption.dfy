/**
The poller and the delivery together: the pods' runs, in which reading a run through is the consumption of its
artifacts, each against the record of its repository, while sweeps, marks and removals write those records too.
*/
module Consumption {
  import opened Common
  import opened ReconcilerCursors
  import Delivery
  import P = ReconcilerProtocol

  /** The artifacts of a run attempt, by repository. */
  type Published = RunKey -> map<string, Delivery.Artifact>

  /** An artifact carries its run attempt. */
  ghost predicate Labelled(pub: Published) {
    forall key, name :: name in pub(key) ==> pub(key)[name].key == key
  }

  /** The pods over the store, and what happened so far to each repository's record. */
  datatype System = System(world: P.World, traces: map<string, seq<Delivery.Event>>) {
    function Trace(name: string): seq<Delivery.Event> {
      if name in traces then traces[name] else []
    }

    function History(name: string): Delivery.History {
      Delivery.Play(Trace(name))
    }
  }

  /** A step of the protocol that consumes nothing; a pod that consumes the run it stands at, its artifacts listed or
      not; a pod that crashes in the middle of that; another write to one repository's record. */
  datatype Step =
    | Other(step: P.Step)
    | Deliver(p: P.Pod, listed: bool, envs: map<string, Delivery.Env>, sinceCompletion: Time)
    | Interrupted(p: P.Pod, envs: map<string, Delivery.Env>)
    | Elsewhere(name: string, event: Delivery.Event)

  /** The pod stands at a run of its listing. */
  predicate AtRun(w: P.World, p: P.Pod) {
    p in w.pods && w.pods[p].stage.Consuming? && |w.pods[p].stage.answers| < |w.pods[p].stage.runs|
  }

  function RunAt(w: P.World, p: P.Pod): RunKey
    requires AtRun(w, p)
  {
    w.pods[p].stage.runs[|w.pods[p].stage.answers|].Key()
  }

  /** Every artifact attempted, in the environment it met. */
  function Attempted(s: System, key: RunKey, envs: map<string, Delivery.Env>,
      pub: Published): map<string, seq<Delivery.Event>>
    requires envs.Keys <= pub(key).Keys
  {
    s.traces + map name | name in envs :: s.Trace(name) + [Delivery.Attempt(pub(key)[name], envs[name])]
  }

  /** No artifact keeps the run open. */
  ghost predicate AllClosed(s: System, key: RunKey, envs: map<string, Delivery.Env>, sinceCompletion: Time,
      pub: Published) {
    forall name :: name in envs ==> name in pub(key) && Closes(s, name, pub(key)[name], envs[name], sinceCompletion)
  }

  predicate Closes(s: System, name: string, a: Delivery.Artifact, e: Delivery.Env, sinceCompletion: Time) {
    !Delivery.KeepsOpen(Delivery.Consume(s.History(name).record, a, e).outcome, sinceCompletion)
  }

  /** The step as the protocol sees it. */
  ghost function Seen(s: System, step: Step, pub: Published): P.Step
    requires step.Deliver? ==> AtRun(s.world, step.p)
  {
    match step
    case Other(t) => t
    case Deliver(p, listed, envs, since) =>
      P.Consume(p, listed && AllClosed(s, RunAt(s.world, p), envs, since, pub))
    case Interrupted(p, _) => P.Crash(p)
    case Elsewhere(_, _) => P.Tick(0)
  }

  ghost predicate May(s: System, step: Step, pub: Published) {
    match step
    case Other(t) => !t.Consume?
    case Deliver(p, listed, envs, _) =>
      AtRun(s.world, p) && envs.Keys == if listed then pub(RunAt(s.world, p)).Keys else {}
    case Interrupted(p, envs) => AtRun(s.world, p) && envs.Keys <= pub(RunAt(s.world, p)).Keys
    case Elsewhere(_, event) => !event.Attempt?
  }

  function Traced(s: System, step: Step, pub: Published): map<string, seq<Delivery.Event>>
    requires step.Deliver? ==> AtRun(s.world, step.p) && step.envs.Keys <= pub(RunAt(s.world, step.p)).Keys
    requires step.Interrupted? ==> AtRun(s.world, step.p) && step.envs.Keys <= pub(RunAt(s.world, step.p)).Keys
  {
    match step
    case Other(_) => s.traces
    case Deliver(p, _, envs, _) => Attempted(s, RunAt(s.world, p), envs, pub)
    case Interrupted(p, envs) => Attempted(s, RunAt(s.world, p), envs, pub)
    case Elsewhere(name, event) => s.traces[name := s.Trace(name) + [event]]
  }

  ghost predicate Next(s: System, step: Step, s': System, pub: Published) {
    && May(s, step, pub)
    && P.Next(s.world, Seen(s, step, pub), s'.world)
    && s'.traces == Traced(s, step, pub)
  }

  ghost predicate IsRun(run: seq<System>, steps: seq<Step>, pub: Published) {
    && |run| == |steps| + 1
    && P.Init(run[0].world) && run[0].traces == map[]
    && forall i :: 0 <= i < |steps| ==> Next(run[i], steps[i], run[i + 1], pub)
  }

  // ----- the pods' part is a run of the protocol

  ghost function Worlds(run: seq<System>): seq<P.World> {
    seq(|run|, i requires 0 <= i < |run| => run[i].world)
  }

  ghost function SeenSteps(run: seq<System>, steps: seq<Step>, pub: Published): seq<P.Step>
    requires IsRun(run, steps, pub)
  {
    seq(|steps|, i requires 0 <= i < |steps| => (assert Next(run[i], steps[i], run[i + 1], pub); Seen(run[i], steps[i],
        pub)))
  }

  lemma PodsRun(run: seq<System>, steps: seq<Step>, pub: Published)
    requires IsRun(run, steps, pub)
    ensures P.IsRun(Worlds(run), SeenSteps(run, steps, pub))
  {
    forall i | 0 <= i < |steps|
      ensures P.Next(Worlds(run)[i], SeenSteps(run, steps, pub)[i], Worlds(run)[i + 1])
    {
      assert Next(run[i], steps[i], run[i + 1], pub);
    }
  }

  // ----- what was read through was delivered

  /** Step k consumed the attempt: its artifacts were listed and none kept it open. */
  ghost predicate DeliveredAt(run: seq<System>, steps: seq<Step>, k: nat, key: RunKey, pub: Published) {
    && k < |steps| < |run| && steps[k].Deliver? && steps[k].listed
    && AtRun(run[k].world, steps[k].p) && RunAt(run[k].world, steps[k].p) == key
    && steps[k].envs.Keys == pub(key).Keys
    && AllClosed(run[k], key, steps[k].envs, steps[k].sinceCompletion, pub)
  }

  ghost predicate Delivered(run: seq<System>, steps: seq<Step>, n: nat, key: RunKey, pub: Published) {
    exists k: nat :: k < n && DeliveredAt(run, steps, k, key, pub)
  }

  /** Each run answered with yes was delivered. */
  ghost predicate AnswersTrue(run: seq<System>, steps: seq<Step>, n: nat, runs: seq<Run>, answers: seq<bool>,
      pub: Published) {
    forall i :: 0 <= i < |answers| <= |runs| && answers[i] ==> Delivered(run, steps, n, runs[i].Key(), pub)
  }

  ghost predicate StageTrue(run: seq<System>, steps: seq<Step>, n: nat, stage: P.Stage, pub: Published) {
    stage.Consuming? ==> |stage.answers| <= |stage.runs| && AnswersTrue(run, steps, n, stage.runs, stage.answers, pub)
  }

  ghost predicate AllTrue(run: seq<System>, steps: seq<Step>, n: nat, w: P.World, pub: Published) {
    && (forall p :: p in w.pods ==> StageTrue(run, steps, n, w.pods[p].stage, pub))
    && (forall i :: 0 <= i < |w.log| ==> AnswersTrue(run, steps, n, w.log[i].runs, w.log[i].answers, pub))
  }

  lemma AnswersStay(run: seq<System>, steps: seq<Step>, n: nat, runs: seq<Run>, answers: seq<bool>, pub: Published)
    requires AnswersTrue(run, steps, n, runs, answers, pub)
    ensures AnswersTrue(run, steps, n + 1, runs, answers, pub)
  {
    forall i | 0 <= i < |answers| <= |runs| && answers[i]
      ensures Delivered(run, steps, n + 1, runs[i].Key(), pub)
    {
      var k: nat :| k < n && DeliveredAt(run, steps, k, runs[i].Key(), pub);
      assert k < n + 1;
    }
  }

  lemma AllStay(run: seq<System>, steps: seq<Step>, n: nat, w: P.World, pub: Published)
    requires AllTrue(run, steps, n, w, pub)
    ensures AllTrue(run, steps, n + 1, w, pub)
  {
    forall p | p in w.pods
      ensures StageTrue(run, steps, n + 1, w.pods[p].stage, pub)
    {
      assert StageTrue(run, steps, n, w.pods[p].stage, pub);
      if w.pods[p].stage.Consuming? {
        AnswersStay(run, steps, n, w.pods[p].stage.runs, w.pods[p].stage.answers, pub);
      }
    }
    forall i | 0 <= i < |w.log|
      ensures AnswersTrue(run, steps, n + 1, w.log[i].runs, w.log[i].answers, pub)
    {
      AnswersStay(run, steps, n, w.log[i].runs, w.log[i].answers, pub);
    }
  }

  /** A step of one pod: the others stay, and the log with them unless the pod wrote its cursor. */
  lemma OnePodMoves(run: seq<System>, steps: seq<Step>, n: nat, w: P.World, w': P.World, p: P.Pod, pub: Published)
    requires AllTrue(run, steps, n, w, pub)
    requires forall q :: q in w'.pods && q != p ==> q in w.pods && w'.pods[q].stage == w.pods[q].stage
    requires p in w'.pods ==> StageTrue(run, steps, n, w'.pods[p].stage, pub)
    requires w'.log == w.log
    ensures AllTrue(run, steps, n, w', pub)
  {
    forall q | q in w'.pods
      ensures StageTrue(run, steps, n, w'.pods[q].stage, pub)
    {
      if q != p {
        assert StageTrue(run, steps, n, w.pods[q].stage, pub);
      }
    }
  }

  /** The protocol's steps that answer nothing with yes. */
  lemma QuietStep(run: seq<System>, steps: seq<Step>, n: nat, w: P.World, step: P.Step, w': P.World, pub: Published)
    requires AllTrue(run, steps, n, w, pub) && P.Next(w, step, w') && !step.Write? && (step.Consume? ==> !step.ok)
    ensures AllTrue(run, steps, n, w', pub)
  {
    if step.Tick? || step.Created? || step.Completed? || step.Rerun? {
    } else {
      var p := step.p;
      if p in w.pods {
        assert StageTrue(run, steps, n, w.pods[p].stage, pub);
      }
      if step.Skip? || step.Consume? {
        var s := w.pods[p].stage;
        NoAnswer(run, steps, n, s.runs, s.answers, pub);
      }
      OnePodMoves(run, steps, n, w, w', p, pub);
    }
  }

  lemma NoAnswer(run: seq<System>, steps: seq<Step>, n: nat, runs: seq<Run>, answers: seq<bool>, pub: Published)
    requires |answers| < |runs| && AnswersTrue(run, steps, n, runs, answers, pub)
    ensures AnswersTrue(run, steps, n, runs, answers + [false], pub)
  {
  }

  lemma WriteStep(run: seq<System>, steps: seq<Step>, n: nat, w: P.World, step: P.Step, w': P.World, pub: Published)
    requires AllTrue(run, steps, n, w, pub) && P.Next(w, step, w') && step.Write?
    ensures AllTrue(run, steps, n, w', pub)
  {
    var s := w.pods[step.p].stage;
    assert StageTrue(run, steps, n, s, pub);
    forall i | 0 <= i < |w'.log|
      ensures AnswersTrue(run, steps, n, w'.log[i].runs, w'.log[i].answers, pub)
    {
      if i < |w.log| {
        assert w'.log[i] == w.log[i];
      }
    }
    forall q | q in w'.pods
      ensures StageTrue(run, steps, n, w'.pods[q].stage, pub)
    {
      if q != step.p {
        assert StageTrue(run, steps, n, w.pods[q].stage, pub);
      }
    }
  }

  lemma YesStep(run: seq<System>, steps: seq<Step>, n: nat, w: P.World, p: P.Pod, w': P.World, pub: Published)
    requires AllTrue(run, steps, n, w, pub) && P.Next(w, P.Consume(p, true), w')
    requires Delivered(run, steps, n, RunAt(w, p), pub)
    ensures AllTrue(run, steps, n, w', pub)
  {
    assert StageTrue(run, steps, n, w.pods[p].stage, pub);
    OnePodMoves(run, steps, n, w, w', p, pub);
  }

  lemma {:induction false} ReadThroughIsDelivered(run: seq<System>, steps: seq<Step>, n: nat, pub: Published)
    requires IsRun(run, steps, pub) && n < |run|
    ensures AllTrue(run, steps, n, run[n].world, pub)
  {
    if n > 0 {
      var m := n - 1;
      ReadThroughIsDelivered(run, steps, m, pub);
      AllStay(run, steps, m, run[m].world, pub);
      assert Next(run[m], steps[m], run[m + 1], pub);
      var seen := Seen(run[m], steps[m], pub);
      if seen.Write? {
        WriteStep(run, steps, n, run[m].world, seen, run[n].world, pub);
      } else if seen.Consume? && seen.ok {
        assert DeliveredAt(run, steps, m, RunAt(run[m].world, steps[m].p), pub);
        YesStep(run, steps, n, run[m].world, seen.p, run[n].world, pub);
      } else {
        QuietStep(run, steps, n, run[m].world, seen, run[n].world, pub);
      }
    }
  }

  // ----- every record's history attempts the published artifacts

  ghost predicate Genuine(trace: seq<Delivery.Event>, name: string, pub: Published) {
    forall i :: 0 <= i < |trace| && trace[i].Attempt? ==> IsPublished(trace[i].a, name, pub)
  }

  ghost predicate IsPublished(a: Delivery.Artifact, name: string, pub: Published) {
    name in pub(a.key) && a == pub(a.key)[name]
  }

  lemma {:induction false} TracesAreGenuine(run: seq<System>, steps: seq<Step>, n: nat, name: string, pub: Published)
    requires IsRun(run, steps, pub) && Labelled(pub) && n < |run|
    ensures Genuine(run[n].Trace(name), name, pub)
  {
    if n > 0 {
      var m := n - 1;
      TracesAreGenuine(run, steps, m, name, pub);
      assert Next(run[m], steps[m], run[m + 1], pub);
      var before, after := run[m].Trace(name), run[n].Trace(name);
      if after != before {
        assert |after| == |before| + 1 && after[..|before|] == before;
        var last := after[|before|];
        if last.Attempt? {
          assert IsPublished(last.a, name, pub);
        }
        forall i | 0 <= i < |after| && after[i].Attempt?
          ensures IsPublished(after[i].a, name, pub)
        {
          assert i < |before| ==> after[i] == before[i];
        }
      }
    }
  }

  /** The artifacts a history attempts, with one more. */
  function ArtifactsOf(trace: seq<Delivery.Event>, a: Delivery.Artifact): set<Delivery.Artifact> {
    {a} + set i | 0 <= i < |trace| && trace[i].Attempt? :: trace[i].a
  }

  lemma ArtifactsAreDistinct(trace: seq<Delivery.Event>, name: string, a: Delivery.Artifact, pub: Published)
    requires Genuine(trace, name, pub) && IsPublished(a, name, pub)
    ensures Delivery.Over(trace, ArtifactsOf(trace, a)) && Delivery.DistinctKeys(ArtifactsOf(trace, a))
  {
    forall x | x in ArtifactsOf(trace, a)
      ensures IsPublished(x, name, pub)
    {
      if x != a {
        var i :| 0 <= i < |trace| && trace[i].Attempt? && trace[i].a == x;
      }
    }
  }

  // ----- the promise of the poller

  /** At step k, the artifact of the repository was accounted for: posted then or before, silent by rule, malformed,
      passed by a later run, given up after the retry window, or taken by a record that awaits its creation. */
  ghost predicate AccountedAt(run: seq<System>, steps: seq<Step>, k: nat, name: string, key: RunKey, pub: Published)
    requires k + 1 < |run| && k < |steps| && steps[k].Deliver? && name in steps[k].envs && name in pub(key)
  {
    Delivery.Accounted(run[k].History(name), run[k + 1].History(name), pub(key)[name], steps[k].envs[name],
                       steps[k].sinceCompletion)
  }

  lemma DeliveredIsAccounted(run: seq<System>, steps: seq<Step>, k: nat, key: RunKey, name: string, pub: Published)
    requires IsRun(run, steps, pub) && Labelled(pub) && DeliveredAt(run, steps, k, key, pub) && name in pub(key)
    ensures AccountedAt(run, steps, k, name, key, pub)
  {
    var trace, a, e := run[k].Trace(name), pub(key)[name], steps[k].envs[name];
    TracesAreGenuine(run, steps, k, name, pub);
    ArtifactsAreDistinct(trace, name, a, pub);
    assert Closes(run[k], name, a, e, steps[k].sinceCompletion);
    Delivery.ClosedIsAccounted(trace, ArtifactsOf(trace, a), a, e, steps[k].sinceCompletion);
    assert Next(run[k], steps[k], run[k + 1], pub);
    assert run[k + 1].Trace(name) == trace + [Delivery.Attempt(a, e)];
    Delivery.PlayAppend(Delivery.START, trace, Delivery.Attempt(a, e));
  }

  /** A poll counts the run it stands at as read through exactly when its artifacts were listed and none holds it open:
      none failed, and none is still to be waited for. */
  lemma ReadThroughExactly(run: seq<System>, steps: seq<Step>, k: nat, pub: Published)
    requires IsRun(run, steps, pub) && k < |steps| && steps[k].Deliver?
    ensures AtRun(run[k].world, steps[k].p) && steps[k].p in run[k + 1].world.pods
    ensures var p, key := steps[k].p, RunAt(run[k].world, steps[k].p);
            var before, after := run[k].world.pods[p].stage, run[k + 1].world.pods[p].stage;
            && after.Consuming? && |after.answers| == |before.answers| + 1
            && (after.answers[|before.answers|] <==>
                steps[k].listed && forall name :: name in pub(key) ==>
                  !HoldsOpen(run[k], name, pub(key)[name], steps[k].envs, steps[k].sinceCompletion))
  {
    assert Next(run[k], steps[k], run[k + 1], pub);
    var key, envs, since := RunAt(run[k].world, steps[k].p), steps[k].envs, steps[k].sinceCompletion;
    if steps[k].listed {
      assert envs.Keys == pub(key).Keys;
      forall name | name in envs
        ensures name in pub(key)
        ensures Closes(run[k], name, pub(key)[name], envs[name], since) <==>
                !HoldsOpen(run[k], name, pub(key)[name], envs, since)
      {
        assert name in pub(key).Keys;
        Delivery.KeepsOpenExactly(run[k].History(name).record, pub(key)[name], envs[name], since);
      }
    }
  }

  predicate HoldsOpen(s: System, name: string, a: Delivery.Artifact, envs: map<string, Delivery.Env>,
                      sinceCompletion: Time)
  {
    name in envs && Delivery.HeldOpen(s.History(name).record, a, envs[name], sinceCompletion)
  }

  /** A delivered run leaves on every record, its artifacts' and the others', what `Delivery.Collector.ConsumeRun`
      leaves. */
  lemma DeliverIsConsumeRun(run: seq<System>, steps: seq<Step>, k: nat, key: RunKey, name: string, pub: Published)
    requires IsRun(run, steps, pub) && DeliveredAt(run, steps, k, key, pub)
    ensures var before, after := run[k].History(name).record, run[k + 1].History(name).record;
            after == if name in pub(key) then Delivery.Consume(before, pub(key)[name], steps[k].envs[name]).record
                else before
  {
    assert Next(run[k], steps[k], run[k + 1], pub);
    if name in pub(key) {
      var attempt := Delivery.Attempt(pub(key)[name], steps[k].envs[name]);
      assert run[k + 1].Trace(name) == run[k].Trace(name) + [attempt];
      Delivery.PlayAppend(Delivery.START, run[k].Trace(name), attempt);
    } else {
      assert run[k + 1].Trace(name) == run[k].Trace(name);
    }
  }

  /** The attempt was consumed at one step, and there every one of its artifacts was accounted for. */
  ghost predicate AccountedFor(run: seq<System>, steps: seq<Step>, n: nat, key: RunKey, pub: Published) {
    exists k: nat :: k < n && AllAccountedAt(run, steps, k, key, pub)
  }

  ghost predicate AllAccountedAt(run: seq<System>, steps: seq<Step>, k: nat, key: RunKey, pub: Published) {
    && k + 1 < |run| && DeliveredAt(run, steps, k, key, pub)
    && forall name :: name in pub(key) ==> AccountedAt(run, steps, k, name, key, pub)
  }

  /** With any number of pods, crashes, refused posts, unreadable artifacts, removals and sweeps: an attempt whose
      consumption reached the cursor had each of its artifacts accounted for. */
  lemma ReachedTheCursorIsAccounted(run: seq<System>, steps: seq<Step>, n: nat, key: RunKey, pub: Published)
    requires IsRun(run, steps, pub) && Labelled(pub) && n < |run| && P.ConsumedIn(run[n].world.log, key)
    ensures AccountedFor(run, steps, n, key, pub)
  {
    ReadThroughIsDelivered(run, steps, n, pub);
    var log := run[n].world.log;
    var i :| 0 <= i < |log| && P.ConsumedBy(log[i], key);
    var j :| 0 <= j < |log[i].runs| && Through(log[i].runs, log[i].answers, j) && log[i].runs[j].Key() == key;
    assert Delivered(run, steps, n, key, pub);
    var k: nat :| k < n && DeliveredAt(run, steps, k, key, pub);
    forall name | name in pub(key)
      ensures AccountedAt(run, steps, k, name, key, pub)
    {
      DeliveredIsAccounted(run, steps, k, key, name, pub);
    }
    assert AllAccountedAt(run, steps, k, key, pub);
  }

  /** And with timely pods no attempt a poll listed escapes this: each had its artifacts accounted for, or is still to
      be listed, superseded by a later attempt, or behind the lookback. */
  lemma ListedIsAccounted(run: seq<System>, steps: seq<Step>, n: nat, limit: Time, pub: Published, i: nat, j: nat)
    requires IsRun(run, steps, pub) && Labelled(pub) && n < |run|
    requires P.TimelyRun(Worlds(run), limit) && limit <= P.TTL
    requires i < |run[n].world.log| && j < |run[n].world.log[i].runs|
    ensures var w := run[n].world;
            var r := w.log[i].runs[j];
            || AccountedFor(run, steps, n, r.Key(), pub)
            || r.created >= w.Current().watermark || P.Superseded(w.log, r) || P.TooOld(w.log, r.created)
  {
    PodsRun(run, steps, pub);
    P.NothingIsLost(Worlds(run), SeenSteps(run, steps, pub), limit, n);
    var w := Worlds(run)[n];
    assert w == run[n].world;
    var r := w.log[i].runs[j];
    assert P.AttemptAccounted(w, r);
    if P.ConsumedIn(w.log, r.Key()) {
      ReachedTheCursorIsAccounted(run, steps, n, r.Key(), pub);
    }
  }
}
