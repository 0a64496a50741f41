/**
The reconciler poller as any number of pods over one store: the lease, the cursor, the runs on GitHub,
and every pod's program point. A run of the system is a sequence of worlds, each a step from the last.
*/
module ReconcilerProtocol {
  import opened Common
  import opened ReconcilerCursors

  /** leaseTTL and the default lookback, in seconds. */
  const TTL: Time := 180
  const LOOKBACK: Time := 604800

  /** A pod's holder name, unique per process: a restarted pod is another one. */
  type Pod = nat

  datatype Lease = Free | Held(holder: Pod, until: Time)

  /** Who holds the lease at now: an expired lease is nobody's. */
  predicate HeldBy(lease: Lease, now: Time, p: Pod) {
    lease.Held? && lease.holder == p && now < lease.until
  }

  predicate Vacant(lease: Lease, now: Time) {
    lease.Free? || lease.until <= now
  }

  /** The lease script, one atomic step of the store: it renews a lease the pod holds and takes a vacant one. */
  function LeaseScript(lease: Lease, now: Time, p: Pod): (r: Lease)
    ensures HeldBy(r, now, p) <==> HeldBy(lease, now, p) || Vacant(lease, now)
    ensures HeldBy(r, now, p) ==> r.until == now + TTL
    ensures !HeldBy(r, now, p) ==> r == lease
  {
    if HeldBy(lease, now, p) || Vacant(lease, now) then Held(p, now + TTL) else lease
  }

  /** The release script: only the holder's release frees the lease. */
  function ReleaseScript(lease: Lease, now: Time, p: Pod): (r: Lease)
    ensures forall q :: q != p && HeldBy(lease, now, q) ==> r == lease
    ensures !HeldBy(r, now, p)
  {
    if HeldBy(lease, now, p) then Free else lease
  }

  /** Where a pod stands in a poll. Leased, Reading and Consuming are the stretch that must be exclusive. */
  datatype Stage =
    | Idle
    | Leased
    | Reading(at: Time, cur: Cursor)
    | Consuming(at: Time, cur: Cursor, listedAt: Time, runs: seq<Run>, answers: seq<bool>, renewed: bool)
    | Releasing
    | Gone

  datatype PodState = PodState(stage: Stage, leasedAt: Time) {
    predicate InPoll() {
      stage.Leased? || stage.Reading? || stage.Consuming?
    }
  }

  /** One written cursor: the cursor it was computed from, what the poll listed and read through. */
  datatype Poll = Poll(at: Time, before: Cursor, runs: seq<Run>, answers: seq<bool>, after: Cursor)

  datatype World = World(
    now: Time,
    hub: map<nat, Run>,
    lease: Lease,
    cursor: Option<Cursor>,
    pods: map<Pod, PodState>,
    log: seq<Poll>)
  {
    function Current(): Cursor {
      if cursor.Some? then cursor.value else NO_CURSOR
    }

    ghost predicate At(p: Pod, stage: Stage) {
      p in pods && pods[p].stage == stage
    }

    function With(p: Pod, stage: Stage): World {
      if p in pods then this.(pods := pods[p := pods[p].(stage := stage)]) else this
    }
  }

  datatype Step =
    | Tick(d: Time)
    | Created(id: nat)
    | Completed(id: nat)
    | Rerun(id: nat)
    | TakeLease(p: Pod)
    | ReadCursor(p: Pod)
    | List(p: Pod, runs: seq<Run>)
    | Renew(p: Pod)
    | Skip(p: Pod)
    | Consume(p: Pod, ok: bool)
    | Write(p: Pod, next: Cursor)
    | Fail(p: Pod)
    | Release(p: Pod, ok: bool)
    | Crash(p: Pod)

  /** A complete listing of the runs created since, as GitHub has them now. */
  ghost predicate Listing(hub: map<nat, Run>, since: Time, runs: seq<Run>) {
    && (forall i :: 0 <= i < |runs| ==> runs[i].id in hub && hub[runs[i].id] == runs[i] && since <= runs[i].created)
    && (forall id :: id in hub && since <= hub[id].created ==> Lists(runs, id, hub[id].attempt))
  }

  /** The listing shows run id at attempt or a later one. */
  ghost predicate Lists(runs: seq<Run>, id: nat, attempt: nat) {
    exists i :: 0 <= i < |runs| && runs[i].id == id && attempt <= runs[i].attempt
  }

  /** Run i of the listing is consumed already: by the cursor, or earlier in this very listing. */
  ghost predicate Done(cur: Cursor, runs: seq<Run>, answers: seq<bool>, i: nat)
    requires i < |runs| && |answers| == i
  {
    || runs[i].Key() in cur.consumed
    || exists j :: 0 <= j < i && runs[j].Key() == runs[i].Key() && runs[j].completed && answers[j]
  }

  ghost predicate Next(w: World, step: Step, w': World) {
    match step
    case Tick(d) => w' == w.(now := w.now + d)
    case Created(id) =>
      id !in w.hub && w.now != ZERO && w' == w.(hub := w.hub[id := Run(id, 1, w.now, false)])
    case Completed(id) =>
      id in w.hub && w' == w.(hub := w.hub[id := w.hub[id].(completed := true)])
    case Rerun(id) =>
      id in w.hub && w.hub[id].completed
      && w' == w.(hub := w.hub[id := w.hub[id].(attempt := w.hub[id].attempt + 1, completed := false)])
    case TakeLease(p) =>
      w.At(p, Idle)
      && var lease := LeaseScript(w.lease, w.now, p);
         w' == if HeldBy(lease, w.now, p)
               then w.(lease := lease, pods := w.pods[p := PodState(Leased, w.now)])
               else w
    case ReadCursor(p) =>
      w.At(p, Leased) && w' == w.With(p, Reading(w.now, w.Current()))
    case List(p, runs) =>
      p in w.pods && w.pods[p].stage.Reading?
      && var s := w.pods[p].stage;
         Listing(w.hub, Since(s.cur.watermark, s.at, LOOKBACK), runs)
         && w' == w.With(p, Consuming(s.at, s.cur, w.now, runs, [], false))
    case Renew(p) =>
      p in w.pods && w.pods[p].stage.Consuming?
      && var lease := LeaseScript(w.lease, w.now, p);
         w' == if HeldBy(lease, w.now, p)
               then w.(lease := lease, pods := w.pods[p := PodState(w.pods[p].stage.(renewed := true), w.now)])
               else w.With(p, Releasing)
    case Skip(p) =>
      p in w.pods && w.pods[p].stage.Consuming?
      && var s := w.pods[p].stage;
         |s.answers| < |s.runs|
         && (!s.runs[|s.answers|].completed || Done(s.cur, s.runs, s.answers, |s.answers|))
         && w' == w.With(p, s.(answers := s.answers + [false]))
    case Consume(p, ok) =>
      p in w.pods && w.pods[p].stage.Consuming?
      && var s := w.pods[p].stage;
         |s.answers| < |s.runs| && s.renewed
         && s.runs[|s.answers|].completed && !Done(s.cur, s.runs, s.answers, |s.answers|)
         && w' == w.With(p, s.(answers := s.answers + [ok], renewed := false))
    case Write(p, next) =>
      p in w.pods && w.pods[p].stage.Consuming?
      && var s := w.pods[p].stage;
         |s.answers| == |s.runs| && s.renewed
         && Polled(s.cur, s.at, LOOKBACK, s.runs, s.answers, next)
         && w' == w.With(p, Releasing).(cursor := Some(next), log := w.log +
             [Poll(s.at, s.cur, s.runs, s.answers, next)])
    case Fail(p) =>
      p in w.pods && w.pods[p].InPoll() && w' == w.With(p, Releasing)
    case Release(p, ok) =>
      w.At(p, Releasing) &&
      w' == w.With(p, Idle).(lease := if ok then ReleaseScript(w.lease, w.now, p) else w.lease)
    case Crash(p) =>
      p in w.pods && w' == w.With(p, Gone)
  }

  ghost predicate Init(w: World) {
    && w.hub == map[] && w.lease == Free && w.cursor == None && w.log == []
    && forall p :: p in w.pods ==> w.pods[p].stage == Idle
  }

  /** Every stretch between a pod's lease calls, and from its last one to its cursor write, stays below limit. */
  ghost predicate Timely(w: World, limit: Time) {
    forall p :: p in w.pods && w.pods[p].InPoll() ==> w.now < w.pods[p].leasedAt + limit
  }

  ghost predicate IsRun(run: seq<World>, steps: seq<Step>) {
    && |run| == |steps| + 1
    && Init(run[0])
    && forall i :: 0 <= i < |steps| ==> Next(run[i], steps[i], run[i + 1])
  }

  ghost predicate TimelyRun(run: seq<World>, limit: Time) {
    forall i :: 0 <= i < |run| ==> Timely(run[i], limit)
  }

  // ----- what holds of every world of a timely run

  /** At most one pod stands between taking the lease and writing the cursor. */
  ghost predicate Exclusive(w: World) {
    forall p, q :: p in w.pods && q in w.pods && w.pods[p].InPoll() && w.pods[q].InPoll() ==> p == q
  }

  /** Every cursor written was computed from the one written before it: no update is lost. */
  ghost predicate Sequential(log: seq<Poll>) {
    forall i :: 0 <= i < |log| ==> log[i].before == LastWritten(log[..i])
  }

  /** The cursor after the polls of log: the last one written. */
  function LastWritten(log: seq<Poll>): Cursor {
    if log == [] then NO_CURSOR else log[|log| - 1].after
  }

  /** A poll whose cursor was written read the attempt through. */
  ghost predicate ConsumedIn(log: seq<Poll>, key: RunKey) {
    exists i :: 0 <= i < |log| && ConsumedBy(log[i], key)
  }

  /** No two polls read the same attempt through. */
  ghost predicate ConsumedOnceEach(log: seq<Poll>) {
    forall i, k, key :: 0 <= i < k < |log| ==> !(ConsumedBy(log[i], key) && ConsumedBy(log[k], key))
  }

  ghost predicate ConsumedBy(poll: Poll, key: RunKey) {
    |poll.answers| == |poll.runs| && ThroughKey(poll.runs, poll.answers, |poll.runs|, key)
  }

  /** Some poll listed a later attempt of the run. */
  ghost predicate Superseded(log: seq<Poll>, run: Run) {
    exists i :: 0 <= i < |log| && Lists(log[i].runs, run.id, run.attempt + 1)
  }

  /** Some poll's lookback had passed a run created then. */
  ghost predicate TooOld(log: seq<Poll>, created: Time) {
    exists i :: 0 <= i < |log| && created + LOOKBACK < log[i].at
  }

  ghost predicate LeaseInv(w: World) {
    forall p :: p in w.pods && w.pods[p].InPoll() ==>
      w.lease == Held(p, w.pods[p].leasedAt + TTL) && w.pods[p].leasedAt <= w.now
  }

  ghost predicate HubInv(w: World) {
    forall id :: id in w.hub ==> w.hub[id].id == id && ZERO != w.hub[id].created <= w.now
  }

  /** A run as a listing showed it, against the run now: the same creation, perhaps a later attempt. */
  ghost predicate Known(hub: map<nat, Run>, run: Run) {
    run.id in hub && hub[run.id].created == run.created && run.attempt <= hub[run.id].attempt
  }

  ghost predicate KnownAll(hub: map<nat, Run>, runs: seq<Run>) {
    forall i :: 0 <= i < |runs| ==> Known(hub, runs[i])
  }

  ghost predicate LogInv(w: World) {
    && Sequential(w.log)
    && ConsumedOnceEach(w.log)
    && w.cursor == (if w.log == [] then None else Some(w.log[|w.log| - 1].after))
    && (forall i :: 0 <= i < |w.log| ==>
          var e := w.log[i];
          Polled(e.before, e.at, LOOKBACK, e.runs, e.answers, e.after)
          && KnownAll(w.hub, e.runs)
          && e.before.watermark <= e.after.watermark)
    && w.Current().watermark <= w.now
  }

  /** What a listing covers: every run the hub has since the bound is in it, at no earlier attempt than any
      poll saw before, unless the run was created after the listing. */
  ghost predicate Covers(w: World, since: Time, listedAt: Time, runs: seq<Run>) {
    && since <= listedAt <= w.now
    && KnownAll(w.hub, runs)
    && (forall i :: 0 <= i < |runs| ==> since <= runs[i].created <= listedAt)
    && (forall id :: id in w.hub && since <= w.hub[id].created ==> w.hub[id].created >= listedAt || Lists(runs, id, 0))
    && (forall i, k :: 0 <= i < |w.log| && 0 <= k < |w.log[i].runs| && since <= w.log[i].runs[k].created ==>
          Lists(runs, w.log[i].runs[k].id, w.log[i].runs[k].attempt))
  }

  /** Only runs the cursor does not name are read through. */
  ghost predicate Fresh(cur: Cursor, runs: seq<Run>, answers: seq<bool>) {
    |answers| <= |runs| && forall j :: 0 <= j < |answers| && answers[j] ==> runs[j].Key() !in cur.consumed
  }

  ghost predicate StageInv(w: World, s: Stage) {
    match s
    case Reading(at, cur) => cur == w.Current() && at <= w.now
    case Consuming(at, cur, listedAt, runs, answers, _) =>
      && cur == w.Current() && at <= w.now && |answers| <= |runs|
      && Fresh(cur, runs, answers)
      && Covers(w, Since(cur.watermark, at, LOOKBACK), listedAt, runs)
    case _ => true
  }

  ghost predicate PodInv(w: World) {
    forall p :: p in w.pods ==> StageInv(w, w.pods[p].stage)
  }

  /** The compacted window agrees with the full history: a key is in it exactly when a poll consumed it
      on a run not older than the watermark. */
  ghost predicate Refines(w: World) {
    && (forall key :: key in w.Current().consumed ==>
          ConsumedIn(w.log, key) && key.id in w.hub &&
              w.Current().consumed[key] == w.hub[key.id].created >= w.Current().watermark)
    && (forall key :: ConsumedIn(w.log, key) && key.id in w.hub && w.hub[key.id].created >= w.Current().watermark ==>
          key in w.Current().consumed)
  }

  /** No run is lost: it is still to be listed, an attempt of it is consumed, or it fell behind the lookback. */
  ghost predicate RunAccounted(w: World, id: nat)
    requires id in w.hub
  {
    || w.hub[id].created >= w.Current().watermark
    || (exists attempt :: ConsumedIn(w.log, RunKey(id, attempt)))
    || TooOld(w.log, w.hub[id].created)
  }

  /** No listed attempt is lost. */
  ghost predicate AttemptAccounted(w: World, run: Run) {
    || ConsumedIn(w.log, run.Key())
    || run.created >= w.Current().watermark
    || Superseded(w.log, run)
    || TooOld(w.log, run.created)
  }

  ghost predicate AllAccounted(w: World) {
    && (forall id :: id in w.hub ==> RunAccounted(w, id))
    && (forall i, k :: 0 <= i < |w.log| && 0 <= k < |w.log[i].runs| ==> AttemptAccounted(w, w.log[i].runs[k]))
  }

  ghost predicate Inv(w: World) {
    LeaseInv(w) && HubInv(w) && LogInv(w) && PodInv(w) && Refines(w) && AllAccounted(w)
  }

  // ----- the write: the one step that moves the cursor

  /** A stretch of the write's reasoning: the consuming pod's stage against the world it writes into. */
  ghost predicate Writing(w: World, s: Stage, next: Cursor) {
    && s.Consuming? && |s.answers| == |s.runs|
    && HubInv(w) && LogInv(w) && Refines(w) && AllAccounted(w)
    && s.cur == w.Current() && s.at <= w.now && Fresh(s.cur, s.runs, s.answers)
    && Covers(w, Since(s.cur.watermark, s.at, LOOKBACK), s.listedAt, s.runs)
    && Polled(s.cur, s.at, LOOKBACK, s.runs, s.answers, next)
  }

  function Written(w: World, s: Stage, next: Cursor): World
    requires s.Consuming?
  {
    w.(cursor := Some(next), log := w.log + [Poll(s.at, s.cur, s.runs, s.answers, next)])
  }

  lemma ConsumedInWritten(w: World, s: Stage, next: Cursor, key: RunKey)
    requires s.Consuming? && |s.answers| == |s.runs|
    ensures ConsumedIn(Written(w, s, next).log, key) <==>
        ConsumedIn(w.log, key) || ThroughKey(s.runs, s.answers, |s.runs|, key)
  {
    var log := Written(w, s, next).log;
    if ConsumedIn(w.log, key) {
      var i :| 0 <= i < |w.log| && ConsumedBy(w.log[i], key);
      assert log[i] == w.log[i];
    }
    if ThroughKey(s.runs, s.answers, |s.runs|, key) {
      assert ConsumedBy(log[|w.log|], key);
    }
  }

  lemma WriteMovesWatermark(w: World, s: Stage, next: Cursor)
    requires Writing(w, s, next)
    ensures s.cur.watermark <= Since(s.cur.watermark, s.at, LOOKBACK) <= next.watermark <= s.listedAt
  {
    WatermarkAdvances(s.cur, s.at, LOOKBACK, s.runs, s.answers, next);
  }

  lemma WriteRefines(w: World, s: Stage, next: Cursor)
    requires Writing(w, s, next)
    ensures Refines(Written(w, s, next))
  {
    var w' := Written(w, s, next);
    WriteMovesWatermark(w, s, next);
    forall key | key in next.consumed
      ensures ConsumedIn(w'.log, key) && key.id in w.hub &&
          next.consumed[key] == w.hub[key.id].created >= next.watermark
    {
      ConsumedInWritten(w, s, next, key);
      assert ConsumedAt(s.cur.consumed, s.runs, s.answers, key, next.consumed[key]);
      if key !in s.cur.consumed {
        var i :| 0 <= i < |s.runs| && Through(s.runs, s.answers, i) && s.runs[i].Key() == key &&
            s.runs[i].created == next.consumed[key];
        assert Known(w.hub, s.runs[i]);
      }
    }
    forall key | ConsumedIn(w'.log, key) && key.id in w.hub && w.hub[key.id].created >= next.watermark
      ensures key in next.consumed
    {
      ConsumedInWritten(w, s, next, key);
      var t := w.hub[key.id].created;
      if key !in s.cur.consumed {
        var i :| 0 <= i < |s.runs| && Through(s.runs, s.answers, i) && s.runs[i].Key() == key;
        assert Known(w.hub, s.runs[i]);
      }
      assert ConsumedAt(s.cur.consumed, s.runs, s.answers, key, t);
    }
  }

  /** A listed run the new watermark passes was read through, now or before. */
  lemma PassedIsConsumed(w: World, s: Stage, next: Cursor, i: nat)
    requires Writing(w, s, next) && i < |s.runs| && s.runs[i].created < next.watermark
    ensures ConsumedIn(Written(w, s, next).log, s.runs[i].Key())
  {
    var key := s.runs[i].Key();
    ConsumedInWritten(w, s, next, key);
    assert !Open(s.cur.consumed, s.runs, s.answers, i);
    if key !in s.cur.consumed {
      var j :| 0 <= j < i + 1 && Through(s.runs, s.answers, j) && s.runs[j].Key() == key;
      assert ThroughKey(s.runs, s.answers, |s.runs|, key);
    }
  }

  lemma OldStaysOld(w: World, s: Stage, next: Cursor, created: Time)
    requires s.Consuming?
    ensures TooOld(w.log, created) || created + LOOKBACK < s.at ==> TooOld(Written(w, s, next).log, created)
  {
    var log := Written(w, s, next).log;
    assert log[|w.log|].at == s.at;
    if TooOld(w.log, created) {
      var i :| 0 <= i < |w.log| && created + LOOKBACK < w.log[i].at;
      assert log[i] == w.log[i];
    }
  }

  lemma WriteAccountsRun(w: World, s: Stage, next: Cursor, id: nat)
    requires Writing(w, s, next) && id in w.hub
    ensures RunAccounted(Written(w, s, next), id)
  {
    var w' := Written(w, s, next);
    var created := w.hub[id].created;
    WriteMovesWatermark(w, s, next);
    OldStaysOld(w, s, next, created);
    if created < next.watermark && !TooOld(w'.log, created) {
      if created >= Since(s.cur.watermark, s.at, LOOKBACK) {
        var i :| 0 <= i < |s.runs| && s.runs[i].id == id && 0 <= s.runs[i].attempt;
        assert Known(w.hub, s.runs[i]);
        PassedIsConsumed(w, s, next, i);
        assert ConsumedIn(w'.log, RunKey(id, s.runs[i].attempt));
      } else {
        assert RunAccounted(w, id);
        var attempt :| ConsumedIn(w.log, RunKey(id, attempt));
        ConsumedInWritten(w, s, next, RunKey(id, attempt));
      }
    }
  }

  /** An attempt some poll listed and the new watermark passes is consumed now or superseded by this listing. */
  lemma PassedAttempt(w: World, s: Stage, next: Cursor, run: Run)
    requires Writing(w, s, next) && run.created < next.watermark && Lists(s.runs, run.id, run.attempt) &&
        Known(w.hub, run)
    ensures ConsumedIn(Written(w, s, next).log, run.Key()) || Superseded(Written(w, s, next).log, run)
  {
    var j :| 0 <= j < |s.runs| && s.runs[j].id == run.id && run.attempt <= s.runs[j].attempt;
    if run.attempt == s.runs[j].attempt {
      SameRunListed(w, s, next, run, j);
      PassedIsConsumed(w, s, next, j);
    } else {
      LaterAttemptListed(w, s, next, run, j);
    }
  }

  lemma SameRunListed(w: World, s: Stage, next: Cursor, run: Run, j: nat)
    requires Writing(w, s, next) && Known(w.hub, run) && j < |s.runs| && s.runs[j].id == run.id &&
        s.runs[j].attempt == run.attempt
    ensures s.runs[j].created == run.created && s.runs[j].Key() == run.Key()
  {
    assert Known(w.hub, s.runs[j]);
  }

  lemma LaterAttemptListed(w: World, s: Stage, next: Cursor, run: Run, j: nat)
    requires s.Consuming? && j < |s.runs| && s.runs[j].id == run.id && run.attempt < s.runs[j].attempt
    ensures Superseded(Written(w, s, next).log, run)
  {
    assert Lists(Written(w, s, next).log[|w.log|].runs, run.id, run.attempt + 1);
  }

  lemma SupersededStays(w: World, s: Stage, next: Cursor, run: Run)
    requires s.Consuming? && Superseded(w.log, run)
    ensures Superseded(Written(w, s, next).log, run)
  {
    var n :| 0 <= n < |w.log| && Lists(w.log[n].runs, run.id, run.attempt + 1);
    assert Written(w, s, next).log[n] == w.log[n];
  }

  lemma WriteAccountsAttempt(w: World, s: Stage, next: Cursor, run: Run)
    requires Writing(w, s, next) && AttemptAccounted(w, run) && Known(w.hub, run)
    requires Since(s.cur.watermark, s.at, LOOKBACK) <= run.created ==> Lists(s.runs, run.id, run.attempt)
    ensures AttemptAccounted(Written(w, s, next), run)
  {
    OldStaysOld(w, s, next, run.created);
    ConsumedInWritten(w, s, next, run.Key());
    if Superseded(w.log, run) {
      SupersededStays(w, s, next, run);
    } else if run.created < next.watermark && Since(s.cur.watermark, s.at, LOOKBACK) <= run.created {
      PassedAttempt(w, s, next, run);
    }
  }

  lemma WriteAccounts(w: World, s: Stage, next: Cursor)
    requires Writing(w, s, next)
    ensures AllAccounted(Written(w, s, next))
  {
    var w' := Written(w, s, next);
    forall id | id in w'.hub
      ensures RunAccounted(w', id)
    {
      WriteAccountsRun(w, s, next, id);
    }
    forall i, k | 0 <= i < |w'.log| && 0 <= k < |w'.log[i].runs|
      ensures AttemptAccounted(w', w'.log[i].runs[k])
    {
      if i < |w.log| {
        var run := w.log[i].runs[k];
        assert AttemptAccounted(w, run) && KnownAll(w.hub, w.log[i].runs);
        WriteAccountsAttempt(w, s, next, run);
      } else if s.runs[k].created < next.watermark {
        PassedIsConsumed(w, s, next, k);
      }
    }
  }

  /** What this poll reads through, no poll read through before. */
  lemma ReadThroughIsNew(w: World, s: Stage, next: Cursor, key: RunKey)
    requires Writing(w, s, next) && ThroughKey(s.runs, s.answers, |s.runs|, key)
    ensures !ConsumedIn(w.log, key)
  {
    var j :| 0 <= j < |s.runs| && Through(s.runs, s.answers, j) && s.runs[j].Key() == key;
    assert Known(w.hub, s.runs[j]);
    assert key !in s.cur.consumed;
  }

  lemma WriteConsumesOnce(w: World, s: Stage, next: Cursor)
    requires Writing(w, s, next)
    ensures ConsumedOnceEach(Written(w, s, next).log)
  {
    var log := Written(w, s, next).log;
    forall i, k, key | 0 <= i < k < |log| && ConsumedBy(log[k], key)
      ensures !ConsumedBy(log[i], key)
    {
      assert log[i] == w.log[i];
      if k < |w.log| {
        assert log[k] == w.log[k];
      } else {
        ReadThroughIsNew(w, s, next, key);
      }
    }
  }

  lemma WriteKeepsLog(w: World, s: Stage, next: Cursor)
    requires Writing(w, s, next)
    ensures LogInv(Written(w, s, next))
  {
    WriteMovesWatermark(w, s, next);
    WriteConsumesOnce(w, s, next);
    SequentialGrows(w.log, Poll(s.at, s.cur, s.runs, s.answers, next));
    assert next.watermark <= s.listedAt <= w.now;
  }

  lemma SequentialGrows(log: seq<Poll>, poll: Poll)
    requires Sequential(log) && poll.before == LastWritten(log)
    ensures Sequential(log + [poll])
  {
    var log' := log + [poll];
    forall i | 0 <= i < |log'|
      ensures log'[i].before == LastWritten(log'[..i])
    {
      assert log'[..i] == log[..i];
      if i == |log| {
        assert log[..i] == log;
      }
    }
  }

  // ----- every step keeps the invariant

  ghost predicate SameHistory(w: World, w': World) {
    w'.now == w.now && w'.hub == w.hub && w'.cursor == w.cursor && w'.log == w.log
  }

  lemma HistoryFrame(w: World, w': World)
    requires SameHistory(w, w')
    requires HubInv(w) && LogInv(w) && Refines(w) && AllAccounted(w)
    ensures HubInv(w') && LogInv(w') && Refines(w') && AllAccounted(w')
  {
    assert w'.Current() == w.Current();
    forall id | id in w'.hub
      ensures RunAccounted(w', id)
    {
      assert RunAccounted(w, id);
    }
    forall i, k | 0 <= i < |w'.log| && 0 <= k < |w'.log[i].runs|
      ensures AttemptAccounted(w', w'.log[i].runs[k])
    {
      assert AttemptAccounted(w, w.log[i].runs[k]);
    }
  }

  /** What may change around a listing without touching what it covers: time passes, runs appear, complete
      and are run again, other pods move. */
  ghost predicate HubGrows(w: World, w': World) {
    && w.now <= w'.now && w'.cursor == w.cursor && w'.log == w.log
    && (forall id :: id in w.hub ==> (
            && id in w'.hub && w'.hub[id].id == w.hub[id].id
            && w'.hub[id].created == w.hub[id].created && w.hub[id].attempt <= w'.hub[id].attempt))
    && (forall id :: id in w'.hub && id !in w.hub ==>
        w'.hub[id].id == id && w'.hub[id].created == w.now && w.now != ZERO)
  }

  lemma CoversStays(w: World, w': World, since: Time, listedAt: Time, runs: seq<Run>)
    requires HubGrows(w, w') && Covers(w, since, listedAt, runs)
    ensures Covers(w', since, listedAt, runs)
  {
    forall i | 0 <= i < |runs|
      ensures Known(w'.hub, runs[i])
    {
      assert Known(w.hub, runs[i]);
    }
  }

  lemma HubGrowsKeeps(w: World, w': World)
    requires HubGrows(w, w') && HubInv(w) && LogInv(w) && Refines(w) && AllAccounted(w)
    requires forall key :: ConsumedIn(w.log, key) ==> key.id in w.hub
    ensures HubInv(w') && LogInv(w') && Refines(w') && AllAccounted(w')
  {
    assert w'.Current() == w.Current();
    forall i | 0 <= i < |w'.log|
      ensures KnownAll(w'.hub, w'.log[i].runs)
    {
      assert KnownAll(w.hub, w.log[i].runs);
      forall k | 0 <= k < |w.log[i].runs|
        ensures Known(w'.hub, w.log[i].runs[k])
      {
        assert Known(w.hub, w.log[i].runs[k]);
      }
    }
    forall id | id in w'.hub
      ensures RunAccounted(w', id)
    {
      if id in w.hub {
        assert RunAccounted(w, id);
      }
    }
    forall i, k | 0 <= i < |w'.log| && 0 <= k < |w'.log[i].runs|
      ensures AttemptAccounted(w', w'.log[i].runs[k])
    {
      assert AttemptAccounted(w, w.log[i].runs[k]);
    }
  }

  lemma ConsumedIsKnown(w: World, key: RunKey)
    requires LogInv(w) && ConsumedIn(w.log, key)
    ensures key.id in w.hub
  {
    var i :| 0 <= i < |w.log| && ConsumedBy(w.log[i], key);
    var k :| 0 <= k < |w.log[i].runs| && Through(w.log[i].runs, w.log[i].answers, k) && w.log[i].runs[k].Key() == key;
    assert KnownAll(w.hub, w.log[i].runs);
    assert Known(w.hub, w.log[i].runs[k]);
  }

  predicate WorldStep(step: Step) {
    step.Tick? || step.Created? || step.Completed? || step.Rerun?
  }

  lemma WorldStepFrame(w: World, step: Step, w': World)
    requires HubInv(w) && LeaseInv(w) && Next(w, step, w') && WorldStep(step)
    ensures HubGrows(w, w') && LeaseInv(w') && w'.pods == w.pods
  {
  }

  lemma WorldStepKeeps(w: World, step: Step, w': World)
    requires Inv(w) && Next(w, step, w') && WorldStep(step)
    ensures Inv(w')
  {
    WorldStepFrame(w, step, w');
    forall key | ConsumedIn(w.log, key)
      ensures key.id in w.hub
    {
      ConsumedIsKnown(w, key);
    }
    HubGrowsKeeps(w, w');
    forall p | p in w'.pods
      ensures StageInv(w', w'.pods[p].stage)
    {
      StageFrame(w, w', w.pods[p].stage);
    }
  }

  /** While a timely pod is in its poll nobody else is, and the lease is not vacant. */
  lemma PollingHolds(w: World, p: Pod)
    requires LeaseInv(w) && Timely(w, TTL) && p in w.pods && w.pods[p].InPoll()
    ensures HeldBy(w.lease, w.now, p)
    ensures forall q :: q in w.pods && w.pods[q].InPoll() ==> q == p
  {
  }

  lemma TimelyIsExclusive(w: World)
    requires LeaseInv(w) && Timely(w, TTL)
    ensures Exclusive(w)
  {
    forall p, q | p in w.pods && q in w.pods && w.pods[p].InPoll() && w.pods[q].InPoll()
      ensures p == q
    {
      PollingHolds(w, p);
    }
  }

  /** A fresh listing covers the hub as it is. */
  lemma ListCovers(w: World, since: Time, runs: seq<Run>)
    requires HubInv(w) && LogInv(w) && Listing(w.hub, since, runs) && since <= w.now
    ensures Covers(w, since, w.now, runs)
  {
    forall i | 0 <= i < |runs|
      ensures Known(w.hub, runs[i]) && since <= runs[i].created <= w.now
    {
    }
    forall id | id in w.hub && since <= w.hub[id].created
      ensures Lists(runs, id, 0)
    {
      assert Lists(runs, id, w.hub[id].attempt);
    }
    forall i, k | 0 <= i < |w.log| && 0 <= k < |w.log[i].runs| && since <= w.log[i].runs[k].created
      ensures Lists(runs, w.log[i].runs[k].id, w.log[i].runs[k].attempt)
    {
      var run := w.log[i].runs[k];
      assert KnownAll(w.hub, w.log[i].runs);
      assert Known(w.hub, run);
      assert Lists(runs, run.id, w.hub[run.id].attempt);
    }
  }

  predicate LeaseStep(step: Step) {
    step.TakeLease? || step.Renew? || step.Release? || step.Fail? || step.Crash?
  }

  lemma LeaseStepLease(w: World, step: Step, w': World)
    requires LeaseInv(w) && Timely(w, TTL) && Next(w, step, w') && LeaseStep(step)
    ensures LeaseInv(w')
  {
    forall p | p in w'.pods && w'.pods[p].InPoll()
      ensures w'.lease == Held(p, w'.pods[p].leasedAt + TTL) && w'.pods[p].leasedAt <= w'.now
    {
      if w.pods[p].InPoll() {
        PollingHolds(w, p);
      }
    }
  }

  lemma LeaseStepPods(w: World, step: Step, w': World)
    requires Next(w, step, w') && LeaseStep(step)
    ensures SameHistory(w, w')
    ensures forall p :: p in w'.pods ==> p in w.pods
    ensures forall p :: p in w'.pods && (w'.pods[p].stage.Reading? || w'.pods[p].stage.Consuming?) ==>
      SameListing(w.pods[p].stage, w'.pods[p].stage)
  {
  }

  /** The same poll at the same point, perhaps with the lease renewed. */
  predicate SameListing(s: Stage, s': Stage) {
    s' == s || (s.Consuming? && s' == s.(renewed := true))
  }

  lemma LeaseStepKeeps(w: World, step: Step, w': World)
    requires Inv(w) && Timely(w, TTL) && Next(w, step, w') && LeaseStep(step)
    ensures Inv(w')
  {
    LeaseStepPods(w, step, w');
    HistoryFrame(w, w');
    LeaseStepLease(w, step, w');
    PodsKeep(w, w');
  }

  /** A step that leaves the history and every pod's cursor and listing alone keeps what is said of them. */
  lemma PodsKeep(w: World, w': World)
    requires SameHistory(w, w') && PodInv(w)
    requires forall p :: p in w'.pods ==> p in w.pods
    requires forall p :: p in w'.pods && (w'.pods[p].stage.Reading? || w'.pods[p].stage.Consuming?) ==>
      SameListing(w.pods[p].stage, w'.pods[p].stage)
    ensures PodInv(w')
  {
    forall p | p in w'.pods
      ensures StageInv(w', w'.pods[p].stage)
    {
      StageFrame(w, w', w.pods[p].stage);
    }
  }

  predicate ReadStep(step: Step) {
    step.ReadCursor? || step.List? || step.Skip? || step.Consume?
  }

  lemma ReadStepFrame(w: World, step: Step, w': World)
    requires LeaseInv(w) && Next(w, step, w') && ReadStep(step)
    ensures SameHistory(w, w') && LeaseInv(w')
    ensures step.p in w.pods && w'.pods == w.pods[step.p := w'.pods[step.p]]
  {
  }

  /** The moved pod's own part: the cursor it read is the store's, and its listing covers the hub. */
  lemma ReadStepMoves(w: World, step: Step, w': World)
    requires HubInv(w) && LogInv(w) && PodInv(w) && Next(w, step, w') && ReadStep(step)
    ensures step.p in w.pods && step.p in w'.pods && StageInv(w, w'.pods[step.p].stage)
  {
    var s := w.pods[step.p].stage;
    assert StageInv(w, s);
    if step.List? {
      ListCovers(w, Since(s.cur.watermark, s.at, LOOKBACK), step.runs);
    } else if step.Skip? || step.Consume? {
      AnswerStaysTrue(w, s, if step.Skip? then false else step.ok, if step.Skip? then s.renewed else false);
    }
  }

  lemma AnswerStaysTrue(w: World, s: Stage, ok: bool, renewed: bool)
    requires s.Consuming? && StageInv(w, s) && |s.answers| < |s.runs|
    requires ok ==> !Done(s.cur, s.runs, s.answers, |s.answers|)
    ensures StageInv(w, s.(answers := s.answers + [ok], renewed := renewed))
  {
  }

  lemma ReadStepKeeps(w: World, step: Step, w': World)
    requires Inv(w) && Next(w, step, w') && ReadStep(step)
    ensures Inv(w')
  {
    ReadStepFrame(w, step, w');
    ReadStepMoves(w, step, w');
    HistoryFrame(w, w');
    forall p | p in w'.pods
      ensures StageInv(w', w'.pods[p].stage)
    {
      assert StageInv(w, w'.pods[p].stage);
      StageFrame(w, w', w'.pods[p].stage);
    }
  }

  lemma StageFrame(w: World, w': World, s: Stage)
    requires HubGrows(w, w') && StageInv(w, s)
    ensures StageInv(w', s)
  {
    assert w'.Current() == w.Current();
    if s.Consuming? {
      CoversStays(w, w', Since(s.cur.watermark, s.at, LOOKBACK), s.listedAt, s.runs);
    }
  }

  lemma WriteStepEnds(w: World, step: Step, w': World)
    requires LeaseInv(w) && Timely(w, TTL) && step.Write? && Next(w, step, w')
    ensures step.p in w.pods && w.pods[step.p].stage.Consuming?
    ensures SameHistory(Written(w, w.pods[step.p].stage, step.next), w')
    ensures forall q :: q in w'.pods ==> !w'.pods[q].InPoll()
  {
    PollingHolds(w, step.p);
  }

  lemma WriteStepHistory(w: World, s: Stage, next: Cursor, w': World)
    requires Writing(w, s, next) && SameHistory(Written(w, s, next), w')
    ensures HubInv(w') && LogInv(w') && Refines(w') && AllAccounted(w')
  {
    WriteKeepsLog(w, s, next);
    WriteRefines(w, s, next);
    WriteAccounts(w, s, next);
    HistoryFrame(Written(w, s, next), w');
  }

  lemma WriteStepKeeps(w: World, step: Step, w': World)
    requires Inv(w) && Timely(w, TTL) && step.Write? && Next(w, step, w')
    ensures Inv(w')
  {
    WriteStepEnds(w, step, w');
    var s := w.pods[step.p].stage;
    assert StageInv(w, s);
    WriteStepHistory(w, s, step.next, w');
    assert LeaseInv(w');
    assert PodInv(w');
  }

  lemma StepKeeps(w: World, step: Step, w': World)
    requires Inv(w) && Timely(w, TTL) && Next(w, step, w')
    ensures Inv(w')
  {
    match step
    case Tick(_) => WorldStepKeeps(w, step, w');
    case Created(_) => WorldStepKeeps(w, step, w');
    case Completed(_) => WorldStepKeeps(w, step, w');
    case Rerun(_) => WorldStepKeeps(w, step, w');
    case ReadCursor(_) => ReadStepKeeps(w, step, w');
    case List(_, _) => ReadStepKeeps(w, step, w');
    case Skip(_) => ReadStepKeeps(w, step, w');
    case Consume(_, _) => ReadStepKeeps(w, step, w');
    case Write(_, _) => WriteStepKeeps(w, step, w');
    case _ => LeaseStepKeeps(w, step, w');
  }

  // ----- the theorems, over every timely run

  lemma InitKeeps(w: World)
    requires Init(w)
    ensures Inv(w)
  {
  }

  lemma ShorterIsTimely(w: World, limit: Time)
    requires Timely(w, limit) && limit <= TTL
    ensures Timely(w, TTL)
  {
  }

  lemma {:induction false} RunKeeps(run: seq<World>, steps: seq<Step>, limit: Time, n: nat)
    requires IsRun(run, steps) && TimelyRun(run, limit) && limit <= TTL && n < |run|
    ensures Inv(run[n]) && Timely(run[n], TTL)
  {
    ShorterIsTimely(run[n], limit);
    if n == 0 {
      InitKeeps(run[0]);
    } else {
      RunKeeps(run, steps, limit, n - 1);
      assert Next(run[n - 1], steps[n - 1], run[n - 1 + 1]);
      StepKeeps(run[n - 1], steps[n - 1], run[n]);
    }
  }

  /** With stretches no longer than the lease's time to live, however many pods, crashes and expiries: one pod
      at a time polls, no cursor write overwrites another, and no two polls consume one attempt. */
  lemma PollersExclude(run: seq<World>, steps: seq<Step>, limit: Time, n: nat)
    requires IsRun(run, steps) && TimelyRun(run, limit) && limit <= TTL && n < |run|
    ensures Exclusive(run[n]) && Sequential(run[n].log) && ConsumedOnceEach(run[n].log)
  {
    RunKeeps(run, steps, limit, n);
    TimelyIsExclusive(run[n]);
  }

  /** A listing shows the runs since the cursor's watermark and within the lookback. */
  ghost predicate InLookback(cur: Cursor, at: Time, runs: seq<Run>) {
    forall i :: 0 <= i < |runs| ==> runs[i].created >= cur.watermark && runs[i].created + LOOKBACK >= at
  }

  ghost predicate PollInLookback(e: Poll) {
    && InLookback(e.before, e.at, e.runs)
    && e.after.watermark >= e.before.watermark && e.after.watermark + LOOKBACK >= e.at
  }

  ghost predicate AllInLookback(w: World) {
    && (forall i :: 0 <= i < |w.log| ==> PollInLookback(w.log[i]))
    && (forall p :: p in w.pods && w.pods[p].stage.Consuming? ==>
          InLookback(w.pods[p].stage.cur, w.pods[p].stage.at, w.pods[p].stage.runs))
  }

  lemma StepStaysInLookback(w: World, step: Step, w': World)
    requires AllInLookback(w) && Next(w, step, w')
    ensures AllInLookback(w')
  {
    if step.Write? {
      var s := w.pods[step.p].stage;
      WatermarkAdvances(s.cur, s.at, LOOKBACK, s.runs, s.answers, step.next);
    }
  }

  /** In any run, timely or not: no poll lists a run from behind the lookback or its watermark, and none leaves its
      watermark behind either, so that a store without a cursor starts there. */
  lemma PollsStayInLookback(run: seq<World>, steps: seq<Step>, n: nat, i: nat)
    requires IsRun(run, steps) && n < |run| && i < |run[n].log|
    ensures PollInLookback(run[n].log[i])
  {
    RunStaysInLookback(run, steps, n);
  }

  lemma {:induction false} RunStaysInLookback(run: seq<World>, steps: seq<Step>, n: nat)
    requires IsRun(run, steps) && n < |run|
    ensures AllInLookback(run[n])
  {
    if n > 0 {
      RunStaysInLookback(run, steps, n - 1);
      assert Next(run[n - 1], steps[n - 1], run[n - 1 + 1]);
      StepStaysInLookback(run[n - 1], steps[n - 1], run[n]);
    }
  }

  /** What a poll decides from its cursor's small window is what the whole history says. */
  lemma WindowIsHistory(run: seq<World>, steps: seq<Step>, limit: Time, n: nat, p: Pod, i: nat)
    requires IsRun(run, steps) && TimelyRun(run, limit) && limit <= TTL && n < |run|
    requires p in run[n].pods && run[n].pods[p].stage.Consuming? && i < |run[n].pods[p].stage.runs|
    ensures var s := run[n].pods[p].stage;
            s.runs[i].Key() in s.cur.consumed <==> ConsumedIn(run[n].log, s.runs[i].Key())
  {
    RunKeeps(run, steps, limit, n);
    var w, s := run[n], run[n].pods[p].stage;
    assert StageInv(w, s);
    assert Known(w.hub, s.runs[i]);
  }

  /** The log and the cursor it left. */
  ghost predicate LogMoves(log: seq<Poll>, cur: Cursor) {
    && Sequential(log) && cur == LastWritten(log)
    && forall i :: 0 <= i < |log| ==> log[i].before.watermark <= log[i].after.watermark
  }

  lemma LogHolds(run: seq<World>, steps: seq<Step>, limit: Time, n: nat)
    requires IsRun(run, steps) && TimelyRun(run, limit) && limit <= TTL && n < |run|
    ensures LogMoves(run[n].log, run[n].Current())
  {
    assert LogInv(run[n]) by {
      RunKeeps(run, steps, limit, n);
    }
  }

  lemma {:induction false} LastIsNewest(log: seq<Poll>, i: nat)
    requires LogMoves(log, LastWritten(log)) && i <= |log|
    ensures LastWritten(log[..i]).watermark <= LastWritten(log).watermark
  {
    if i == |log| {
      assert log[..i] == log;
    } else {
      var k := |log| - 1;
      var front := log[..k];
      assert front[..i] == log[..i] && log[k].before == LastWritten(front);
      assert forall j :: 0 <= j < k ==> front[..j] == log[..j] && front[j] == log[j];
      LastIsNewest(front, i);
    }
  }

  lemma StepLog(w: World, step: Step, w': World)
    requires Next(w, step, w')
    ensures w.log <= w'.log
  {
  }

  lemma {:induction false} LogOnlyGrows(run: seq<World>, steps: seq<Step>, m: nat, n: nat)
    requires IsRun(run, steps) && m <= n < |run|
    ensures run[m].log <= run[n].log
  {
    if m < n {
      LogOnlyGrows(run, steps, m, n - 1);
      StepLog(run[n - 1], steps[n - 1], run[n - 1 + 1]);
    }
  }

  /** The stored watermark never moves back. */
  lemma WatermarkNeverFalls(run: seq<World>, steps: seq<Step>, limit: Time, m: nat, n: nat)
    requires IsRun(run, steps) && TimelyRun(run, limit) && limit <= TTL && m <= n < |run|
    ensures run[m].Current().watermark <= run[n].Current().watermark
  {
    LogHolds(run, steps, limit, m);
    LogHolds(run, steps, limit, n);
    LogOnlyGrows(run, steps, m, n);
    LastIsNewest(run[n].log, |run[m].log|);
    assert run[n].log[..|run[m].log|] == run[m].log;
  }

  /** No run is lost and no listed attempt is: consumed, still ahead of the watermark, superseded, or too old. */
  lemma NothingIsLost(run: seq<World>, steps: seq<Step>, limit: Time, n: nat)
    requires IsRun(run, steps) && TimelyRun(run, limit) && limit <= TTL && n < |run|
    ensures forall id :: id in run[n].hub ==> RunAccounted(run[n], id)
    ensures forall i, k :: 0 <= i < |run[n].log| && 0 <= k < |run[n].log[i].runs| ==>
        AttemptAccounted(run[n], run[n].log[i].runs[k])
  {
    RunKeeps(run, steps, limit, n);
  }

  // ----- the bound is sharp: a stretch of TTL seconds lets an update be lost

  const SEVEN := Run(7, 1, 1, true)
  const AFTER_ONE := Cursor(1, map[RunKey(7, 1) := 1], 181)
  const AFTER_ZERO := Cursor(0, map[], 1)

  function LapseStep(n: nat): Step {
    match n
    case 0 => TakeLease(0)
    case 1 => ReadCursor(0)
    case 2 => List(0, [])
    case 3 => Created(7)
    case 4 => Completed(7)
    case 5 => Tick(TTL)
    case 6 => TakeLease(1)
    case 7 => ReadCursor(1)
    case 8 => List(1, [SEVEN])
    case 9 => Renew(1)
    case 10 => Consume(1, true)
    case 11 => Renew(1)
    case 12 => Write(1, AFTER_ONE)
    case 13 => Release(1, true)
    case 14 => Renew(0)
    case _ => Write(0, AFTER_ZERO)
  }

  /** Pod 0 lists, then sleeps through its lease; pod 1 polls, consumes run 7 and writes; pod 0 wakes, takes the
      vacant lease with what it believes is a renewal, and writes the cursor it computed before. */
  function Lapse(n: nat): World {
    var now := if n <= 5 then 1 else 181;
    var hub := if n <= 3 then map[] else map[7 := if n == 4 then Run(7, 1, 1, false) else SEVEN];
    var lease := if n == 0 then Free else if n <= 6 then Held(0, 181) else if n <= 13 then Held(1, 361)
                 else if n == 14 then Free else Held(0, 361);
    var zero := if n == 0 then Idle else if n == 1 then Leased else if n == 2 then Reading(1, NO_CURSOR)
                else if n <= 15 then Consuming(1, NO_CURSOR, 1, [], [], n == 15) else Releasing;
    var one := if n <= 6 then Idle else if n == 7 then Leased else if n == 8 then Reading(181, NO_CURSOR)
               else if n == 9 then Consuming(181, NO_CURSOR, 181, [SEVEN], [], false)
               else if n == 10 then Consuming(181, NO_CURSOR, 181, [SEVEN], [], true)
               else if n == 11 then Consuming(181, NO_CURSOR, 181, [SEVEN], [true], false)
               else if n == 12 then Consuming(181, NO_CURSOR, 181, [SEVEN], [true], true)
               else if n == 13 then Releasing else Idle;
    var first := Poll(181, NO_CURSOR, [SEVEN], [true], AFTER_ONE);
    var cursor := if n <= 12 then None else if n <= 15 then Some(AFTER_ONE) else Some(AFTER_ZERO);
    var log := if n <= 12 then [] else if n <= 15 then [first] else [first, Poll(1, NO_CURSOR, [], [], AFTER_ZERO)];
    World(now, hub, lease, cursor,
          map[0 := PodState(zero, if n == 0 then 0 else if n <= 14 then 1 else 181),
              1 := PodState(one, if n <= 6 then 0 else 181)], log)
  }

  lemma LapseListing()
    ensures Listing(Lapse(2).hub, Since(ZERO, 1, LOOKBACK), [])
    ensures Listing(Lapse(8).hub, Since(ZERO, 181, LOOKBACK), [SEVEN])
  {
    assert [SEVEN][0] == SEVEN;
    assert Lists([SEVEN], 7, 1);
  }

  lemma LapsePolled()
    ensures Polled(NO_CURSOR, 181, LOOKBACK, [SEVEN], [true], AFTER_ONE)
    ensures Polled(NO_CURSOR, 1, LOOKBACK, [], [], AFTER_ZERO)
  {
    var runs, answers := [SEVEN], [true];
    assert Through(runs, answers, 0) && runs[0].Key() == RunKey(7, 1);
    assert ThroughKey(runs, answers, 1, RunKey(7, 1));
    assert IsNewest(Since(ZERO, 181, LOOKBACK), runs, 1);
    assert WatermarkMoved(NO_CURSOR, 181, LOOKBACK, runs, answers, 1);
    assert IsNewest(Since(ZERO, 1, LOOKBACK), [], 0);
  }

  lemma LapseNextWorld(n: nat)
    requires 3 <= n <= 5
    ensures Next(Lapse(n), LapseStep(n), Lapse(n + 1))
  {
  }

  lemma LapseNextZero(n: nat)
    requires n <= 2 || n == 14
    ensures Next(Lapse(n), LapseStep(n), Lapse(n + 1))
  {
    if n == 2 {
      LapseListing();
    }
    assert Lapse(n).pods[0 := Lapse(n + 1).pods[0]] == Lapse(n + 1).pods;
  }

  lemma LapseNextOne(n: nat)
    requires 6 <= n <= 11 || n == 13
    ensures Next(Lapse(n), LapseStep(n), Lapse(n + 1))
  {
    if n == 8 {
      LapseListing();
    }
    if n == 10 {
      assert Lapse(n).pods[1].stage.answers + [true] == [true];
    }
    assert Lapse(n).pods[1 := Lapse(n + 1).pods[1]] == Lapse(n + 1).pods;
  }

  lemma LapseNextWrite(n: nat)
    requires n == 12 || n == 15
    ensures Next(Lapse(n), LapseStep(n), Lapse(n + 1))
  {
    LapsePolled();
    var p := if n == 12 then 1 else 0;
    assert Lapse(n).pods[p := Lapse(n + 1).pods[p]] == Lapse(n + 1).pods;
  }

  lemma LapseNext(n: nat)
    requires n < 16
    ensures Next(Lapse(n), LapseStep(n), Lapse(n + 1))
  {
    if n <= 2 || n == 14 {
      LapseNextZero(n);
    } else if n <= 5 {
      LapseNextWorld(n);
    } else if n == 12 || n == 15 {
      LapseNextWrite(n);
    } else {
      LapseNextOne(n);
    }
  }

  lemma LapseIsRun(limit: Time)
    requires TTL < limit
    ensures IsRun(seq(17, n requires 0 <= n => Lapse(n)), seq(16, n requires 0 <= n => LapseStep(n)))
    ensures TimelyRun(seq(17, n requires 0 <= n => Lapse(n)), limit)
  {
    forall n | 0 <= n < 16
      ensures Next(Lapse(n), LapseStep(n), Lapse(n + 1))
    {
      LapseNext(n);
    }
  }

  /** Pollers are safe under every run whose stretches stay below limit exactly when limit is at most the TTL. */
  lemma TTLIsSharp(limit: Time)
    ensures (forall run: seq<World>, steps: seq<Step> :: IsRun(run, steps) && TimelyRun(run, limit) ==>
        Sequential(run[|run| - 1].log)) <==> limit <= TTL
  {
    if limit <= TTL {
      forall run: seq<World>, steps: seq<Step> | IsRun(run, steps) && TimelyRun(run, limit)
        ensures Sequential(run[|run| - 1].log)
      {
        PollersExclude(run, steps, limit, |run| - 1);
      }
    } else {
      LapseIsRun(limit);
      var run, steps := seq(17, n requires 0 <= n => Lapse(n)), seq(16, n requires 0 <= n => LapseStep(n));
      assert IsRun(run, steps) && TimelyRun(run, limit);
      var log := run[16].log;
      assert log[1].before == NO_CURSOR && LastWritten(log[..1]) == AFTER_ONE;
      assert !Sequential(log);
    }
  }

  /** What the lost update does: run 7 is consumed, not older than the watermark, and not in the cursor. */
  lemma LapseForgetsARun()
    ensures ConsumedIn(Lapse(16).log, RunKey(7, 1)) && Lapse(16).hub[7].created >= Lapse(16).Current().watermark
    ensures RunKey(7, 1) !in Lapse(16).Current().consumed
  {
    var first := Lapse(16).log[0];
    assert Through(first.runs, first.answers, 0) && first.runs[0].Key() == RunKey(7, 1);
    assert ConsumedBy(first, RunKey(7, 1));
  }
}
