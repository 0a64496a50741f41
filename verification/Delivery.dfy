/**
What becomes of a run's artifact: read, stored as its repository's last run, and told to the team once.
Every call into the store, GitHub and the gateway is a choice of the environment; so is a crash between
the store, the post and the note of the post.
*/
module Delivery {
  import opened Common
  import opened ReconcilerCursors

  /** retryWindow in seconds: how long after a run completed its artifact is tried again. */
  const RETRY_WINDOW: Time := 1800

  /** What a run is about for the team: nothing, an edit nobody announces, or a change with a sentence. */
  datatype Change = NotPersonMade | Edited | Announced

  datatype LastRun = LastRun(key: RunKey, finished: Time, change: Change, told: bool)

  /** The parts of a record the delivery reads. */
  datatype Record = Record(declared: bool, onGitHub: bool, pending: bool, lastRun: Option<LastRun>) {
    /** It stands for a repository neither declared nor on GitHub whose run is expected. */
    predicate AwaitsCreation() {
      !declared && !onGitHub && pending
    }

    predicate Names(key: RunKey) {
      lastRun.Some? && lastRun.value.key == key
    }
  }

  /** A run's artifact for the repository: what it says never changes, whether it can be read now may. */
  datatype Artifact = Artifact(key: RunKey, finished: Time, oversize: bool, decodes: bool, change: Change) {
    predicate WellFormed() {
      !oversize && decodes
    }
  }

  datatype Channel = NoReview | NoIdentity | NotMessaged | Unreadable | Reachable

  datatype Crash = NoCrash | BeforeStore | AfterStore | AfterPost

  /** The environment of one attempt at an artifact: expired, an artifact is passed over; deletes says whether the store
      drops the record of a repository that is gone. */
  datatype Env = Env(
    expired: bool, storeReads: bool, hook: bool, downloads: bool,
    sources: bool, declared: bool, onGitHub: bool, rereads: bool, puts: bool, deletes: bool,
    otherNews: bool, channel: Channel, posts: bool, remembers: bool, crash: Crash)

  datatype Outcome =
    | PassedOver   // GitHub no longer has the artifact
    | Taken        // no error: stored and told, or told now
    | Skipped      // the record names the run and it needs no telling, or it carries a later run
    | Malformed
    | NotFound     // neither declared nor on GitHub
    | NotTold
    | Unread       // the store, the download or a source failed
    | Crashed

  /** One attempt's effect. */
  datatype Effect = Effect(record: Option<Record>, posted: bool, noted: bool, outcome: Outcome)

  /** The run's messages are empty: nobody's change, or nothing to say. */
  predicate HasNews(change: Change, e: Env) {
    change == Announced || (change == Edited && e.otherNews)
  }

  /** The completion hook on a stored record: posts the change sentence once, notes the run as told. */
  function Tell(rec: Record, e: Env): (r: Effect)
    requires rec.lastRun.Some?
  {
    var run := rec.lastRun.value;
    if !rec.declared || !HasNews(run.change, e) then Effect(Some(rec), false, false, Taken)
    else match e.channel
      case NoReview => Effect(Some(rec), false, false, Taken)
      case NoIdentity => Effect(Some(rec), false, false, NotTold)
      case NotMessaged => Effect(Some(rec), false, false, Taken)
      case Unreadable => Effect(Some(rec), false, false, NotTold)
      case Reachable =>
        var tries := run.change == Announced && !run.told;
        var posted := tries && e.posts;
        var told := !tries || e.posts;
        if e.crash == AfterPost then Effect(Some(rec), posted, false, Crashed)
        else
          var kept := if e.remembers then rec.(lastRun := Some(run.(told := told))) else rec;
          Effect(Some(kept), posted, e.remembers, if told then Taken else NotTold)
  }

  /** One attempt at the artifact: the replay of a run the record names, a malformed or later-passed one, or the
      refresh that stores it. */
  function Consume(rec: Option<Record>, a: Artifact, e: Env): (r: Effect) {
    if e.expired then Effect(rec, false, false, PassedOver)
    else if !e.storeReads then Effect(rec, false, false, Unread)
    else if rec.Some? && rec.value.Names(a.key) then
      if rec.value.lastRun.value.told || !e.hook then Effect(rec, false, false, Skipped)
      else Tell(rec.value, e)
    else if a.oversize then Effect(rec, false, false, Malformed)
    else if !e.downloads then Effect(rec, false, false, Unread)
    else if !a.decodes then Effect(rec, false, false, Malformed)
    else if rec.Some? && rec.value.lastRun.Some? && rec.value.lastRun.value.finished > a.finished then
      Effect(rec, false, false, Skipped)
    else Refresh(rec, a, e)
  }

  /** The refresh with the run: the record rebuilt around it, stored, and told. */
  function Refresh(rec: Option<Record>, a: Artifact, e: Env): (r: Effect) {
    if !e.sources || !e.rereads || e.crash == BeforeStore then
      Effect(rec, false, false, if e.crash == BeforeStore then Crashed else Unread)
    else if !e.declared && !e.onGitHub then
      if rec.Some? && rec.value.AwaitsCreation() then Effect(rec, false, false, Taken)
      else Effect(if e.deletes then None else rec, false, false, NotFound)
    else if !e.puts then Effect(rec, false, false, Unread)
    else
      var stored := Record(e.declared, e.onGitHub, false, Some(LastRun(a.key, a.finished, a.change, false)));
      if e.crash == AfterStore then Effect(Some(stored), false, false, Crashed)
      else if e.hook then Tell(stored, e)
      else Effect(Some(stored), false, false, Taken)
  }

  /** The outcome keeps the run open for the next poll. */
  predicate KeepsOpen(outcome: Outcome, sinceCompletion: Time) {
    match outcome
    case PassedOver => false
    case Taken => false
    case Skipped => false
    case Malformed => false
    case NotFound => sinceCompletion < RETRY_WINDOW
    case NotTold => sinceCompletion < RETRY_WINDOW
    case Unread => true
    case Crashed => true
  }

  // ----- what keeps a run open, from the environment alone

  /** The artifact is downloaded: the record does not name its run, and it is not too big. */
  predicate Downloads(rec: Option<Record>, a: Artifact, e: Env) {
    !e.expired && e.storeReads && !(rec.Some? && rec.value.Names(a.key)) && !a.oversize
  }

  /** The repository is refreshed with the run: the artifact decodes, and no later run stands on the record. */
  predicate Refreshes(rec: Option<Record>, a: Artifact, e: Env) {
    && Downloads(rec, a, e) && e.downloads && a.decodes
    && !(rec.Some? && rec.value.lastRun.Some? && rec.value.lastRun.value.finished > a.finished)
  }

  /** The refresh gets to its write. */
  predicate Writes(rec: Option<Record>, a: Artifact, e: Env) {
    Refreshes(rec, a, e) && e.crash != BeforeStore && e.sources && e.rereads && (e.declared || e.onGitHub)
  }

  /** The run has something to tell: its change, or of an edit nobody announces what else it found. */
  predicate Speaks(change: Change, e: Env) {
    match change
    case NotPersonMade => false
    case Edited => e.otherNews
    case Announced => true
  }

  /** The attempt gets to the telling of a run not noted as told. */
  predicate Tells(rec: Option<Record>, a: Artifact, e: Env) {
    && e.hook
    && if !e.expired && e.storeReads && rec.Some? && rec.value.Names(a.key)
       then !rec.value.lastRun.value.told && rec.value.declared && Speaks(rec.value.lastRun.value.change, e)
       else Writes(rec, a, e) && e.puts && e.crash != AfterStore && e.declared && Speaks(a.change, e)
  }

  /** What the telling announces of the run. */
  function Announces(rec: Option<Record>, a: Artifact): Change {
    if rec.Some? && rec.value.Names(a.key) then rec.value.lastRun.value.change else a.change
  }

  /** A read, a download, a source or a write that the attempt needed failed, or it crashed. */
  predicate Failed(rec: Option<Record>, a: Artifact, e: Env) {
    || (!e.expired && !e.storeReads)
    || (Downloads(rec, a, e) && !e.downloads)
    || (Refreshes(rec, a, e) && (!e.sources || !e.rereads || e.crash == BeforeStore))
    || (Writes(rec, a, e) && (!e.puts || e.crash == AfterStore))
    || (Tells(rec, a, e) && e.channel == Reachable && e.crash == AfterPost)
  }

  /** The repository is neither declared nor on GitHub, nor awaits its creation. */
  predicate NoRepository(rec: Option<Record>, a: Artifact, e: Env) {
    && Refreshes(rec, a, e) && !Failed(rec, a, e) && !e.declared && !e.onGitHub
    && !(rec.Some? && !rec.value.declared && !rec.value.onGitHub && rec.value.pending)
  }

  /** The team's channel cannot be found now, or did not take the change sentence. */
  predicate TeamNotTold(rec: Option<Record>, a: Artifact, e: Env) {
    && Tells(rec, a, e) && !Failed(rec, a, e)
    && (e.channel == NoIdentity || e.channel == Unreadable
        || (e.channel == Reachable && Announces(rec, a) == Announced && !e.posts))
  }

  /** What keeps a run open for good is a failure; a repository that is not there and a team not told do for the retry
      window, counted from the run's completion. */
  predicate HeldOpen(rec: Option<Record>, a: Artifact, e: Env, sinceCompletion: Time) {
    || Failed(rec, a, e)
    || (sinceCompletion < RETRY_WINDOW && (NoRepository(rec, a, e) || TeamNotTold(rec, a, e)))
  }

  lemma ReplayHolds(rec: Option<Record>, a: Artifact, e: Env, sinceCompletion: Time)
    requires !e.expired && e.storeReads && rec.Some? && rec.value.Names(a.key)
    ensures KeepsOpen(Consume(rec, a, e).outcome, sinceCompletion) <==> HeldOpen(rec, a, e, sinceCompletion)
  {
  }

  lemma StoredHolds(rec: Option<Record>, a: Artifact, e: Env, sinceCompletion: Time)
    requires Writes(rec, a, e)
    ensures KeepsOpen(Consume(rec, a, e).outcome, sinceCompletion) <==> HeldOpen(rec, a, e, sinceCompletion)
  {
    assert Consume(rec, a, e) == Refresh(rec, a, e);
  }

  /** An attempt keeps its run open exactly so; at or after the window only a failure does. */
  lemma KeepsOpenExactly(rec: Option<Record>, a: Artifact, e: Env, sinceCompletion: Time)
    ensures KeepsOpen(Consume(rec, a, e).outcome, sinceCompletion) <==> HeldOpen(rec, a, e, sinceCompletion)
    ensures sinceCompletion >= RETRY_WINDOW ==>
              (KeepsOpen(Consume(rec, a, e).outcome, sinceCompletion) <==> Failed(rec, a, e))
  {
    if !e.expired && e.storeReads && rec.Some? && rec.value.Names(a.key) {
      ReplayHolds(rec, a, e, sinceCompletion);
    } else if Writes(rec, a, e) {
      StoredHolds(rec, a, e, sinceCompletion);
    }
  }

  /** The attempt ends with the run noted as told: it got to a team that can be told, and the sentence, where there is
      one, was delivered now; and the store took the note. */
  predicate NotesTold(rec: Option<Record>, a: Artifact, e: Env) {
    && Tells(rec, a, e) && e.channel == Reachable && e.crash != AfterPost && e.remembers
    && (Announces(rec, a) == Announced ==> e.posts)
  }

  /** What an attempt leaves on the record, exactly: the run it stored, around what the sources say, with nothing
      expected any more; no record, where the repository is gone and the store dropped it; else the record as it was,
      its run noted as told if the attempt told it. */
  lemma ConsumeLeaves(rec: Option<Record>, a: Artifact, e: Env)
    ensures Consume(rec, a, e).record
         == if Writes(rec, a, e) && e.puts then
              Some(Record(e.declared, e.onGitHub, false,
                          Some(LastRun(a.key, a.finished, a.change, NotesTold(rec, a, e)))))
            else if NoRepository(rec, a, e) && e.deletes then None
            else if NotesTold(rec, a, e) then
              Some(rec.value.(lastRun := Some(rec.value.lastRun.value.(told := true))))
            else rec
  {
    if !e.expired && e.storeReads && rec.Some? && rec.value.Names(a.key) {
      ReplayLeaves(rec, a, e);
    } else if Writes(rec, a, e) {
      assert Consume(rec, a, e) == Refresh(rec, a, e);
    }
  }

  lemma ReplayLeaves(rec: Option<Record>, a: Artifact, e: Env)
    requires !e.expired && e.storeReads && rec.Some? && rec.value.Names(a.key)
    ensures Consume(rec, a, e).record
         == if NotesTold(rec, a, e) then Some(rec.value.(lastRun := Some(rec.value.lastRun.value.(told := true))))
            else rec
  {
    var run := rec.value.lastRun.value;
    assert !run.told ==> run.(told := false) == run;
  }

  // ----- consumeRun over the artifacts of one run

  /** One repository's artifact of a run, with what the environment does to it. */
  datatype Report = Report(name: string, artifact: Artifact, env: Env)

  function Lookup(records: map<string, Record>, name: string): Option<Record> {
    if name in records then Some(records[name]) else None
  }

  function Stored(records: map<string, Record>, name: string, rec: Option<Record>): (r: map<string, Record>)
    ensures Lookup(r, name) == rec
    ensures forall other :: other != name ==> Lookup(r, other) == Lookup(records, other)
  {
    if rec.Some? then records[name := rec.value] else records - {name}
  }

  /** A repository's record after its reports among these, in their order. */
  function RecordAfter(rec: Option<Record>, reports: seq<Report>, name: string): Option<Record> {
    if reports == [] then rec
    else
      var before, r := RecordAfter(rec, reports[..|reports| - 1], name), reports[|reports| - 1];
      if r.name == name then Consume(before, r.artifact, r.env).record else before
  }

  /** The k-th report finds its record as the ones before it left it. */
  function EffectOf(records: map<string, Record>, reports: seq<Report>, k: nat): Effect
    requires k < |reports|
  {
    var r := reports[k];
    Consume(FoundBy(records, reports, k), r.artifact, r.env)
  }

  function FoundBy(records: map<string, Record>, reports: seq<Report>, k: nat): Option<Record>
    requires k < |reports|
  {
    RecordAfter(Lookup(records, reports[k].name), reports[..k], reports[k].name)
  }

  /** No report holds the run open. */
  predicate NoneHolds(records: map<string, Record>, reports: seq<Report>, sinceCompletion: Time) {
    forall i :: 0 <= i < |reports| ==>
      !HeldOpen(FoundBy(records, reports, i), reports[i].artifact, reports[i].env, sinceCompletion)
  }

  lemma NoneHoldsExactly(records: map<string, Record>, reports: seq<Report>, sinceCompletion: Time)
    ensures NoneHolds(records, reports, sinceCompletion) <==>
              forall i :: 0 <= i < |reports| ==> !KeepsOpen(EffectOf(records, reports, i).outcome, sinceCompletion)
  {
    forall i | 0 <= i < |reports|
      ensures KeepsOpen(EffectOf(records, reports, i).outcome, sinceCompletion) <==>
              HeldOpen(FoundBy(records, reports, i), reports[i].artifact, reports[i].env, sinceCompletion)
    {
      KeepsOpenExactly(FoundBy(records, reports, i), reports[i].artifact, reports[i].env, sinceCompletion);
    }
  }

  class Collector {
    var records: map<string, Record>

    constructor ()
      ensures records == map[]
    {
      records := map[];
    }

    /** Every artifact of a completed run; the answer is whether the run is read through. */
    method ConsumeRun(reports: seq<Report>, sinceCompletion: Time) returns (through: bool)
      modifies this
      ensures through <==> NoneHolds(old(records), reports, sinceCompletion)
      ensures forall name :: Lookup(records, name) == RecordAfter(old(Lookup(records, name)), reports, name)
    {
      through := true;
      for n := 0 to |reports|
        invariant through <==> forall i :: 0 <= i < n ==>
                    !KeepsOpen(EffectOf(old(records), reports, i).outcome, sinceCompletion)
        invariant forall name :: Lookup(records, name) == RecordAfter(old(Lookup(records, name)), reports[..n], name)
      {
        var r := reports[n];
        assert reports[..n + 1][..n] == reports[..n];
        var effect := Consume(Lookup(records, r.name), r.artifact, r.env);
        assert effect == EffectOf(old(records), reports, n);
        records := Stored(records, r.name, effect.record);
        if KeepsOpen(effect.outcome, sinceCompletion) {
          through := false;
        }
      }
      assert reports[..|reports|] == reports;
      NoneHoldsExactly(old(records), reports, sinceCompletion);
    }
  }

  lemma {:induction false} UnnamedIsLeft(rec: Option<Record>, reports: seq<Report>, name: string)
    requires forall i :: 0 <= i < |reports| ==> reports[i].name != name
    ensures RecordAfter(rec, reports, name) == rec
  {
    if reports != [] {
      UnnamedIsLeft(rec, reports[..|reports| - 1], name);
    }
  }

  /** Reports of different repositories do not meet: each is consumed from the record as the run found it, whatever the
      order. */
  lemma {:induction false} ReportsApart(records: map<string, Record>, reports: seq<Report>, k: nat)
    requires k < |reports| && forall i, j :: 0 <= i < j < |reports| ==> reports[i].name != reports[j].name
    ensures var r := reports[k];
            && EffectOf(records, reports, k) == Consume(Lookup(records, r.name), r.artifact, r.env)
            && RecordAfter(Lookup(records, r.name), reports, r.name)
               == Consume(Lookup(records, r.name), r.artifact, r.env).record
    decreases |reports|
  {
    var n, r := |reports| - 1, reports[k];
    UnnamedIsLeft(Lookup(records, r.name), reports[..k], r.name);
    if k < n {
      assert reports[..n][..k] == reports[..k] && reports[..n][k] == r;
      ReportsApart(records, reports[..n], k);
    }
  }

  // ----- histories of one repository

  /** An attempt at an artifact; the record removed by somebody else (a sweep, a refresh on demand); a mark of an
      expected run made or ended; a sweep reading its records, and writing the record back around the set-up state it
      read. */
  datatype Event =
    | Attempt(a: Artifact, e: Env)
    | Removed
    | Expects(pending: bool)
    | SweepReads
    | SweepWrites(declared: bool, onGitHub: bool)

  /** The stored record and the copy a sweep holds; the change sentences posted so far, and the ones among them nobody
      noted; how often the record was removed, and how often a sweep put another last run back. */
  datatype History = History(record: Option<Record>, copy: Option<Option<Record>>, posts: seq<RunKey>,
                             unnoted: seq<RunKey>, removals: nat, rollbacks: nat)

  const START := History(None, None, [], [], 0, 0)

  function RunOf(rec: Option<Record>): Option<LastRun> {
    if rec.Some? then rec.value.lastRun else None
  }

  /** The record a sweep builds for a repository it found declared or on GitHub. */
  function Swept(copy: Option<Record>, declared: bool, onGitHub: bool): Record {
    Record(declared, onGitHub, copy.Some? && copy.value.pending, RunOf(copy))
  }

  function Happen(h: History, event: Event): History {
    match event
    case Removed => h.(record := None, removals := h.removals + 1)
    case Expects(pending) =>
      if h.record.Some? then h.(record := Some(h.record.value.(pending := pending)))
      else if pending then h.(record := Some(Record(false, false, true, None)))
      else h
    case SweepReads => h.(copy := Some(h.record))
    case SweepWrites(declared, onGitHub) =>
      if h.copy.None? || (!declared && !onGitHub) then h
      else
        h.(record := Some(Swept(h.copy.value, declared, onGitHub)), copy := None,
           rollbacks := if RunOf(h.copy.value) == RunOf(h.record) then h.rollbacks else h.rollbacks + 1)
    case Attempt(a, e) =>
      var f := Consume(h.record, a, e);
      h.(record := f.record,
         posts := if f.posted then h.posts + [a.key] else h.posts,
         unnoted := if f.posted && !f.noted then h.unnoted + [a.key] else h.unnoted,
         removals := if h.record.Some? && f.record.None? then h.removals + 1 else h.removals)
  }

  function PlayFrom(h: History, events: seq<Event>): History {
    if events == [] then h else Happen(PlayFrom(h, events[..|events| - 1]), events[|events| - 1])
  }

  function Play(events: seq<Event>): History {
    PlayFrom(START, events)
  }

  /** A sweep's write puts back the last run and the mark its copy has, and takes the rest from what it read; it leaves
      a record alone whose repository it found nowhere. */
  lemma SweepLeaves(h: History, declared: bool, onGitHub: bool)
    ensures var h' := Happen(h, SweepWrites(declared, onGitHub));
            && h'.posts == h.posts && h'.removals == h.removals
            && (h.copy.Some? && (declared || onGitHub) ==>
                  var copy := h.copy.value;
                  && h'.record.Some? && h'.record.value.declared == declared && h'.record.value.onGitHub == onGitHub
                  && h'.record.value.lastRun == (if copy.Some? then copy.value.lastRun else None)
                  && (h'.record.value.pending <==> copy.Some? && copy.value.pending))
            && (h.copy.None? || (!declared && !onGitHub) ==> h'.record == h.record)
  {
  }

  /** The artifacts the events attempt: what one says is the same whenever it is read. */
  ghost predicate Over(events: seq<Event>, arts: set<Artifact>) {
    forall i :: 0 <= i < |events| && events[i].Attempt? ==> events[i].a in arts
  }

  lemma OverFront(events: seq<Event>, arts: set<Artifact>)
    requires events != [] && Over(events, arts)
    ensures Over(events[..|events| - 1], arts)
    ensures events[|events| - 1].Attempt? ==> events[|events| - 1].a in arts
  {
    var front := events[..|events| - 1];
    assert forall i :: 0 <= i < |front| ==> front[i] == events[i];
  }

  /** One artifact a run attempt. */
  ghost predicate DistinctKeys(arts: set<Artifact>) {
    forall a, b :: a in arts && b in arts && a.key == b.key ==> a == b
  }

  /** Different run attempts finish at different times. */
  ghost predicate DistinctTimes(arts: set<Artifact>) {
    forall a, b :: a in arts && b in arts && a.finished == b.finished ==> a.key == b.key
  }

  function Count(keys: seq<RunKey>, key: RunKey): nat {
    if keys == [] then 0 else Count(keys[..|keys| - 1], key) + if keys[|keys| - 1] == key then 1 else 0
  }

  lemma CountAppend(keys: seq<RunKey>, last: RunKey, key: RunKey)
    ensures Count(keys + [last], key) == Count(keys, key) + if last == key then 1 else 0
  {
    assert (keys + [last])[..|keys|] == keys;
  }

  lemma {:induction false} CountIsIn(keys: seq<RunKey>, key: RunKey)
    ensures Count(keys, key) > 0 <==> key in keys
  {
    if keys != [] {
      CountIsIn(keys[..|keys| - 1], key);
      assert keys == keys[..|keys| - 1] + [keys[|keys| - 1]];
    }
  }

  // ----- what a stored run says is true

  /** The run is an artifact's, and noted as told only if its sentence is among the posts or it has none. */
  ghost predicate IsTrue(run: Option<LastRun>, arts: set<Artifact>, posts: seq<RunKey>) {
    run.Some? ==>
      && (run.value.told ==> run.value.key in posts || run.value.change != Announced)
      && exists a :: a in arts && IsRunOf(run.value, a)
  }

  predicate IsRunOf(run: LastRun, a: Artifact) {
    run.key == a.key && run.finished == a.finished && run.change == a.change
  }

  lemma StepKeepsTrue(h: History, event: Event, arts: set<Artifact>)
    requires IsTrue(RunOf(h.record), arts, h.posts) && (h.copy.Some? ==> IsTrue(RunOf(h.copy.value), arts, h.posts))
    requires event.Attempt? ==> event.a in arts
    ensures var h' := Happen(h, event);
            IsTrue(RunOf(h'.record), arts, h'.posts) && (h'.copy.Some? ==> IsTrue(RunOf(h'.copy.value), arts, h'.posts))
  {
    if event.Attempt? {
      var run := RunOf(Happen(h, event).record);
      if run.Some? && !(RunOf(h.record).Some? && run.value.(told := false) == RunOf(h.record).value.(told := false)) {
        assert IsRunOf(run.value, event.a);
      } else if run.Some? {
        var a :| a in arts && IsRunOf(RunOf(h.record).value, a);
        assert IsRunOf(run.value, a);
      }
    }
  }

  /** A run noted as told was told: its sentence is among the posts, or it has none; a sweep that puts a run back puts
      a true one back. */
  lemma {:induction false} ToldWasPosted(events: seq<Event>, arts: set<Artifact>)
    requires Over(events, arts)
    ensures var h := Play(events);
            IsTrue(RunOf(h.record), arts, h.posts) && (h.copy.Some? ==> IsTrue(RunOf(h.copy.value), arts, h.posts))
  {
    if events != [] {
      OverFront(events, arts);
      ToldWasPosted(events[..|events| - 1], arts);
      StepKeepsTrue(Play(events[..|events| - 1]), events[|events| - 1], arts);
    }
  }

  // ----- an attempt that lets go of a run accounts for its artifact

  /** The attempt found the run on the record and got to its telling. */
  predicate Replays(rec: Option<Record>, a: Artifact, e: Env) {
    !e.expired && e.storeReads && rec.Some? && rec.value.Names(a.key)
  }

  /** The attempt stored the run. */
  predicate Rebuilds(rec: Option<Record>, a: Artifact, e: Env) {
    && !e.expired && e.storeReads && !(rec.Some? && rec.value.Names(a.key))
    && a.WellFormed() && e.downloads
    && !(RunOf(rec).Some? && RunOf(rec).value.finished > a.finished)
    && e.sources && e.rereads && e.crash != BeforeStore && (e.declared || e.onGitHub) && e.puts
  }

  /** The team is not told of the run by rule: nobody announces it; or the attempt got to the telling and found no
      hook, a record without a team, no review, or a team that is not messaged. */
  predicate SilentByRule(rec: Option<Record>, a: Artifact, e: Env) {
    || a.change != Announced
    || (Replays(rec, a, e) && (!e.hook || !rec.value.declared || e.channel == NoReview || e.channel == NotMessaged))
    || (Rebuilds(rec, a, e) && (!e.hook || !e.declared || e.channel == NoReview || e.channel == NotMessaged))
  }

  /** The record awaits a creation and the run finds the repository neither declared nor on GitHub: the run is taken
      without being stored. */
  predicate TakenUnstored(rec: Option<Record>, a: Artifact, e: Env) {
    && rec.Some? && rec.value.AwaitsCreation() && !rec.value.Names(a.key)
    && !e.expired && e.storeReads && e.downloads && e.sources && e.rereads && !e.declared && !e.onGitHub
  }

  ghost predicate Accounted(h: History, h': History, a: Artifact, e: Env, sinceCompletion: Time) {
    || a.key in h'.posts
    || e.expired
    || SilentByRule(h.record, a, e)
    || !a.WellFormed()
    || (RunOf(h'.record).Some? && RunOf(h'.record).value.finished > a.finished)
    || (sinceCompletion >= RETRY_WINDOW && (NoRepository(h.record, a, e) || TeamNotTold(h.record, a, e)))
    || TakenUnstored(h.record, a, e)
  }

  /** Whatever crashed, was refused, failed or was put back before: an attempt that does not keep the run open posted
      the change sentence now or earlier, had none to post or nobody to post it to, found the artifact expired or
      malformed, was passed by a later run, came after the retry window, or met a record that awaits its creation. */
  lemma ClosedIsAccounted(events: seq<Event>, arts: set<Artifact>, a: Artifact, e: Env, sinceCompletion: Time)
    requires Over(events, arts) && DistinctKeys(arts) && a in arts
    requires !KeepsOpen(Consume(Play(events).record, a, e).outcome, sinceCompletion)
    ensures Accounted(Play(events), Happen(Play(events), Attempt(a, e)), a, e, sinceCompletion)
  {
    ToldWasPosted(events, arts);
    ClosedStep(Play(events), a, e, sinceCompletion);
  }

  lemma ClosedStep(h: History, a: Artifact, e: Env, sinceCompletion: Time)
    requires !KeepsOpen(Consume(h.record, a, e).outcome, sinceCompletion)
    requires h.record.Some? && h.record.value.Names(a.key) ==>
               var run := h.record.value.lastRun.value;
               IsRunOf(run, a) && (run.told ==> a.key in h.posts || run.change != Announced)
    ensures Accounted(h, Happen(h, Attempt(a, e)), a, e, sinceCompletion)
  {
    KeepsOpenExactly(h.record, a, e, sinceCompletion);
    assert Rebuilds(h.record, a, e) ==> Consume(h.record, a, e) == Refresh(h.record, a, e);
  }

  /** Over any history: an attempt that ended without an error left its run on the record exactly when the record did
      not await a creation. */
  lemma TakenIsStoredExactly(events: seq<Event>, a: Artifact, e: Env)
    requires Consume(Play(events).record, a, e).outcome == Taken
    ensures var rec := Consume(Play(events).record, a, e).record;
            (rec.Some? && rec.value.Names(a.key)) <==> !TakenUnstored(Play(events).record, a, e)
  {
    var rec := Play(events).record;
    assert Rebuilds(rec, a, e) ==> Consume(rec, a, e) == Refresh(rec, a, e);
  }

  lemma AwaitedCreationLosesARun(a: Artifact, e: Env)
    requires a.WellFormed() && a.change == Announced
    requires !e.expired && e.storeReads && e.downloads && e.sources && e.rereads && e.crash == NoCrash
    requires !e.declared && !e.onGitHub
    ensures var h := Play([Expects(true)]);
            var h' := Play([Expects(true), Attempt(a, e)]);
            && h'.posts == [] && !(h'.record.Some? && h'.record.value.Names(a.key))
            && Consume(h.record, a, e).outcome == Taken && !KeepsOpen(Taken, 0)
  {
    assert [Expects(true), Attempt(a, e)][..1] == [Expects(true)] && [Expects(true)][..0] == [];
    TakenIsStoredExactly([Expects(true)], a, e);
  }

  // ----- when a change sentence is posted

  /** The attempt gets to the post, and the channel takes it. */
  predicate CouldPost(rec: Option<Record>, a: Artifact, e: Env) {
    && e.hook && e.channel == Reachable && e.posts
    && (|| (Replays(rec, a, e) && rec.value.declared && RunOf(rec).value.change == Announced)
        || (Rebuilds(rec, a, e) && e.crash != AfterStore && e.declared && a.change == Announced))
  }

  /** The record stands past the artifact: its own run noted as told, or a later run. */
  predicate Settles(run: Option<LastRun>, a: Artifact) {
    run.Some? && if run.value.key == a.key then run.value.told else run.value.finished > a.finished
  }

  lemma PostsExactly(rec: Option<Record>, a: Artifact, e: Env)
    ensures Consume(rec, a, e).posted <==> CouldPost(rec, a, e) && !Settles(RunOf(rec), a)
    ensures Consume(rec, a, e).posted && Consume(rec, a, e).noted ==> Settles(RunOf(Consume(rec, a, e).record), a)
  {
  }

  /** The event posts the artifact's sentence though it was posted before. */
  predicate PostedAgain(h: History, event: Event, a: Artifact) {
    && event.Attempt? && event.a == a && a.key in h.posts
    && CouldPost(h.record, a, event.e) && !Settles(RunOf(h.record), a)
  }

  /** Each time the artifact could be posted after it was, the record stands past it. */
  predicate AlwaysSettled(events: seq<Event>, a: Artifact) {
    events == [] ||
    (var n := |events| - 1;
     AlwaysSettled(events[..n], a) && !PostedAgain(Play(events[..n]), events[n], a))
  }

  lemma CountStep(h: History, event: Event, a: Artifact)
    requires event.Attempt? && event.a.key == a.key ==> event.a == a
    ensures Count(Happen(h, event).posts, a.key)
         == Count(h.posts, a.key)
            + if event.Attempt? && event.a == a && CouldPost(h.record, a, event.e) && !Settles(RunOf(h.record), a)
                then 1 else 0
    ensures Count(Happen(h, event).unnoted, a.key)
         == Count(h.unnoted, a.key)
            + if event.Attempt? && event.a == a && Consume(h.record, a, event.e).posted &&
                !Consume(h.record, a, event.e).noted
              then 1 else 0
  {
    if event.Attempt? {
      PostsExactly(h.record, event.a, event.e);
      CountAppend(h.posts, event.a.key, a.key);
      CountAppend(h.unnoted, event.a.key, a.key);
    }
  }

  /** Over any crashes, refused posts, failed writes, removals, sweeps and equal times: a run's sentence is posted at
      most once if and only if the record stands past it each time it could be posted again. */
  lemma {:induction false} PostedOnceExactly(events: seq<Event>, arts: set<Artifact>, a: Artifact)
    requires Over(events, arts) && DistinctKeys(arts) && a in arts
    ensures Count(Play(events).posts, a.key) <= 1 <==> AlwaysSettled(events, a)
  {
    if events != [] {
      var n := |events| - 1;
      OverFront(events, arts);
      PostedOnceExactly(events[..n], arts, a);
      CountStep(Play(events[..n]), events[n], a);
      CountIsIn(Play(events[..n]).posts, a.key);
    }
  }

  // ----- what takes a settled record back

  /** The event takes the record back behind the artifact. */
  predicate Unsettles(h: History, event: Event, a: Artifact) {
    Settles(RunOf(h.record), a) && !Settles(RunOf(Happen(h, event).record), a)
  }

  /** Exactly what does: the record's removal, or an attempt that finds the repository gone; a run of the very same
      finish time stored over the artifact's own; and a sweep that writes back a copy from before. */
  lemma UnsettlesExactly(h: History, event: Event, arts: set<Artifact>, a: Artifact)
    requires DistinctKeys(arts) && a in arts && (event.Attempt? ==> event.a in arts)
    requires IsTrue(RunOf(h.record), arts, h.posts) && Settles(RunOf(h.record), a)
    ensures Unsettles(h, event, a) <==>
              match event
              case Removed => true
              case Attempt(b, e) =>
                || Consume(h.record, b, e).record.None?
                || (RunOf(h.record).value.key == a.key && b.key != a.key && b.finished == a.finished &&
                    Rebuilds(h.record, b, e))
              case SweepWrites(declared, onGitHub) =>
                h.copy.Some? && (declared || onGitHub) && !Settles(RunOf(h.copy.value), a)
              case _ => false
  {
    if event.Attempt? {
      AttemptUnsettles(h.record, arts, event.a, event.e, a);
    }
  }

  lemma AttemptUnsettles(rec: Option<Record>, arts: set<Artifact>, b: Artifact, e: Env, a: Artifact)
    requires DistinctKeys(arts) && a in arts && b in arts && Settles(RunOf(rec), a)
    requires exists x :: x in arts && IsRunOf(RunOf(rec).value, x)
    ensures !Settles(RunOf(Consume(rec, b, e).record), a) <==>
              || Consume(rec, b, e).record.None?
              || (RunOf(rec).value.key == a.key && b.key != a.key && b.finished == a.finished && Rebuilds(rec, b, e))
  {
    var x :| x in arts && IsRunOf(RunOf(rec).value, x);
    assert RunOf(rec).value.key == a.key ==> x == a;
    assert RunOf(rec).value.key == b.key ==> x == b;
    if Rebuilds(rec, b, e) {
      assert Consume(rec, b, e) == Refresh(rec, b, e);
      assert RunOf(Consume(rec, b, e).record).Some? && RunOf(Consume(rec, b, e).record).value.key == b.key;
    } else if !Replays(rec, b, e) {
      assert Consume(rec, b, e).record == rec || Consume(rec, b, e).record.None?;
    }
  }

  /** How often the record was taken back behind the artifact. */
  function Setbacks(events: seq<Event>, a: Artifact): nat {
    if events == [] then 0
    else
      var n := |events| - 1;
      Setbacks(events[..n], a) + if Unsettles(Play(events[..n]), events[n], a) then 1 else 0
  }

  /** Over any history, a run's sentence is posted at most once more than its posts went unnoted, by a crash or a
      failed store write right after the post, and than the record was taken back behind it. */
  lemma {:induction false} PostedAtMostOnce(events: seq<Event>, arts: set<Artifact>, a: Artifact)
    requires Over(events, arts) && DistinctKeys(arts) && a in arts
    ensures var h := Play(events);
            Count(h.posts, a.key)
            <= Count(h.unnoted, a.key) + Setbacks(events, a) + if Settles(RunOf(h.record), a) then 1 else 0
  {
    if events != [] {
      var n := |events| - 1;
      OverFront(events, arts);
      PostedAtMostOnce(events[..n], arts, a);
      CountStep(Play(events[..n]), events[n], a);
      if events[n].Attempt? {
        PostsExactly(Play(events[..n]).record, events[n].a, events[n].e);
      }
    }
  }

  /** Where run attempts finish at different times, only removals and a sweep's roll-backs take the record back. */
  lemma {:induction false} SetbacksAreCounted(events: seq<Event>, arts: set<Artifact>, a: Artifact)
    requires Over(events, arts) && DistinctKeys(arts) && DistinctTimes(arts) && a in arts
    ensures Setbacks(events, a) <= Play(events).removals + Play(events).rollbacks
  {
    if events != [] {
      var n := |events| - 1;
      OverFront(events, arts);
      SetbacksAreCounted(events[..n], arts, a);
      ToldWasPosted(events[..n], arts);
      if Settles(RunOf(Play(events[..n]).record), a) {
        UnsettlesExactly(Play(events[..n]), events[n], arts, a);
      }
    }
  }

  /** Without a crash or a failed write between post and note, without a removal and without a sweep's roll-back, no
      run's sentence is posted twice. */
  lemma PostedOnce(events: seq<Event>, arts: set<Artifact>, a: Artifact)
    requires Over(events, arts) && DistinctKeys(arts) && DistinctTimes(arts) && a in arts
    requires var h := Play(events); a.key !in h.unnoted && h.removals == 0 && h.rollbacks == 0
    ensures Count(Play(events).posts, a.key) <= 1
  {
    PostedAtMostOnce(events, arts, a);
    SetbacksAreCounted(events, arts, a);
    CountIsIn(Play(events).unnoted, a.key);
  }

  // ----- each of these does post twice

  const SMOOTH :=
    Env(false, true, true, true, true, true, true, true, true, true, false, Reachable, true, true, NoCrash)

  /** The run a smooth attempt leaves: told. */
  function ToldRun(a: Artifact): LastRun {
    LastRun(a.key, a.finished, a.change, true)
  }

  /** A smooth attempt at an announced artifact the record does not stand past: stored, posted and noted. */
  lemma SmoothPosts(h: History, a: Artifact)
    requires a.WellFormed() && a.change == Announced && !Settles(RunOf(h.record), a)
    requires h.record.Some? && h.record.value.Names(a.key) ==>
               h.record.value.declared && IsRunOf(h.record.value.lastRun.value, a)
    ensures var h' := Happen(h, Attempt(a, SMOOTH));
            && RunOf(h'.record) == Some(ToldRun(a)) && h'.posts == h.posts + [a.key]
            && h' == h.(record := h'.record, posts := h'.posts)
  {
  }

  /** A smooth attempt at any other well-formed artifact that is not older: stored over the record's run. */
  lemma SmoothStores(h: History, b: Artifact)
    requires b.WellFormed() && RunOf(h.record).Some?
    requires RunOf(h.record).value.key != b.key && RunOf(h.record).value.finished <= b.finished
    ensures var h' := Happen(h, Attempt(b, SMOOTH));
            && RunOf(h'.record).Some? && RunOf(h'.record).value.(told := true) == ToldRun(b)
            && h'.removals == h.removals && h'.rollbacks == h.rollbacks && h'.unnoted == h.unnoted && h'.copy == h.copy
            && (h'.posts == h.posts || h'.posts == h.posts + [b.key])
  {
  }

  /** Nothing crashed or failed after a post, nothing was removed and nothing put back. */
  predicate Clean(h: History) {
    h.unnoted == [] && h.removals == 0 && h.rollbacks == 0
  }

  lemma PlayAppend(h: History, events: seq<Event>, event: Event)
    ensures PlayFrom(h, events + [event]) == Happen(PlayFrom(h, events), event)
  {
    assert (events + [event])[..|events|] == events;
  }

  lemma PlayThree(e1: Event, e2: Event, e3: Event)
    ensures Play([e1, e2, e3]) == Happen(Happen(Happen(START, e1), e2), e3)
  {
    PlayAppend(START, [], e1);
    PlayAppend(START, [e1], e2);
    PlayAppend(START, [e1, e2], e3);
    assert [] + [e1] == [e1] && [e1] + [e2] == [e1, e2] && [e1, e2] + [e3] == [e1, e2, e3];
  }

  /** Two runs of one repository, both read again because something else keeps them open, take turns on the record. */
  lemma TakingTurnsPostsTwice(a: Artifact, b: Artifact)
    requires a.WellFormed() && b.WellFormed() && a.change == Announced && a.key != b.key && a.finished == b.finished
    ensures var events := [Attempt(a, SMOOTH), Attempt(b, SMOOTH), Attempt(a, SMOOTH)];
            Over(events, {a, b}) && Clean(Play(events)) && Count(Play(events).posts, a.key) > 1
  {
    var e1, e2 := Attempt(a, SMOOTH), Attempt(b, SMOOTH);
    SmoothPosts(START, a);
    var h1 := Happen(START, e1);
    SmoothStores(h1, b);
    var h2 := Happen(h1, e2);
    SmoothPosts(h2, a);
    PlayThree(e1, e2, e1);
    CountAppend([], a.key, a.key);
    assert [] + [a.key] == [a.key];
    CountAppend([a.key], b.key, a.key);
    CountAppend(h2.posts, a.key, a.key);
  }

  /** Two artifacts of one repository, one of them announced: some history of attempts at them alone, in which nothing
      crashed, failed, was removed or put back, posts the announced one twice if and only if they finished at the same
      time. */
  lemma EqualTimesPostTwiceExactly(a: Artifact, b: Artifact)
    requires a.WellFormed() && b.WellFormed() && a.change == Announced && a.key != b.key
    ensures (exists events :: Over(events, {a, b}) && Clean(Play(events)) && Count(Play(events).posts, a.key) > 1)
            <==> a.finished == b.finished
  {
    if a.finished == b.finished {
      TakingTurnsPostsTwice(a, b);
    } else {
      forall events | Over(events, {a, b}) && Clean(Play(events))
        ensures Count(Play(events).posts, a.key) <= 1
      {
        PostedOnce(events, {a, b}, a);
      }
    }
  }

  /** A sweep that read its records before the run's attempt writes the older last run back, and the run, kept open by
      another artifact, is stored and posted a second time, though nothing crashed, failed or was removed. */
  lemma SweepPostsTwice(a: Artifact)
    requires a.WellFormed() && a.change == Announced
    ensures var events := [SweepReads, Attempt(a, SMOOTH), SweepWrites(true, true), Attempt(a, SMOOTH)];
            var h := Play(events);
            Count(h.posts, a.key) == 2 && h.unnoted == [] && h.removals == 0 && h.rollbacks == 1
  {
    var e := Attempt(a, SMOOTH);
    var h1 := Happen(START, SweepReads);
    SmoothPosts(h1, a);
    var h2 := Happen(h1, e);
    var h3 := Happen(h2, SweepWrites(true, true));
    SmoothPosts(h3, a);
    PlayThree(SweepReads, e, SweepWrites(true, true));
    var three := [SweepReads, e, SweepWrites(true, true)];
    PlayAppend(START, three, e);
    assert three + [e] == [SweepReads, e, SweepWrites(true, true), e];
    CountTwice(a.key);
  }

  lemma CountTwice(key: RunKey)
    ensures Count([] + [key] + [key], key) == 2
  {
    CountAppend([], key, key);
    CountAppend([] + [key], key, key);
  }

  /** A record that stands past the artifact, told or passed, can be brought to post it again without a removal if and
      only if a sweep holds a copy that does not stand past it. */
  lemma PostedAgainExactly(events: seq<Event>, arts: set<Artifact>, a: Artifact)
    requires Over(events, arts) && DistinctKeys(arts) && DistinctTimes(arts) && a in arts
    requires a.WellFormed() && a.change == Announced && Settles(RunOf(Play(events).record), a)
    ensures (exists more :: Over(more, arts) && PostsMore(Play(events), more, a))
            <==> Play(events).copy.Some? && !Settles(RunOf(Play(events).copy.value), a)
  {
    var h := Play(events);
    ToldWasPosted(events, arts);
    if h.copy.Some? && !Settles(RunOf(h.copy.value), a) {
      SweptBackPosts(h, arts, a);
    } else {
      forall more | Over(more, arts)
        ensures !PostsMore(h, more, a)
      {
        StaysSettled(h, more, arts, a);
      }
    }
  }

  lemma SweptBackPosts(h: History, arts: set<Artifact>, a: Artifact)
    requires DistinctKeys(arts) && a in arts && a.WellFormed() && a.change == Announced
    requires h.copy.Some? && IsTrue(RunOf(h.copy.value), arts, h.posts) && !Settles(RunOf(h.copy.value), a)
    ensures exists more :: Over(more, arts) && PostsMore(h, more, a)
  {
    var sweep := SweepWrites(true, true);
    var more := [sweep, Attempt(a, SMOOTH)];
    var h1 := Happen(h, sweep);
    SmoothPosts(h1, a);
    PlayAppend(h, [], sweep);
    PlayAppend(h, [sweep], Attempt(a, SMOOTH));
    assert [] + [sweep] == [sweep] && [sweep] + [Attempt(a, SMOOTH)] == more;
    CountAppend(h.posts, a.key, a.key);
    assert Over(more, arts) && PostsMore(h, more, a);
  }

  /** After the events the artifact was posted once more, and nothing was removed. */
  predicate PostsMore(h: History, more: seq<Event>, a: Artifact) {
    PlayFrom(h, more).removals == h.removals && Count(PlayFrom(h, more).posts, a.key) > Count(h.posts, a.key)
  }

  /** Record and copy both stand past the artifact: they do as long as nothing is removed. */
  lemma {:induction false} StaysSettled(h: History, more: seq<Event>, arts: set<Artifact>, a: Artifact)
    requires Over(more, arts) && DistinctKeys(arts) && DistinctTimes(arts) && a in arts
    requires IsTrue(RunOf(h.record), arts, h.posts) && (h.copy.Some? ==> IsTrue(RunOf(h.copy.value), arts, h.posts))
    requires Settles(RunOf(h.record), a) && (h.copy.Some? ==> Settles(RunOf(h.copy.value), a))
    ensures var h' := PlayFrom(h, more);
            && IsTrue(RunOf(h'.record), arts, h'.posts) &&
                (h'.copy.Some? ==> IsTrue(RunOf(h'.copy.value), arts, h'.posts))
            && h'.removals >= h.removals
            && (h'.removals == h.removals ==>
                  && Settles(RunOf(h'.record), a) && (h'.copy.Some? ==> Settles(RunOf(h'.copy.value), a))
                  && Count(h'.posts, a.key) == Count(h.posts, a.key))
  {
    if more != [] {
      var n := |more| - 1;
      OverFront(more, arts);
      StaysSettled(h, more[..n], arts, a);
      var h1 := PlayFrom(h, more[..n]);
      StepKeepsTrue(h1, more[n], arts);
      if h1.removals == h.removals {
        UnsettlesExactly(h1, more[n], arts, a);
        CountStep(h1, more[n], a);
      }
    }
  }

  // ----- consumption is confluent

  /** The attempt brought the artifact onto the record, or found the record past it. */
  predicate Lands(h: History, a: Artifact, e: Env) {
    var f := Consume(h.record, a, e);
    (f.record.Some? && f.record.value.Names(a.key)) || f.outcome == Skipped
  }

  function Landed(events: seq<Event>): set<Artifact> {
    if events == [] then {}
    else
      var before, last := events[..|events| - 1], events[|events| - 1];
      if last.Attempt? && Lands(Play(before), last.a, last.e) then Landed(before) + {last.a} else Landed(before)
  }

  /** The last run is the newest artifact that landed, told or not. */
  ghost predicate IsNewest(run: Option<LastRun>, landed: set<Artifact>) {
    if landed == {} then run.None?
    else
      && run.Some?
      && (exists a :: a in landed && IsRunOf(run.value, a))
      && (forall a :: a in landed ==> a.finished <= run.value.finished)
  }

  /** Nothing was removed and nothing put back. */
  predicate Undisturbed(h: History) {
    h.removals == 0 && h.rollbacks == 0
  }

  lemma {:induction false} LandedAreAttempted(events: seq<Event>, arts: set<Artifact>)
    requires Over(events, arts)
    ensures Landed(events) <= arts
  {
    if events != [] {
      OverFront(events, arts);
      LandedAreAttempted(events[..|events| - 1], arts);
    }
  }

  lemma {:induction false} RecordCarriesNewest(events: seq<Event>, arts: set<Artifact>)
    requires Over(events, arts) && DistinctKeys(arts) && Undisturbed(Play(events))
    ensures IsNewest(RunOf(Play(events).record), Landed(events))
  {
    if events != [] {
      var n := |events| - 1;
      OverFront(events, arts);
      assert Undisturbed(Play(events[..n]));
      RecordCarriesNewest(events[..n], arts);
      LandedAreAttempted(events[..n], arts);
      if events[n].Attempt? {
        NewestStep(Play(events[..n]).record, Landed(events[..n]), arts, events[n].a, events[n].e);
      }
    }
  }

  lemma NewestStep(rec: Option<Record>, landed: set<Artifact>, arts: set<Artifact>, a: Artifact, e: Env)
    requires IsNewest(RunOf(rec), landed) && landed <= arts && a in arts && DistinctKeys(arts)
    requires rec.Some? ==> Consume(rec, a, e).record.Some?
    ensures var f := Consume(rec, a, e);
            IsNewest(RunOf(f.record),
                     if (f.record.Some? && f.record.value.Names(a.key)) || f.outcome == Skipped then landed + {a}
                         else landed)
  {
    var f := Consume(rec, a, e);
    var lands := (f.record.Some? && f.record.value.Names(a.key)) || f.outcome == Skipped;
    var after := if lands then landed + {a} else landed;
    if lands {
      assert a in after;
    }
    if landed != {} {
      var b :| b in landed && IsRunOf(RunOf(rec).value, b);
      assert b in after;
      if f.record.Some? && f.record.value.Names(a.key) {
        assert IsRunOf(RunOf(f.record).value, a);
      } else {
        assert IsRunOf(RunOf(f.record).value, b);
      }
    } else if lands {
      assert IsRunOf(RunOf(f.record).value, a);
    }
  }

  /** Any two orders, with any replays, crashes, refusals and sweeps that put nothing back, in which the same artifacts
      landed leave the same last run. */
  lemma Confluent(one: seq<Event>, two: seq<Event>, arts: set<Artifact>)
    requires Over(one, arts) && Over(two, arts) && DistinctKeys(arts) && DistinctTimes(arts)
    requires Undisturbed(Play(one)) && Undisturbed(Play(two)) && Landed(one) == Landed(two) != {}
    ensures RunOf(Play(one).record).Some? && RunOf(Play(two).record).Some?
    ensures RunOf(Play(one).record).value.(told := true) == RunOf(Play(two).record).value.(told := true)
  {
    RecordCarriesNewest(one, arts);
    RecordCarriesNewest(two, arts);
    LandedAreAttempted(one, arts);
    var x, y := RunOf(Play(one).record).value, RunOf(Play(two).record).value;
    var a :| a in Landed(one) && IsRunOf(x, a);
    var b :| b in Landed(two) && IsRunOf(y, b);
    assert a in arts && b in arts && a.finished == b.finished;
  }

  /** The finish time the record carries falls, or is lost, exactly by the record's removal, by an attempt that finds
      the repository gone, and by a sweep that writes back a copy with an older run or none. */
  lemma FinishFallsExactly(h: History, event: Event, arts: set<Artifact>)
    requires DistinctKeys(arts) && (event.Attempt? ==> event.a in arts)
    requires IsTrue(RunOf(h.record), arts, h.posts) && RunOf(h.record).Some?
    ensures Falls(RunOf(h.record).value, RunOf(Happen(h, event).record)) <==>
              match event
              case Removed => true
              case Attempt(b, e) => Consume(h.record, b, e).record.None?
              case SweepWrites(declared, onGitHub) =>
                h.copy.Some? && (declared || onGitHub) && Falls(RunOf(h.record).value, RunOf(h.copy.value))
              case _ => false
  {
    if event.Attempt? {
      var x :| x in arts && IsRunOf(RunOf(h.record).value, x);
      assert RunOf(h.record).value.key == event.a.key ==> x == event.a;
    }
  }

  predicate Falls(before: LastRun, after: Option<LastRun>) {
    after.None? || after.value.finished < before.finished
  }

  /** While nobody removes the record and no sweep puts another run back, the finish time it carries never decreases. */
  lemma {:induction false} FinishNeverFalls(h: History, more: seq<Event>, arts: set<Artifact>)
    requires Over(more, arts) && DistinctKeys(arts)
    requires IsTrue(RunOf(h.record), arts, h.posts) && (h.copy.Some? ==> IsTrue(RunOf(h.copy.value), arts, h.posts))
    requires RunOf(h.record).Some?
    ensures var h' := PlayFrom(h, more);
            && IsTrue(RunOf(h'.record), arts, h'.posts) &&
                (h'.copy.Some? ==> IsTrue(RunOf(h'.copy.value), arts, h'.posts))
            && h'.removals >= h.removals && h'.rollbacks >= h.rollbacks
            && (h'.removals == h.removals && h'.rollbacks == h.rollbacks ==>
                !Falls(RunOf(h.record).value, RunOf(h'.record)))
  {
    if more != [] {
      var n := |more| - 1;
      OverFront(more, arts);
      FinishNeverFalls(h, more[..n], arts);
      var h1 := PlayFrom(h, more[..n]);
      StepKeepsTrue(h1, more[n], arts);
      if h1.removals == h.removals && h1.rollbacks == h.rollbacks {
        FinishFallsExactly(h1, more[n], arts);
      }
    }
  }
}
