/**
The resumable sweep: passes that share one cursor, each taking up what an earlier one left, until one completes and
removes what is stale.
*/
module Sweeps {
  import opened Common

  /** The parts of a record a sweep decides by. */
  datatype Record = Record(refreshedAt: Time, declared: bool, onGitHub: bool, archived: bool, pending: bool) {
    /** It stands for a repository its reconciler run will create. */
    predicate AwaitsCreation() {
      !declared && !onGitHub && pending
    }
  }

  /** The unfinished sweep. */
  datatype Cursor = Cursor(startedAt: Time, resumes: nat)

  datatype Summary = Summary(repositories: nat, declared: nat, undeclared: nat, gone: nat, archived: nat, carried: nat,
      removed: nat)

  const EMPTY := Summary(0, 0, 0, 0, 0, 0, 0)

  /** How far a complete pass gets once its records are written: to its end, or no further than a removal or a cursor's
      deletion that failed. */
  datatype End = EndsWell | StaleStay | CursorStays

  /** What one pass meets: its clock; GitHub's repositories as far as they were read, and which of them are archived;
      the declared ones; whether the budget stopped the reads; how many records are written before the pass is cut
      short, if it is; how it ends; and the clock of each write. */
  datatype Pass = Pass(
    now: Time, nodes: set<string>, archived: set<string>, declared: set<string>,
    stopped: bool, cutAfter: Option<nat>, end: End, at: string -> Time)

  /** The pass removes the stale records; it deletes the cursor. */
  predicate Clears(p: Pass) {
    !p.stopped && !p.end.StaleStay?
  }

  predicate Finishes(p: Pass) {
    !p.stopped && p.end.EndsWell?
  }

  /** The sweep a pass does: the unfinished one while it is younger than the interval, else a new one. */
  function TakeUp(cursor: Option<Cursor>, now: Time, interval: Time): Cursor {
    if cursor.Some? && interval > 0 && now < cursor.value.startedAt + interval
    then cursor.value.(resumes := cursor.value.resumes + 1)
    else Cursor(now, 0)
  }

  /** The repositories of the pass: GitHub's, and on a complete one the declared. */
  function Names(p: Pass): set<string> {
    if p.stopped then p.nodes else p.nodes + p.declared
  }

  /** The records that count as done. */
  function Done(store: map<string, Record>, startedAt: Time): set<string> {
    set n | n in store && store[n].refreshedAt >= startedAt
  }

  /** The record as the pass builds and writes it. */
  function Built(store: map<string, Record>, p: Pass, n: string): Record {
    Record(p.at(n), n in p.declared, n in p.nodes, n in p.nodes && n in p.archived, n in store && store[n].pending)
  }

  function WithWritten(store: map<string, Record>, p: Pass, written: set<string>): map<string, Record> {
    store + map n | n in written :: Built(store, p, n)
  }

  /** The records a complete pass removes: neither on GitHub nor declared, and not awaiting a creation. */
  function Stale(store: map<string, Record>, p: Pass): set<string> {
    set n | n in store && n !in Names(p) && !store[n].AwaitsCreation()
  }

  /** What the summary counts for a repository: the record in place where it is done, else the one the pass builds. */
  function Shown(store: map<string, Record>, p: Pass, startedAt: Time, n: string): Record {
    if n in store && store[n].refreshedAt >= startedAt then store[n] else Built(store, p, n)
  }

  // ---- what a written record and the summary say, in the words of what the pass read

  /** The record says what the pass read of the repository, and expects the run it expected when the pass read it. */
  predicate Says(r: Record, store: map<string, Record>, p: Pass, n: string) {
    && r.refreshedAt == p.at(n)
    && (r.onGitHub <==> n in p.nodes)
    && (r.declared <==> n in p.declared)
    && (r.archived <==> n in p.nodes && n in p.archived)
    && (r.pending <==> n in store && store[n].pending)
  }

  lemma BuiltSays(store: map<string, Record>, p: Pass, n: string)
    ensures Says(Built(store, p, n), store, p, n)
  {
  }

  /** The repository is carried: its record is as young as the sweep. */
  predicate Carried(store: map<string, Record>, startedAt: Time, n: string) {
    n in store && store[n].refreshedAt >= startedAt
  }

  /** On GitHub by its carried record, or else by what the pass read; likewise declared and archived. */
  predicate OnGitHub(store: map<string, Record>, p: Pass, startedAt: Time, n: string) {
    if Carried(store, startedAt, n) then store[n].onGitHub else n in p.nodes
  }

  predicate IsDeclared(store: map<string, Record>, p: Pass, startedAt: Time, n: string) {
    if Carried(store, startedAt, n) then store[n].declared else n in p.declared
  }

  predicate IsArchived(store: map<string, Record>, p: Pass, startedAt: Time, n: string) {
    if Carried(store, startedAt, n) then store[n].archived else n in p.archived
  }

  /** When the sweep the pass does started: with the unfinished one while that is younger than the interval. */
  function StartOf(cursor: Option<Cursor>, now: Time, interval: Time): Time {
    if cursor.Some? && interval > 0 && cursor.value.startedAt + interval > now then cursor.value.startedAt else now
  }

  /** The repositories a pass writes and counts. */
  function Named(p: Pass): set<string> {
    p.nodes + if p.stopped then {} else p.declared
  }

  /** The records that stand for no repository, and for none to come. */
  function Unneeded(store: map<string, Record>, p: Pass): set<string> {
    set n | n in store && n !in Named(p) && (store[n].declared || store[n].onGitHub || !store[n].pending)
  }

  /** How many of the repositories named each figure of the summary counts. */
  ghost predicate Figures(sum: Summary, names: set<string>, store: map<string, Record>, p: Pass, startedAt: Time) {
    && sum.repositories == |names|
    && sum.gone == |set n | n in names && !OnGitHub(store, p, startedAt, n)|
    && sum.undeclared
       == |set n | n in names && OnGitHub(store, p, startedAt, n) && !IsDeclared(store, p, startedAt, n)|
    && sum.declared == |set n | n in names && OnGitHub(store, p, startedAt, n) && IsDeclared(store, p, startedAt, n)|
    && sum.archived == |set n | n in names && OnGitHub(store, p, startedAt, n) && IsArchived(store, p, startedAt, n)|
    && sum.carried == |set n | n in names && Carried(store, startedAt, n)|
  }

  lemma MembersAre(names: set<string>, store: map<string, Record>, p: Pass, startedAt: Time)
    ensures Members(names, store, p, startedAt, Gone) == set n | n in names && !OnGitHub(store, p, startedAt, n)
    ensures Members(names, store, p, startedAt, Undeclared)
         == set n | n in names && OnGitHub(store, p, startedAt, n) && !IsDeclared(store, p, startedAt, n)
    ensures Members(names, store, p, startedAt, Declared)
         == set n | n in names && OnGitHub(store, p, startedAt, n) && IsDeclared(store, p, startedAt, n)
  {
  }

  lemma ArchivedMembersAre(names: set<string>, store: map<string, Record>, p: Pass, startedAt: Time)
    ensures Members(names, store, p, startedAt, Archived)
         == set n | n in names && OnGitHub(store, p, startedAt, n) && IsArchived(store, p, startedAt, n)
    ensures names * Done(store, startedAt) == set n | n in names && Carried(store, startedAt, n)
  {
  }

  lemma CountsAreFigures(sum: Summary, names: set<string>, store: map<string, Record>, p: Pass, startedAt: Time)
    requires Counts(sum, names, store, p, startedAt) && sum.carried == |names * Done(store, startedAt)|
    ensures Figures(sum, names, store, p, startedAt)
  {
    assert Tally(sum, Gone) == sum.gone && Tally(sum, Undeclared) == sum.undeclared;
    assert Tally(sum, Declared) == sum.declared && Tally(sum, Archived) == sum.archived;
    MembersAre(names, store, p, startedAt);
    ArchivedMembersAre(names, store, p, startedAt);
  }

  datatype Class = Gone | Undeclared | Declared | Archived

  predicate InClass(r: Record, c: Class) {
    match c
    case Gone => !r.onGitHub
    case Undeclared => r.onGitHub && !r.declared
    case Declared => r.onGitHub && r.declared
    case Archived => r.onGitHub && r.archived
  }

  function Members(names: set<string>, store: map<string, Record>, p: Pass, startedAt: Time, c: Class): set<string> {
    set n | n in names && InClass(Shown(store, p, startedAt, n), c)
  }

  /** What the summary says of a class. */
  function Tally(sum: Summary, c: Class): nat {
    match c
    case Gone => sum.gone
    case Undeclared => sum.undeclared
    case Declared => sum.declared
    case Archived => sum.archived
  }

  /** The summary says exactly how many of names are in each class. */
  ghost predicate Counts(sum: Summary, names: set<string>, store: map<string, Record>, p: Pass, startedAt: Time) {
    sum.repositories == |names| && forall c :: Tally(sum, c) == |Members(names, store, p, startedAt, c)|
  }

  /** One record into the summary. */
  function Counted(s: Summary, r: Record): Summary {
    var t := s.(repositories := s.repositories + 1,
                archived := if r.onGitHub && r.archived then s.archived + 1 else s.archived);
    if !r.onGitHub then t.(gone := t.gone + 1)
    else if !r.declared then t.(undeclared := t.undeclared + 1)
    else t.(declared := t.declared + 1)
  }

  lemma MembersGrow(names: set<string>, n: string, store: map<string, Record>, p: Pass, startedAt: Time, c: Class)
    requires n !in names
    ensures |Members(names + {n}, store, p, startedAt, c)|
         == |Members(names, store, p, startedAt, c)| + if InClass(Shown(store, p, startedAt, n), c) then 1 else 0
  {
    var before := Members(names, store, p, startedAt, c);
    assert Members(names + {n}, store, p, startedAt, c)
        == if InClass(Shown(store, p, startedAt, n), c) then before + {n} else before;
  }

  /** Counting a repository not counted yet keeps the counts exact. */
  lemma CountsGrow(sum: Summary, names: set<string>, n: string, store: map<string, Record>, p: Pass, startedAt: Time)
    requires n !in names && Counts(sum, names, store, p, startedAt)
    ensures Counts(Counted(sum, Shown(store, p, startedAt, n)), names + {n}, store, p, startedAt)
  {
    forall c ensures Tally(Counted(sum, Shown(store, p, startedAt, n)), c) ==
        |Members(names + {n}, store, p, startedAt, c)| {
      MembersGrow(names, n, store, p, startedAt, c);
    }
  }

  /** Carried and removed are counted apart. */
  lemma CountsIgnore(sum: Summary, sum': Summary, names: set<string>, store: map<string, Record>, p: Pass,
      startedAt: Time)
    requires Counts(sum, names, store, p, startedAt)
    requires sum' == sum.(carried := sum'.carried, removed := sum'.removed)
    ensures Counts(sum', names, store, p, startedAt)
  {
    forall c ensures Tally(sum', c) == |Members(names, store, p, startedAt, c)| {
      assert Tally(sum, c) == |Members(names, store, p, startedAt, c)|;
    }
  }

  /** The classes leave no repository out and count none twice. */
  lemma CountsAddUp(sum: Summary, names: set<string>, store: map<string, Record>, p: Pass, startedAt: Time)
    requires Counts(sum, names, store, p, startedAt)
    ensures sum.repositories == sum.declared + sum.undeclared + sum.gone
    ensures sum.archived <= sum.declared + sum.undeclared
  {
    assert Tally(sum, Gone) == sum.gone && Tally(sum, Undeclared) == sum.undeclared;
    assert Tally(sum, Declared) == sum.declared && Tally(sum, Archived) == sum.archived;
    MembersPart(names, store, p, startedAt);
    var gone := Members(names, store, p, startedAt, Gone);
    var undeclared := Members(names, store, p, startedAt, Undeclared);
    var declared := Members(names, store, p, startedAt, Declared);
    PartSizes(names, gone, undeclared, declared, Members(names, store, p, startedAt, Archived));
  }

  lemma MembersPart(names: set<string>, store: map<string, Record>, p: Pass, startedAt: Time)
    ensures var gone, undeclared, declared := Members(names, store, p, startedAt, Gone),
                                              Members(names, store, p, startedAt, Undeclared),
                                              Members(names, store, p, startedAt, Declared);
            gone !! undeclared && gone !! declared && undeclared !! declared && names == gone + (undeclared + declared)
            && Members(names, store, p, startedAt, Archived) <= undeclared + declared
  {
  }

  lemma PartSizes<T>(whole: set<T>, a: set<T>, b: set<T>, c: set<T>, d: set<T>)
    requires a !! b && a !! c && b !! c && whole == a + (b + c) && d <= b + c
    ensures |whole| == |a| + |b| + |c| && |d| <= |b| + |c|
  {
    assert |b + c| == |b| + |c|;
    SubsetSize(d, b + c);
  }

  lemma {:induction false} SubsetSize<T>(a: set<T>, b: set<T>)
    requires a <= b
    ensures |a| <= |b|
  {
    assert b == a + (b - a);
  }

  function ToSet(names: seq<string>): set<string> {
    set n | n in names
  }

  predicate Distinct(names: seq<string>) {
    forall i, j :: 0 <= i < j < |names| ==> names[i] != names[j]
  }

  lemma ToSetGrows(names: seq<string>, i: nat)
    requires i < |names| && Distinct(names)
    ensures ToSet(names[..i + 1]) == ToSet(names[..i]) + {names[i]} && names[i] !in ToSet(names[..i])
  {
    assert names[..i + 1] == names[..i] + [names[i]];
  }

  lemma Appended(names: seq<string>, n: string)
    requires Distinct(names) && n !in ToSet(names)
    ensures ToSet(names + [n]) == ToSet(names) + {n} && Distinct(names + [n])
  {
    assert forall m :: m in names + [n] <==> m in names || m == n;
  }

  /** A finite set as a sequence of its elements, each once. */
  method Listed(s: set<string>) returns (names: seq<string>)
    ensures ToSet(names) == s && Distinct(names) && |names| == |s|
  {
    names := [];
    var left := s;
    while left != {}
      invariant left <= s && |names| + |left| == |s|
      invariant ToSet(names) == s - left && Distinct(names)
      decreases |left|
    {
      var n :| n in left;
      assert n !in ToSet(names);
      Appended(names, n);
      names, left := names + [n], left - {n};
    }
  }

  /** Of names, those done are counted and carried, the others queued to be written. */
  ghost predicate Split(names: set<string>, sum: Summary, records: seq<string>, store: map<string, Record>, p: Pass,
      startedAt: Time) {
    && Counts(sum, names * Done(store, startedAt), store, p, startedAt)
    && sum.carried == sum.repositories && sum.removed == 0
    && ToSet(records) == names - Done(store, startedAt) && Distinct(records)
  }

  lemma SplitCarries(names: set<string>, n: string, sum: Summary, records: seq<string>, store: map<string, Record>,
      p: Pass, startedAt: Time)
    requires Split(names, sum, records, store, p, startedAt) && n !in names && n in Done(store, startedAt)
    ensures Split(names + {n}, Counted(sum, store[n]).(carried := sum.carried + 1), records, store, p, startedAt)
  {
    var done := Done(store, startedAt);
    CountsGrow(sum, names * done, n, store, p, startedAt);
    assert names * done + {n} == (names + {n}) * done;
    var one := Counted(sum, store[n]);
    CountsIgnore(one, one.(carried := sum.carried + 1), (names + {n}) * done, store, p, startedAt);
    assert ToSet(records) == (names + {n}) - done;
  }

  lemma SplitQueues(names: set<string>, n: string, sum: Summary, records: seq<string>, store: map<string, Record>,
      p: Pass, startedAt: Time)
    requires Split(names, sum, records, store, p, startedAt) && n !in names && n !in Done(store, startedAt)
    ensures Split(names + {n}, sum, records + [n], store, p, startedAt)
  {
    MeetWithout(names, n, Done(store, startedAt));
    Appended(records, n);
  }

  lemma MeetWithout<T>(names: set<T>, n: T, done: set<T>)
    requires n !in done
    ensures (names + {n}) * done == names * done && (names + {n}) - done == (names - done) + {n}
  {
  }

  /** Splits the pass's repositories: those done are counted and carried, the others are to be written. */
  method Assemble(names: seq<string>, store: map<string, Record>, p: Pass, startedAt: Time)
    returns (sum: Summary, records: seq<string>)
    requires Distinct(names)
    ensures Split(ToSet(names), sum, records, store, p, startedAt)
  {
    sum, records := EMPTY, [];
    for i := 0 to |names|
      invariant Split(ToSet(names[..i]), sum, records, store, p, startedAt)
    {
      ToSetGrows(names, i);
      var n := names[i];
      if n in store && store[n].refreshedAt >= startedAt {
        SplitCarries(ToSet(names[..i]), n, sum, records, store, p, startedAt);
        sum := Counted(sum, store[n]).(carried := sum.carried + 1);
      } else {
        SplitQueues(ToSet(names[..i]), n, sum, records, store, p, startedAt);
        records := records + [n];
      }
    }
    assert names[..|names|] == names;
  }

  /** Counts the records the pass wrote, after those it carried. */
  method CountWritten(carried: Summary, ghost done: set<string>, records: seq<string>, store: map<string, Record>,
                      p: Pass, ghost startedAt: Time)
    returns (sum: Summary)
    requires Distinct(records) && ToSet(records) !! Done(store, startedAt) && done !! ToSet(records)
    requires Counts(carried, done, store, p, startedAt)
    ensures Counts(sum, done + ToSet(records), store, p, startedAt)
    ensures sum.carried == carried.carried && sum.removed == carried.removed
  {
    sum := carried;
    assert done + ToSet(records[..0]) == done;
    for i := 0 to |records|
      invariant Counts(sum, done + ToSet(records[..i]), store, p, startedAt)
      invariant sum.carried == carried.carried && sum.removed == carried.removed
    {
      var n := records[i];
      WrittenCounts(sum, done, records, i, store, p, startedAt);
      sum := Counted(sum, Built(store, p, n));
    }
    assert records[..|records|] == records;
  }

  lemma WrittenCounts(sum: Summary, done: set<string>, records: seq<string>, i: nat, store: map<string, Record>,
      p: Pass, startedAt: Time)
    requires Distinct(records) && ToSet(records) !! Done(store, startedAt) && done !! ToSet(records) && i < |records|
    requires Counts(sum, done + ToSet(records[..i]), store, p, startedAt)
    ensures Counts(Counted(sum, Built(store, p, records[i])), done + ToSet(records[..i + 1]), store, p, startedAt)
  {
    var n := records[i];
    ToSetGrows(records, i);
    assert n in ToSet(records) && n !in Done(store, startedAt);
    CountsGrow(sum, done + ToSet(records[..i]), n, store, p, startedAt);
    Regroup(done, ToSet(records[..i]), n, ToSet(records[..i + 1]));
  }

  lemma Regroup<T>(a: set<T>, b: set<T>, n: T, b': set<T>)
    requires b' == b + {n}
    ensures a + b + {n} == a + b'
  {
  }

  lemma WrittenGrows(store: map<string, Record>, p: Pass, written: set<string>, n: string)
    requires n !in written
    ensures Built(WithWritten(store, p, written), p, n) == Built(store, p, n)
    ensures WithWritten(store, p, written)[n := Built(store, p, n)] == WithWritten(store, p, written + {n})
  {
  }

  /** What a pass leaves: written is what the store took of what was pending, all of it unless the pass was cut short;
      only a complete pass removes, and ends the sweep. */
  predicate After(store: map<string, Record>, cursor: Option<Cursor>, p: Pass, interval: Time, written: set<string>,
                  ok: bool, store': map<string, Record>, cursor': Option<Cursor>) {
    var cur := TakeUp(cursor, p.now, interval);
    var pending := Names(p) - Done(store, cur.startedAt);
    && written <= pending && (ok <==> written == pending)
    && store' == (if ok && Clears(p) then WithWritten(store, p, written) - Stale(store, p)
        else WithWritten(store, p, written))
    && cursor' == (if ok && Finishes(p) then None else Some(cur))
  }

  /** What a pass leaves, record by record: written are only repositories it names and does not carry, all of them if it
      got through, and each says what the pass read; of the others nothing changes but that a complete pass that gets
      to it removes those that stand for nothing. */
  ghost predicate Leaves(store: map<string, Record>, p: Pass, startedAt: Time, written: set<string>, ok: bool,
                         store': map<string, Record>)
  {
    && (forall n :: n in written ==> n in Named(p) && !Carried(store, startedAt, n))
    && (ok ==> forall n :: n in Named(p) && !Carried(store, startedAt, n) ==> n in written)
    && (forall n :: n in written ==> n in store' && Says(store'[n], store, p, n))
    && (forall n :: n !in written && n in store' ==> n in store && store'[n] == store[n])
    && (forall n :: n !in written && n in store ==>
          (n !in store' <==> ok && !p.stopped && p.end != StaleStay && n in Unneeded(store, p)))
  }

  /** The pass's writes alone, before the removal. */
  lemma AfterWrites(store: map<string, Record>, p: Pass, startedAt: Time, written: set<string>, ok: bool,
                    store': map<string, Record>)
    requires written <= Names(p) - Done(store, startedAt) && (ok ==> written == Names(p) - Done(store, startedAt))
    requires store' == WithWritten(store, p, written)
    ensures Names(p) == Named(p)
    ensures !(ok && Clears(p)) ==> Leaves(store, p, startedAt, written, ok, store')
  {
  }

  lemma StaleAreUnneeded(store: map<string, Record>, p: Pass)
    ensures Stale(store, p) == Unneeded(store, p)
  {
  }

  lemma AfterRemoval(store: map<string, Record>, p: Pass, startedAt: Time, written: set<string>,
                     store': map<string, Record>)
    requires written == Names(p) - Done(store, startedAt) && Clears(p) && store' == WithWritten(store, p, written)
    ensures Leaves(store, p, startedAt, written, true, store' - Stale(store, p))
  {
    StaleAreUnneeded(store, p);
  }

  class Sweeper {
    var store: map<string, Record>
    var cursor: Option<Cursor>

    constructor ()
      ensures store == map[] && cursor == None
    {
      store, cursor := map[], None;
    }

    /** The pass's cursor, stored before anything is read. */
    method TakeCursor(now: Time, interval: Time) returns (cur: Cursor)
      modifies this`cursor
      ensures cur == TakeUp(old(cursor), now, interval) && cursor == Some(cur)
      ensures cur.startedAt == StartOf(old(cursor), now, interval)
    {
      if cursor.Some? && interval > 0 && now < cursor.value.startedAt + interval {
        cur := cursor.value.(resumes := cursor.value.resumes + 1);
      } else {
        cur := Cursor(now, 0);
      }
      cursor := Some(cur);
    }

    /** Writes the records of names until the pass is cut short: written is what the store took. */
    method WriteRecords(names: seq<string>, p: Pass) returns (ok: bool, ghost written: set<string>)
      requires Distinct(names)
      modifies this`store
      ensures written <= ToSet(names) && store == WithWritten(old(store), p, written)
      ensures ok <==> written == ToSet(names)
      ensures ok <==> p.cutAfter.None? || |names| <= p.cutAfter.value
    {
      ghost var before := store;
      written := {};
      for i := 0 to |names|
        invariant written == ToSet(names[..i]) && store == WithWritten(before, p, written)
        invariant p.cutAfter.Some? ==> i <= p.cutAfter.value
      {
        ToSetGrows(names, i);
        if p.cutAfter == Some(i) {
          assert names[i] in ToSet(names);
          return false, written;
        }
        WrittenGrows(before, p, written, names[i]);
        store := store[names[i] := Built(store, p, names[i])];
        written := written + {names[i]};
      }
      assert names[..|names|] == names;
      return true, written;
    }

    /** One pass: records done since the start are carried, the others built and written as they come; a complete pass
        removes the stale records and then the cursor, one the budget stopped keeps both, one cut short ends there. */
    method Sweep(p: Pass, interval: Time) returns (ok: bool, sum: Summary, ghost written: set<string>)
      modifies this
      ensures After(old(store), old(cursor), p, interval, written, ok, store, cursor)
      ensures Leaves(old(store), p, StartOf(old(cursor), p.now, interval), written, ok, store)
      ensures ok ==> Figures(sum, Named(p), old(store), p, StartOf(old(cursor), p.now, interval))
      ensures ok ==> sum.removed == if Clears(p) then |Unneeded(old(store), p)| else 0
    {
      var cur := TakeCursor(p.now, interval);
      var snapshot := store;
      ghost var done := Names(p) * Done(snapshot, cur.startedAt);
      var names := Listed(Names(p));
      var records: seq<string>;
      sum, records := Assemble(names, snapshot, p, cur.startedAt);
      ok, written := WriteRecords(records, p);
      AfterWrites(snapshot, p, cur.startedAt, written, ok, store);
      if !ok {
        return;
      }
      sum := CountWritten(sum, done, records, snapshot, p, cur.startedAt);
      assert done + ToSet(records) == Names(p);
      CountsAreFigures(sum, Names(p), snapshot, p, cur.startedAt);
      if Clears(p) {
        var stale := Stale(snapshot, p);
        StaleAreUnneeded(snapshot, p);
        AfterRemoval(snapshot, p, cur.startedAt, written, store);
        store := store - stale;
        sum := sum.(removed := |stale|);
      }
      if Finishes(p) {
        cursor := None;
      }
    }
  }

  // ---- Runs: passes of any pods one after the other, with refreshes and removals between any two of their steps

  /** A pass under way: the records it read at its start, what it still has to write, what was removed meanwhile,
      whether it has removed the stale records, and what others wrote since; and what others wrote at all. */
  datatype Active = Active(p: Pass, snapshot: map<string, Record>, left: set<string>, removed: set<string>,
                           cleared: bool, since: set<string>, others: set<string>)

  /** writes and removals count, since the cursor was made, what the sweep wrote and what anything removed; passes
      counts the sweep's passes and startedAt is when it began. */
  datatype World = World(store: map<string, Record>, cursor: Option<Cursor>, startedAt: Time, passes: nat,
                         writes: multiset<string>, removals: multiset<string>, active: Option<Active>)

  datatype Event =
    | Begins(p: Pass)
    | Writes(n: string)
    | RemovesStale
    | Ends
    | CutShort
    | Wrote(n: string, r: Record)
    | Removed(n: string)

  /** A pass's clock is not behind the sweep's start. */
  ghost predicate InTime(p: Pass, startedAt: Time) {
    forall n :: p.at(n) >= startedAt
  }

  /** One pass at a time. With nothing left to write, a complete one removes the stale records and then ends the sweep,
      one the budget stopped ends itself; either may be cut short at any point. No write of anybody's moves a record's
      time back. */
  ghost predicate MayHappen(w: World, e: Event, interval: Time) {
    match e
    case Begins(p) => w.active.None? && InTime(p, TakeUp(w.cursor, p.now, interval).startedAt)
    case Writes(n) => w.active.Some? && n in w.active.value.left
    case RemovesStale =>
      w.active.Some? && w.active.value.left == {} && !w.active.value.p.stopped && !w.active.value.cleared
    case Ends => w.active.Some? && w.active.value.left == {} && (w.active.value.p.stopped || w.active.value.cleared)
    case CutShort => w.active.Some?
    case Wrote(n, r) => n in w.store ==> r.refreshedAt >= w.store[n].refreshedAt
    case Removed(n) => n in w.store
  }

  function Begun(w: World, p: Pass, interval: Time): World {
    var cur := TakeUp(w.cursor, p.now, interval);
    var v := if cur.resumes == 0 then w.(passes := 0, writes := multiset{}, removals := multiset{}) else w;
    v.(cursor := Some(cur), startedAt := cur.startedAt, passes := v.passes + 1,
       active := Some(Active(p, w.store, Names(p) - Done(w.store, cur.startedAt), {}, false, {}, {})))
  }

  /** What the pass removes of the store. */
  function StaleNow(store: map<string, Record>, a: Active): set<string> {
    Stale(a.snapshot, a.p) * store.Keys
  }

  function Happen(w: World, e: Event, interval: Time): World {
    match e
    case Begins(p) => Begun(w, p, interval)
    case Writes(n) =>
      if w.active.None? then w
      else
        var a := w.active.value;
        w.(store := w.store[n := Built(a.snapshot, a.p, n)], writes := w.writes + multiset{n},
           active := Some(a.(left := a.left - {n})))
    case RemovesStale =>
      if w.active.None? then w
      else
        var a := w.active.value;
        w.(store := w.store - StaleNow(w.store, a), removals := w.removals + multiset(StaleNow(w.store, a)),
           active := Some(a.(cleared := true)))
    case Ends =>
      if w.active.None? then w
      else w.(cursor := if w.active.value.p.stopped then w.cursor else None, active := None)
    case CutShort => w.(active := None)
    case Wrote(n, r) =>
      w.(store := w.store[n := r],
         active := if w.active.None? then None
                   else
                     var a := w.active.value;
                     Some(a.(since := if a.cleared then a.since + {n} else a.since, others := a.others + {n})))
    case Removed(n) =>
      w.(store := w.store - {n}, removals := w.removals + multiset{n},
         active := if w.active.Some? then Some(w.active.value.(removed := w.active.value.removed + {n})) else None)
  }

  ghost predicate IsRun(ws: seq<World>, es: seq<Event>, interval: Time) {
    && |ws| == |es| + 1
    && ws[0] == World(ws[0].store, None, ZERO, 0, multiset{}, multiset{}, None)
    && forall i :: 0 <= i < |es| ==> Next(ws[i], es[i], ws[i + 1], interval)
  }

  ghost predicate Next(w: World, e: Event, w': World, interval: Time) {
    MayHappen(w, e, interval) && w' == Happen(w, e, interval)
  }

  /** What the sweep wrote since it started is still done for it, once per removal at most; what it has left to write
      was not written since the last removal. */
  ghost predicate WrittenOnce(w: World) {
    forall n :: OnceFor(w, n)
  }

  predicate OnceFor(w: World, n: string) {
    && w.writes[n] <= 1 + w.removals[n]
    && (w.active.Some? && n in w.active.value.left ==> w.writes[n] <= w.removals[n])
    && (w.cursor.Some? && w.writes[n] == 1 + w.removals[n] ==> n in Done(w.store, w.startedAt))
  }

  predicate CursorCounts(w: World) {
    w.cursor.Some? ==> w.cursor.value.startedAt == w.startedAt && w.passes == w.cursor.value.resumes + 1
  }

  /** Of the repositories a pass names, each is still to be written, done, or was removed since the pass began; and
      once it removed the stale records, what is left beside those it names awaited a creation at its start, came after
      it, or was written since. */
  ghost predicate Covering(w: World) {
    w.active.Some? ==>
      && w.cursor.Some? && InTime(w.active.value.p, w.startedAt)
      && (w.active.value.cleared ==> w.active.value.left == {} && !w.active.value.p.stopped)
      && (forall n :: n in Names(w.active.value.p) ==> Covered(w, n))
      && (w.active.value.cleared ==> forall n :: n in w.store ==> NotStale(w.active.value, n))
  }

  predicate Covered(w: World, n: string)
    requires w.active.Some?
  {
    n in w.active.value.left || n in Done(w.store, w.startedAt) || n in w.active.value.removed
  }

  predicate NotStale(a: Active, n: string) {
    n in Names(a.p) || n !in a.snapshot || a.snapshot[n].AwaitsCreation() || n in a.since
  }

  /** While a pass is under way, each repository it names is still to be written, was written or removed by somebody
      else, is carried as the pass found it, or says what the pass read. */
  ghost predicate Reading(w: World) {
    w.active.Some? ==> forall n :: n in Named(w.active.value.p) ==> ReadsOrCarries(w, n)
  }

  predicate ReadsOrCarries(w: World, n: string)
    requires w.active.Some?
  {
    var a := w.active.value;
    && (n in a.left ==> !Carried(a.snapshot, w.startedAt, n))
    && (|| n in a.left || n in a.others || n in a.removed
        || (n in w.store
            && if Carried(a.snapshot, w.startedAt, n) then w.store[n] == a.snapshot[n]
               else Says(w.store[n], a.snapshot, a.p, n)))
  }

  lemma StepKeepsReading(w: World, e: Event, interval: Time)
    requires Reading(w) && MayHappen(w, e, interval)
    ensures Reading(Happen(w, e, interval))
  {
    var w' := Happen(w, e, interval);
    if w'.active.Some? {
      forall n | n in Named(w'.active.value.p)
        ensures ReadsOrCarries(w', n)
      {
        if w.active.Some? {
          assert ReadsOrCarries(w, n);
        }
      }
    }
  }

  lemma {:induction false} RunReads(ws: seq<World>, es: seq<Event>, interval: Time, n: nat)
    requires IsRun(ws, es, interval) && n <= |es|
    ensures Reading(ws[n])
  {
    if n > 0 {
      RunReads(ws, es, interval, n - 1);
      assert Next(ws[n - 1], es[n - 1], ws[n - 1 + 1], interval);
      StepKeepsReading(ws[n - 1], es[n - 1], interval);
    }
  }

  lemma StepKeepsOnce(w: World, e: Event, interval: Time, n: string)
    requires OnceFor(w, n) && CursorCounts(w) && Covering(w) && MayHappen(w, e, interval)
    ensures OnceFor(Happen(w, e, interval), n)
  {
    match e
    case Begins(p) =>
    case Writes(m) =>
      var a := w.active.value;
      assert Built(a.snapshot, a.p, m).refreshedAt >= w.startedAt;
    case RemovesStale =>
    case Ends =>
    case CutShort =>
    case Wrote(m, r) =>
    case Removed(m) =>
  }

  lemma StepKeepsCovered(w: World, e: Event, interval: Time, n: string)
    requires CursorCounts(w) && Covering(w) && MayHappen(w, e, interval)
    requires w.active.Some? && Happen(w, e, interval).active.Some? && n in Names(w.active.value.p)
    ensures Covered(Happen(w, e, interval), n)
  {
    assert Covered(w, n);
    if e.Writes? && n == e.n {
      assert Built(w.active.value.snapshot, w.active.value.p, n).refreshedAt >= w.startedAt;
    }
  }

  lemma StepKeepsCleared(w: World, e: Event, interval: Time, n: string)
    requires Covering(w) && MayHappen(w, e, interval)
    requires w.active.Some? && Happen(w, e, interval).active.Some? && Happen(w, e, interval).active.value.cleared
    requires n in Happen(w, e, interval).store
    ensures NotStale(Happen(w, e, interval).active.value, n)
  {
    if w.active.value.cleared && n in w.store {
      assert NotStale(w.active.value, n);
    }
  }

  lemma StepKeepsCovering(w: World, e: Event, interval: Time)
    requires CursorCounts(w) && Covering(w) && MayHappen(w, e, interval)
    ensures CursorCounts(Happen(w, e, interval)) && Covering(Happen(w, e, interval))
  {
    var w' := Happen(w, e, interval);
    if w'.active.Some? && w.active.Some? {
      forall n | n in Names(w'.active.value.p)
        ensures Covered(w', n)
      {
        StepKeepsCovered(w, e, interval, n);
      }
      if w'.active.value.cleared {
        forall n | n in w'.store
          ensures NotStale(w'.active.value, n)
        {
          StepKeepsCleared(w, e, interval, n);
        }
      }
    }
  }

  /** In every run, a sweep writes a repository's record at most once more than the record was removed meanwhile,
      however often its passes were interrupted, stopped and taken up and whatever refreshes came between their steps;
      the cursor counts the passes. */
  lemma {:induction false} SweptAtMostOnce(ws: seq<World>, es: seq<Event>, interval: Time, n: nat)
    requires IsRun(ws, es, interval) && n <= |es|
    ensures WrittenOnce(ws[n]) && CursorCounts(ws[n]) && Covering(ws[n])
  {
    if n > 0 {
      SweptAtMostOnce(ws, es, interval, n - 1);
      assert Next(ws[n - 1], es[n - 1], ws[n - 1 + 1], interval);
      forall m ensures OnceFor(ws[n], m) {
        StepKeepsOnce(ws[n - 1], es[n - 1], interval, m);
      }
      StepKeepsCovering(ws[n - 1], es[n - 1], interval);
    }
  }

  /** Of a pass's own steps only the removal takes a record away, and exactly one that the pass, a complete one, found
      at its start standing for nothing: neither on GitHub nor declared nor awaiting its creation. */
  lemma OnlyACompletePassRemoves(w: World, e: Event, interval: Time, n: string)
    requires MayHappen(w, e, interval) && !e.Wrote? && !e.Removed? && n in w.store
    ensures n !in Happen(w, e, interval).store
       <==> e.RemovesStale? && var a := w.active.value;
            !a.p.stopped && n in a.snapshot && n !in a.p.nodes + a.p.declared && !a.snapshot[n].AwaitsCreation()
  {
  }

  /** The sweep's end over a whole run: when a complete pass ends, each repository on GitHub or declared has a record
      refreshed since the sweep started, unless it was removed since this pass began; the sweep wrote each at most once
      but for removals; and the other records left awaited a creation when the pass began, came after that, or were
      written after it removed the stale ones. A record nobody else wrote or removed since the pass began says what the
      pass read of its repository, or is carried as it was found. */
  lemma CompletedSweep(ws: seq<World>, es: seq<Event>, interval: Time, k: nat)
    requires IsRun(ws, es, interval) && k < |es| && es[k] == Ends && ws[k].active.Some? && !ws[k].active.value.p.stopped
    ensures var w, a := ws[k + 1], ws[k].active.value;
            && (forall n :: n in a.p.nodes + a.p.declared ==> n in Done(w.store, w.startedAt) || n in a.removed)
            && (forall n :: w.writes[n] <= 1 + w.removals[n])
            && (forall n :: n in w.store ==> NotStale(a, n))
            && (forall n :: n in a.p.nodes + a.p.declared && n !in a.others && n !in a.removed ==>
                  n in w.store
                  && if Carried(a.snapshot, w.startedAt, n) then w.store[n] == a.snapshot[n]
                     else Says(w.store[n], a.snapshot, a.p, n))
            && w.cursor.None?
  {
    RunReads(ws, es, interval, k);
    SweptAtMostOnce(ws, es, interval, k);
    SweptAtMostOnce(ws, es, interval, k + 1);
    assert Next(ws[k], es[k], ws[k + 1], interval);
    var w, a := ws[k + 1], ws[k].active.value;
    forall n | n in Names(a.p) ensures n in Done(w.store, w.startedAt) || n in a.removed {
      assert Covered(ws[k], n);
    }
    forall n | n in a.p.nodes + a.p.declared && n !in a.others && n !in a.removed
      ensures n in w.store
      ensures if Carried(a.snapshot, w.startedAt, n) then w.store[n] == a.snapshot[n]
              else Says(w.store[n], a.snapshot, a.p, n)
    {
      assert ReadsOrCarries(ws[k], n);
    }
    forall n ensures w.writes[n] <= 1 + w.removals[n] {
      assert OnceFor(w, n);
    }
  }

  /** A pod that stops between the removal and the end leaves nothing to do again: the next pass of a sweep still young
      that finds the same repositories takes it up with nothing left to write. */
  lemma ClearedPassIsTakenUp(w: World, q: Pass, interval: Time)
    requires CursorCounts(w) && Covering(w) && w.active.Some? && w.active.value.cleared && w.active.value.removed == {}
    requires interval > 0 && q.now < w.startedAt + interval
    requires Names(q) == Names(w.active.value.p)
    ensures var w' := Happen(Happen(w, CutShort, interval), Begins(q), interval);
            w'.active.Some? && w'.active.value.left == {} && w'.startedAt == w.startedAt && w'.store == w.store
  {
    forall n | n in Names(q) ensures n in Done(w.store, w.startedAt) {
      assert Covered(w, n);
    }
  }

  /** The world as another pod's pass sees it. */
  function Beside(w: World, a: Option<Active>): World {
    w.(active := a)
  }

  /** One pass at a time is needed: a pod whose pass takes the sweep up while another's is under way writes a record
      that one has still to write a second time, with nothing removed, if and only if the record is not done when it
      begins. */
  lemma OverlappingPassWritesTwiceExactly(w: World, q: Pass, interval: Time, n: string)
    requires CursorCounts(w) && w.cursor.Some? && w.active.Some? && n in w.active.value.left && n in Names(q)
    requires interval > 0 && q.now < w.startedAt + interval
    ensures var second := Happen(w, Begins(q), interval);
            var once := Happen(second, Writes(n), interval);
            var twice := Happen(Beside(once, w.active), Writes(n), interval);
            && second.startedAt == w.startedAt
            && (MayHappen(second, Writes(n), interval) <==> n !in Done(w.store, w.startedAt))
            && MayHappen(Beside(once, w.active), Writes(n), interval)
            && twice.writes[n] == w.writes[n] + 2 && twice.removals == w.removals
  {
  }

  /** The start, not the end, decides what awaits a creation: a record whose creation is asked for while the pass runs
      is removed with the stale ones. */
  lemma AwaitedSinceIsRemoved(n: string, p: Pass, gone: Record, interval: Time)
    requires p.nodes == {} && p.declared == {} && !p.stopped
    requires !gone.declared && !gone.onGitHub && !gone.pending && InTime(p, p.now)
    ensures var w0 := World(map[n := gone], None, ZERO, 0, multiset{}, multiset{}, None);
            var w1 := Happen(w0, Begins(p), interval);
            var w2 := Happen(w1, Wrote(n, gone.(pending := true)), interval);
            && MayHappen(w0, Begins(p), interval) && MayHappen(w1, Wrote(n, gone.(pending := true)), interval)
            && MayHappen(w2, RemovesStale, interval)
            && w2.store[n].AwaitsCreation() && n !in Happen(w2, RemovesStale, interval).store
  {
    var w0 := World(map[n := gone], None, ZERO, 0, multiset{}, multiset{}, None);
    var w2 := Happen(Happen(w0, Begins(p), interval), Wrote(n, gone.(pending := true)), interval);
    assert n in Stale(w2.active.value.snapshot, p);
    OnlyACompletePassRemoves(w2, RemovesStale, interval, n);
  }

  // ---- A pass that nothing interrupts is its steps

  /** The pass's writes one after the other. */
  function WritesAll(w: World, order: seq<string>, interval: Time): World {
    if order == [] then w else Happen(WritesAll(w, order[..|order| - 1], interval), Writes(order[|order| - 1]),
        interval)
  }

  /** What follows the writes. */
  function EndOf(w: World, p: Pass, ok: bool, interval: Time): World {
    if !ok || (!p.stopped && p.end.StaleStay?) then Happen(w, CutShort, interval)
    else if p.stopped then Happen(w, Ends, interval)
    else Happen(Happen(w, RemovesStale, interval), if p.end.EndsWell? then Ends else CutShort, interval)
  }

  lemma {:induction false} WritesAllStore(w: World, order: seq<string>, interval: Time)
    requires w.active.Some? && w.active.value.snapshot == w.store && Distinct(order)
    ensures var w', a := WritesAll(w, order, interval), w.active.value;
            && w'.active == Some(a.(left := a.left - ToSet(order))) && w'.cursor == w.cursor
            && w'.store == WithWritten(w.store, a.p, ToSet(order))
  {
    var a := w.active.value;
    if order == [] {
      assert WithWritten(w.store, a.p, ToSet(order)) == w.store;
      assert a.left - ToSet(order) == a.left;
    } else {
      var k := |order| - 1;
      WritesAllStore(w, order[..k], interval);
      ToSetGrows(order, k);
      assert order[..k + 1] == order;
      WrittenGrows(w.store, a.p, ToSet(order[..k]), order[k]);
      assert a.left - ToSet(order[..k]) - {order[k]} == a.left - ToSet(order);
    }
  }

  /** What `Sweeper.Sweep` leaves is what the pass's own steps leave when nothing happens between them, in whatever
      order it wrote and wherever it stopped. */
  lemma PassIsItsSteps(w: World, p: Pass, order: seq<string>, ok: bool, store: map<string, Record>,
                       cursor: Option<Cursor>, interval: Time)
    requires w.active.None? && Distinct(order) && After(w.store, w.cursor, p, interval, ToSet(order), ok, store, cursor)
    ensures var before := WritesAll(Happen(w, Begins(p), interval), order, interval);
            var end := EndOf(before, p, ok, interval);
            && (ok ==> before.active.Some? && before.active.value.left == {})
            && end.store == store && end.cursor == cursor
  {
    var begun := Happen(w, Begins(p), interval);
    WritesAllStore(begun, order, interval);
    var before := WritesAll(begun, order, interval);
    if ok && Clears(p) {
      assert StaleNow(before.store, before.active.value) == Stale(w.store, p);
    }
  }
}
