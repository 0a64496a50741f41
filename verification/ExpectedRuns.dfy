/**
The expected runs of a record: an Align now or a team-file pull request marks a run as pending; the run's report
answers it, or the poller gives it up as missing. One record's history is any sequence of those events.
*/
module ExpectedRuns {
  import opened Common

  /** dispatchSlack in seconds: how much earlier than its mark a dispatched run may have been created. */
  const DISPATCH_SLACK: Time := 60

  /** A run marked as expected: pullRequest is None for an Align now. */
  datatype PendingRun = PendingRun(
    dispatchedAt: Time, author: string, kind: string, pullRequest: Option<nat>,
    mergedAt: Option<Time>, conflictsSince: Option<Time>)
  {
    predicate Conflicting() {
      conflictsSince.Some?
    }

    /** The start of the pending window; the zero time while the pull request is open. */
    function AwaitedFrom(): Time {
      if pullRequest.None? then dispatchedAt
      else if mergedAt.Some? then mergedAt.value
      else ZERO
    }
  }

  datatype MissingRun = MissingRun(pending: PendingRun, noticedAt: Time, runURL: string, conclusion: string)

  /** The two fields of a record's set-up state. */
  datatype Setup = Setup(pending: Option<PendingRun>, missing: Option<MissingRun>)

  const NOTHING := Setup(None, None)

  function ExpectRun(p: PendingRun): Setup {
    Setup(Some(p), None)
  }

  function GiveUp(s: Setup, now: Time, runURL: string, conclusion: string): Setup {
    if s.pending.None? then s else Setup(None, Some(MissingRun(s.pending.value, now, runURL, conclusion)))
  }

  function NoteMerge(s: Setup, at: Time): Setup
    requires s.pending.Some?
  {
    s.(pending := Some(s.pending.value.(mergedAt := Some(at))))
  }

  function NoteConflict(s: Setup, at: Time): Setup {
    if s.pending.Some? && s.pending.value.conflictsSince.None?
    then s.(pending := Some(s.pending.value.(conflictsSince := Some(at)))) else s
  }

  function DropConflict(s: Setup): Setup {
    if s.pending.Some? then s.(pending := Some(s.pending.value.(conflictsSince := None))) else s
  }

  /** The mutators of the record. */
  class Record {
    var pending: Option<PendingRun>
    var missing: Option<MissingRun>

    constructor (s: Setup)
      ensures State() == s
    {
      pending, missing := s.pending, s.missing;
    }

    function State(): Setup
      reads this
    {
      Setup(pending, missing)
    }

    method Dispatched(now: Time, author: string)
      modifies this
      ensures State() == ExpectRun(PendingRun(now, author, "dispatched", None, None, None))
    {
      ExpectRunOf(PendingRun(now, author, "dispatched", None, None, None));
    }

    method Opened(now: Time, author: string, kind: string, pr: nat)
      modifies this
      ensures State() == ExpectRun(PendingRun(now, author, kind, Some(pr), None, None))
    {
      ExpectRunOf(PendingRun(now, author, kind, Some(pr), None, None));
    }

    method ExpectRunOf(p: PendingRun)
      modifies this
      ensures State() == ExpectRun(p)
    {
      pending := Some(p);
      missing := None;
    }

    method Merged(at: Time)
      requires pending.Some?
      modifies this
      ensures State() == NoteMerge(old(State()), at)
    {
      pending := Some(pending.value.(mergedAt := Some(at)));
    }

    method Closed()
      modifies this
      ensures State() == old(State()).(pending := None)
    {
      pending := None;
    }

    method Conflicts(at: Time)
      modifies this
      ensures State() == NoteConflict(old(State()), at)
    {
      if pending.Some? && pending.value.conflictsSince.None? {
        pending := Some(pending.value.(conflictsSince := Some(at)));
      }
    }

    method Mergeable()
      modifies this
      ensures State() == DropConflict(old(State()))
    {
      if pending.Some? {
        pending := Some(pending.value.(conflictsSince := None));
      }
    }

    method RunMissing(now: Time)
      modifies this
      ensures State() == GiveUp(old(State()), now, "", "")
    {
      GiveUpAs(now, "", "");
    }

    method RunFailed(now: Time, runURL: string, conclusion: string)
      modifies this
      ensures State() == GiveUp(old(State()), now, runURL, conclusion)
    {
      GiveUpAs(now, runURL, conclusion);
    }

    method GiveUpAs(now: Time, runURL: string, conclusion: string)
      modifies this
      ensures State() == GiveUp(old(State()), now, runURL, conclusion)
    {
      if pending.None? {
        return;
      }
      missing := Some(MissingRun(pending.value, now, runURL, conclusion));
      pending := None;
    }

    /** expirePending at this record, read from the store: pr is how the pull request reads when it is read, puts and
        putsMissing whether the store takes the merge, close or conflict and then the give-up. What is not put is not
        stored, which the caller does by forgetting this object: the new stored state is `stored`. */
    method Expire(now: Time, window: Time, pr: PullRequestRead, puts: bool, putsMissing: bool)
      returns (stored: Setup, hooked: bool)
      requires Readable(State())
      modifies this
      ensures (stored, hooked) == Expired(old(State()), now, window, pr, puts, putsMissing)
    {
      stored, hooked := State(), false;
      if pending.None? {
        return;
      }
      var from := pending.value.AwaitedFrom();
      if from == ZERO {
        match pr
        case Unread =>
          return;
        case MergedPR(at, _) =>
          from := at;
          Merged(at);
          if !puts {
            return;
          }
          stored := State();
        case ClosedPR =>
          Closed();
          if puts {
            stored := State();
          }
          return;
        case OpenPR(mergeable) =>
          if mergeable.None? {
            return;
          }
          if !mergeable.value && !pending.value.Conflicting() {
            Conflicts(now);
            if puts {
              stored, hooked := State(), true;
            }
          } else if mergeable.value && pending.value.Conflicting() {
            Mergeable();
            if puts {
              stored := State();
            }
          }
          return;
      }
      if from == ZERO || now < from + window {
        return;
      }
      RunMissing(now);
      if putsMissing {
        stored := State();
      }
    }
  }

  /** A pull request as the poller reads it. */
  datatype PullRequestRead = Unread | OpenPR(mergeable: Option<bool>) | MergedPR(at: Time, sha: string) | ClosedPR

  /** The pull request is read only where the mark has one: an Align now is dispatched at a real time. */
  predicate Readable(s: Setup) {
    s.pending.Some? && s.pending.value.pullRequest.None? ==> s.pending.value.dispatchedAt != ZERO
  }

  /** What expirePending makes of a stored record, and whether the conflict hook is called. */
  function Expired(s: Setup, now: Time, window: Time, pr: PullRequestRead, puts: bool, putsMissing: bool): (Setup, bool)
    requires Readable(s)
  {
    if s.pending.None? then (s, false)
    else
      var p := s.pending.value;
      if p.AwaitedFrom() != ZERO then (Overdue(s, p.AwaitedFrom(), now, window, putsMissing), false)
      else match pr
        case Unread => (s, false)
        case ClosedPR => (if puts then s.(pending := None) else s, false)
        case MergedPR(at, _) => (if puts then Overdue(NoteMerge(s, at), at, now, window, putsMissing) else s, false)
        case OpenPR(mergeable) =>
          if !puts || mergeable.None? then (s, false)
          else if mergeable.value then (DropConflict(s), false)
          else (NoteConflict(s, now), !p.Conflicting())
  }

  /** The window from `from` has passed: the run is missing. */
  function Overdue(s: Setup, from: Time, now: Time, window: Time, putsMissing: bool): Setup {
    if from == ZERO || now < from + window || !putsMissing then s else GiveUp(s, now, "", "")
  }

  /** A completed run as the poller sees it. */
  datatype CompletedRun = CompletedRun(event: string, created: Time, headSHA: string, url: string, conclusion: string)

  /** Whether run is the one p awaits. */
  predicate Expects(p: PendingRun, run: CompletedRun, mergeSHA: string) {
    if p.pullRequest.None? then run.event == "workflow_dispatch" && p.dispatchedAt <= run.created + DISPATCH_SLACK
    else run.event == "push" && mergeSHA != "" && mergeSHA == run.headSHA
  }

  /** runWithoutReport at a record the run handled and did not report on. */
  function Unreported(s: Setup, now: Time, run: CompletedRun, pr: PullRequestRead, puts: bool): Setup {
    if s.pending.None? then s
    else
      var p := s.pending.value;
      var merged := p.pullRequest.Some? && run.event == "push" && pr.MergedPR?;
      var noted := if merged && p.mergedAt.None? then NoteMerge(s, pr.at) else s;
      if Expects(p, run, if merged then pr.sha else "") && puts then GiveUp(noted, now, run.url, run.conclusion) else s
  }

  // ----- histories

  /** A sweep reads its records, and later writes the record back around the set-up state it read. */
  datatype Event =
    | Dispatch(now: Time, author: string)
    | OpenPullRequest(now: Time, author: string, kind: string, number: nat)
    | Expire(now: Time, pr: PullRequestRead, puts: bool, putsMissing: bool)
    | RunEnded(now: Time, run: CompletedRun, pr: PullRequestRead, puts: bool)
    | Report
    | SweepReads
    | SweepWrites

  /** What is worth remembering of a history: marks made, resolved and put back by a sweep, the conflict hook and its
      clearing. */
  datatype Note =
    | Marked
    | Reported
    | TimedOut(from: Time, at: Time)
    | RunFailed(run: CompletedRun)
    | Withdrawn
    | Hooked
    | Cleared
    | PutBack(conflicting: bool)
    | ConflictPutBack
    | Overwritten

  datatype History = History(setup: Setup, copy: Option<Setup>, notes: seq<Note>)

  const START := History(NOTHING, None, [])

  predicate MayHappen(event: Event) {
    event.Dispatch? ==> event.now != ZERO
  }

  predicate Possible(events: seq<Event>) {
    forall i :: 0 <= i < |events| ==> MayHappen(events[i])
  }

  /** What an expiry is remembered as. */
  function ExpiryNote(before: Setup, after: Setup, hooked: bool, now: Time): seq<Note> {
    if hooked then [Hooked]
    else if before.pending.Some? && after.pending.None? then
      if after.missing.Some? && before.missing != after.missing
      then [TimedOut(after.missing.value.pending.AwaitedFrom(), now)] else [Withdrawn]
    else if before.pending.Some? && before.pending.value.Conflicting() && !after.pending.value.Conflicting()
        then [Cleared]
    else []
  }

  /** Two states of one mark. */
  predicate SameMark(p: PendingRun, q: PendingRun) {
    p.dispatchedAt == q.dispatchedAt && p.author == q.author && p.kind == q.kind && p.pullRequest == q.pullRequest
  }

  /** A sweep's write expects a run anew only where its copy has one pending and the record had not that one. */
  function SweepNote(before: Setup, copy: Setup): seq<Note> {
    if copy == before then []
    else if copy.pending.None? then [Overwritten]
    else if before.pending.Some? && SameMark(before.pending.value, copy.pending.value) then
      if before.pending.value.Conflicting() && !copy.pending.value.Conflicting() then [Cleared]
      else if !before.pending.value.Conflicting() && copy.pending.value.Conflicting() then [ConflictPutBack]
      else []
    else [PutBack(copy.pending.value.Conflicting())]
  }

  function Happen(h: History, event: Event, window: Time): History
    requires Readable(h.setup)
  {
    match event
    case Dispatch(now, author) =>
      h.(setup := ExpectRun(PendingRun(now, author, "dispatched", None, None, None)), notes := h.notes + [Marked])
    case OpenPullRequest(now, author, kind, number) =>
      h.(setup := ExpectRun(PendingRun(now, author, kind, Some(number), None, None)), notes := h.notes + [Marked])
    case Report => h.(setup := NOTHING, notes := if h.setup.pending.Some? then h.notes + [Reported] else h.notes)
    case RunEnded(now, run, pr, puts) =>
      var s := Unreported(h.setup, now, run, pr, puts);
      h.(setup := s, notes := if s == h.setup then h.notes else h.notes + [RunFailed(run)])
    case Expire(now, pr, puts, putsMissing) =>
      var (s, hooked) := Expired(h.setup, now, window, pr, puts, putsMissing);
      h.(setup := s, notes := h.notes + ExpiryNote(h.setup, s, hooked, now))
    case SweepReads => h.(copy := Some(h.setup))
    case SweepWrites =>
      if h.copy.None? then h
      else h.(setup := h.copy.value, copy := None, notes := h.notes + SweepNote(h.setup, h.copy.value))
  }

  /** Never both pending and missing; a missing pull-request run has its merge; an Align now has its dispatch. */
  predicate Sound(s: Setup) {
    && (s.pending.None? || s.missing.None?)
    && (s.missing.Some? && s.missing.value.pending.pullRequest.Some? ==> s.missing.value.pending.mergedAt.Some?)
    && Readable(s)
  }

  predicate AllSound(h: History) {
    Sound(h.setup) && (h.copy.Some? ==> Sound(h.copy.value))
  }

  function PlayFrom(h: History, events: seq<Event>, window: Time): (r: History)
    requires AllSound(h) && Possible(events)
    ensures AllSound(r)
  {
    if events == [] then h
    else Happen(PlayFrom(h, events[..|events| - 1], window), events[|events| - 1], window)
  }

  function Play(events: seq<Event>, window: Time): (h: History)
    requires Possible(events)
    ensures AllSound(h)
  {
    PlayFrom(START, events, window)
  }

  /** The note ends the mark before it. */
  predicate Resolves(n: Note) {
    n.Reported? || n.TimedOut? || n.RunFailed? || n.Withdrawn?
  }

  /** A run is expected anew: marked, or put back by a sweep. */
  predicate Renews(n: Note) {
    n == Marked || n.PutBack?
  }

  predicate WindowKept(n: Note, window: Time) {
    n.TimedOut? ==> n.from != ZERO && n.at >= n.from + window
  }

  /** Between any two resolutions a run was expected anew: a mark that was reported on, failed, timed out or was
      withdrawn is not given up again unless a sweep put it back. */
  ghost predicate ResolvedOnce(notes: seq<Note>) {
    forall i, j :: 0 <= i < j < |notes| && Resolves(notes[i]) && Resolves(notes[j]) ==> RenewedBetween(notes, i, j)
  }

  ghost predicate RenewedBetween(notes: seq<Note>, i: int, j: int) {
    exists k :: 0 <= i < k < j <= |notes| && Renews(notes[k])
  }

  /** Between any two calls of the conflict hook the note of the conflict was dropped: by a mergeable pull request, by
      the end of the mark or by a sweep. */
  ghost predicate HookedOnce(notes: seq<Note>) {
    forall i, j :: 0 <= i < j < |notes| && notes[i] == Hooked && notes[j] == Hooked ==> DroppedBetween(notes, i, j)
  }

  ghost predicate DroppedBetween(notes: seq<Note>, i: int, j: int) {
    exists k :: 0 <= i < k < j <= |notes| && (Renews(notes[k]) || notes[k] == Cleared)
  }

  ghost predicate Kept(h: History, window: Time) {
    && (forall i :: 0 <= i < |h.notes| ==> WindowKept(h.notes[i], window))
    && ResolvedOnce(h.notes)
    && HookedOnce(h.notes)
    && (forall i :: 0 <= i < |h.notes| && Resolves(h.notes[i]) && h.setup.pending.Some? ==>
        RenewedBetween(h.notes, i, |h.notes|))
    && (h.setup.pending.Some? && !h.setup.pending.value.Conflicting() ==>
          forall i :: 0 <= i < |h.notes| && h.notes[i] == Hooked ==> DroppedBetween(h.notes, i, |h.notes|))
  }

  /** At most one note is appended. */
  lemma AppendsOne(h: History, event: Event, window: Time)
    requires Readable(h.setup)
    ensures var h' := Happen(h, event, window); h'.notes == h.notes || exists n :: h'.notes == h.notes + [n]
  {
    var h' := Happen(h, event, window);
    if h'.notes != h.notes {
      assert |h'.notes| == |h.notes| + 1;
      assert h'.notes == h.notes + [h'.notes[|h.notes|]];
    }
  }

  lemma BetweenStays(notes: seq<Note>, n: Note, i: int, j: int)
    requires 0 <= i && j <= |notes|
    ensures RenewedBetween(notes, i, j) ==> RenewedBetween(notes + [n], i, j) && RenewedBetween(notes + [n], i, j + 1)
    ensures DroppedBetween(notes, i, j) ==> DroppedBetween(notes + [n], i, j) && DroppedBetween(notes + [n], i, j + 1)
    ensures Renews(n) && i < j == |notes| ==> RenewedBetween(notes + [n], i, j + 1)
    ensures (Renews(n) || n == Cleared) && i < j == |notes| ==> DroppedBetween(notes + [n], i, j + 1)
  {
    var after := notes + [n];
    if RenewedBetween(notes, i, j) {
      var k :| 0 <= i < k < j <= |notes| && Renews(notes[k]);
      assert after[k] == notes[k];
    }
    if DroppedBetween(notes, i, j) {
      var k :| 0 <= i < k < j <= |notes| && (Renews(notes[k]) || notes[k] == Cleared);
      assert after[k] == notes[k];
    }
    assert after[|notes|] == n;
  }

  lemma NotesGrow(notes: seq<Note>, n: Note, window: Time)
    requires forall i :: 0 <= i < |notes| ==> WindowKept(notes[i], window)
    requires ResolvedOnce(notes) && HookedOnce(notes) && WindowKept(n, window)
    requires Resolves(n) ==> forall i :: 0 <= i < |notes| && Resolves(notes[i]) ==> RenewedBetween(notes, i, |notes|)
    requires n == Hooked ==> forall i :: 0 <= i < |notes| && notes[i] == Hooked ==> DroppedBetween(notes, i, |notes|)
    ensures var after := notes + [n];
            (forall i :: 0 <= i < |after| ==> WindowKept(after[i], window)) && ResolvedOnce(after) && HookedOnce(after)
  {
    var after := notes + [n];
    forall i, j | 0 <= i < j < |after|
      ensures Resolves(after[i]) && Resolves(after[j]) ==> RenewedBetween(after, i, j)
      ensures after[i] == Hooked && after[j] == Hooked ==> DroppedBetween(after, i, j)
    {
      BetweenStays(notes, n, i, j);
    }
  }

  lemma StepKeeps(h: History, event: Event, window: Time)
    requires AllSound(h) && Kept(h, window) && MayHappen(event)
    ensures Kept(Happen(h, event, window), window)
  {
    var h' := Happen(h, event, window);
    AppendsOne(h, event, window);
    if h'.notes != h.notes {
      var n :| h'.notes == h.notes + [n];
      assert h'.notes[|h.notes|] == n;
      NotesGrow(h.notes, n, window);
      forall i | 0 <= i < |h'.notes|
        ensures Resolves(h'.notes[i]) && h'.setup.pending.Some? ==> RenewedBetween(h'.notes, i, |h'.notes|)
        ensures h'.notes[i] == Hooked && h'.setup.pending.Some? && !h'.setup.pending.value.Conflicting() ==>
                  DroppedBetween(h'.notes, i, |h'.notes|)
      {
        BetweenStays(h.notes, n, i, |h.notes|);
      }
    }
  }

  /** Over every sequence of dispatches, openings, merges, closes, conflicts, failed writes, reports, give-ups and
      sweeps. */
  lemma {:induction false} EveryMarkEndsOnce(events: seq<Event>, window: Time)
    requires Possible(events)
    ensures Kept(Play(events, window), window) && AllSound(Play(events, window))
  {
    if events != [] {
      EveryMarkEndsOnce(events[..|events| - 1], window);
      StepKeeps(Play(events[..|events| - 1], window), events[|events| - 1], window);
    }
  }

  /** After a report, the next give-up belongs to a run expected anew: a new mark, or one a sweep put back. */
  lemma ReportIsFinal(events: seq<Event>, window: Time, i: nat, j: nat)
    requires Possible(events)
    requires var notes := Play(events, window).notes;
             i < j < |notes| && notes[i] == Reported && (notes[j].TimedOut? || notes[j].RunFailed?)
    ensures RenewedBetween(Play(events, window).notes, i, j)
  {
    EveryMarkEndsOnce(events, window);
  }

  // ----- what an expiry does, exactly

  /** The pull request of the mark is still to be merged, as far as the record knows. */
  predicate AwaitsMerge(p: PendingRun) {
    p.pullRequest.Some? && (p.mergedAt.None? || p.mergedAt.value == ZERO)
  }

  /** The start of the mark's window: the dispatch, the merge it carries, or the merge read now and stored; the zero
      time without one. */
  function WindowStart(p: PendingRun, pr: PullRequestRead, puts: bool): Time {
    if p.pullRequest.None? then p.dispatchedAt
    else if !AwaitsMerge(p) then p.mergedAt.value
    else if pr.MergedPR? && puts then pr.at
    else ZERO
  }

  predicate FindsConflict(p: PendingRun, pr: PullRequestRead, puts: bool) {
    AwaitsMerge(p) && pr == OpenPR(Some(false)) && puts && p.conflictsSince.None?
  }

  predicate FindsMergeable(p: PendingRun, pr: PullRequestRead, puts: bool) {
    AwaitsMerge(p) && pr == OpenPR(Some(true)) && puts && p.conflictsSince.Some?
  }

  predicate FindsClosed(p: PendingRun, pr: PullRequestRead, puts: bool) {
    AwaitsMerge(p) && pr == ClosedPR && puts
  }

  predicate RunsOut(p: PendingRun, now: Time, window: Time, pr: PullRequestRead, puts: bool, putsMissing: bool) {
    WindowStart(p, pr, puts) != ZERO && now >= WindowStart(p, pr, puts) + window && putsMissing
  }

  /** The conflict hook is called on exactly a first conflict that the store took, and then the conflict is noted; the
      note goes with exactly a mergeable read the store took, the mark with exactly a closed one; a merge read and
      stored is noted; and the run is given up exactly when its window is over and the store takes it. */
  lemma ExpiresExactly(s: Setup, now: Time, window: Time, pr: PullRequestRead, puts: bool, putsMissing: bool)
    requires Readable(s) && s.pending.Some?
    ensures var p := s.pending.value;
            var (s', hooked) := Expired(s, now, window, pr, puts, putsMissing);
            && (hooked <==> FindsConflict(p, pr, puts))
            && (FindsConflict(p, pr, puts) ==> s' == s.(pending := Some(p.(conflictsSince := Some(now)))))
            && (FindsMergeable(p, pr, puts) ==> s' == s.(pending := Some(p.(conflictsSince := None))))
            && (FindsClosed(p, pr, puts) ==> s' == s.(pending := None))
            && (RunsOut(p, now, window, pr, puts, putsMissing) ==>
                  var merged := if AwaitsMerge(p) then p.(mergedAt := Some(pr.at)) else p;
                  s' == Setup(None, Some(MissingRun(merged, now, "", ""))))
            && (!FindsConflict(p, pr, puts) && !FindsMergeable(p, pr, puts) && !FindsClosed(p, pr, puts)
                && !RunsOut(p, now, window, pr, puts, putsMissing) ==>
                  s' == if AwaitsMerge(p) && pr.MergedPR? && puts
                        then s.(pending := Some(p.(mergedAt := Some(pr.at)))) else s)
  {
  }

  /** What an expiry adds to a history: at most one note, and each on exactly what it is about. */
  lemma ExpiryNotesExactly(h: History, now: Time, pr: PullRequestRead, puts: bool, putsMissing: bool, window: Time)
    requires AllSound(h) && h.setup.pending.Some?
    ensures var p := h.setup.pending.value;
            var h' := Happen(h, Event.Expire(now, pr, puts, putsMissing), window);
            && (h'.notes == h.notes + [Hooked] <==> FindsConflict(p, pr, puts))
            && (h'.notes == h.notes + [Cleared] <==> FindsMergeable(p, pr, puts))
            && (h'.notes == h.notes + [Withdrawn] <==> FindsClosed(p, pr, puts))
            && (h'.notes == h.notes + [TimedOut(WindowStart(p, pr, puts), now)] <==>
                RunsOut(p, now, window, pr, puts, putsMissing))
            && (FindsConflict(p, pr, puts) <==> h'.setup.pending.Some? && p.conflictsSince.None? &&
                                                h'.setup.pending.value.conflictsSince.Some?)
  {
    ExpiresExactly(h.setup, now, window, pr, puts, putsMissing);
    var h' := Happen(h, Event.Expire(now, pr, puts, putsMissing), window);
    var (s', hooked) := Expired(h.setup, now, window, pr, puts, putsMissing);
    assert h'.notes == h.notes + ExpiryNote(h.setup, s', hooked, now) && h'.setup == s';
    assert forall n, m: Note :: h.notes + [n] == h.notes + [m] ==> (h.notes + [n])[|h.notes|] == n;
  }

  // ----- the conflict hook is called

  /** The note that a conflict stands: the hook was called for it, or a sweep put it back. */
  predicate Raises(n: Note) {
    n == Hooked || n == PutBack(true) || n == ConflictPutBack
  }

  /** No conflict stands after the note. */
  predicate Lowers(n: Note) {
    n == Marked || n == Cleared || n == PutBack(false) || n == Overwritten || Resolves(n)
  }

  ghost predicate Raised(notes: seq<Note>) {
    exists i :: 0 <= i < |notes| && Raises(notes[i]) && forall k :: i < k < |notes| ==> !Lowers(notes[k])
  }

  lemma RaisedStays(notes: seq<Note>, n: Note)
    ensures Raises(n) ==> Raised(notes + [n])
    ensures Raised(notes) && !Lowers(n) ==> Raised(notes + [n])
  {
    var after := notes + [n];
    assert after[|notes|] == n;
    if Raised(notes) && !Lowers(n) {
      var i :| 0 <= i < |notes| && Raises(notes[i]) && forall k :: i < k < |notes| ==> !Lowers(notes[k]);
      assert Raises(after[i]);
    }
  }

  lemma StepRaises(h: History, event: Event, window: Time)
    requires AllSound(h) && MayHappen(event)
    requires h.setup.pending.Some? && h.setup.pending.value.Conflicting() ==> Raised(h.notes)
    ensures var h' := Happen(h, event, window);
            h'.setup.pending.Some? && h'.setup.pending.value.Conflicting() ==> Raised(h'.notes)
  {
    var h' := Happen(h, event, window);
    AppendsOne(h, event, window);
    if h'.notes != h.notes {
      var n :| h'.notes == h.notes + [n];
      assert h'.notes[|h.notes|] == n;
      RaisedStays(h.notes, n);
    }
  }

  /** No conflict stands unheard: where the mark's pull request is noted as conflicting, the hook was called since the
      mark was last free of a conflict, unless a sweep put the note back. */
  lemma {:induction false} ConflictWasHooked(events: seq<Event>, window: Time)
    requires Possible(events)
    ensures var h := Play(events, window);
            h.setup.pending.Some? && h.setup.pending.value.Conflicting() ==> Raised(h.notes)
  {
    if events != [] {
      ConflictWasHooked(events[..|events| - 1], window);
      StepRaises(Play(events[..|events| - 1], window), events[|events| - 1], window);
    }
  }

  // ----- a sweep gives up what was reported

  /** No run is marked as expected. */
  predicate NoMark(events: seq<Event>) {
    forall i :: 0 <= i < |events| ==> !events[i].Dispatch? && !events[i].OpenPullRequest?
  }

  predicate IsGiveUp(n: Note) {
    n.TimedOut? || n.RunFailed?
  }

  /** The events give a run up. */
  ghost predicate GivesUp(h: History, more: seq<Event>, window: Time)
    requires AllSound(h) && Possible(more)
  {
    var notes := PlayFrom(h, more, window).notes;
    exists i :: |h.notes| <= i < |notes| && IsGiveUp(notes[i])
  }

  /** While nothing is expected, as after a report, a run can be given up without a new mark if and only if a sweep
      holds a copy in which one is expected. */
  lemma GivenUpUnmarkedExactly(h: History, window: Time)
    requires AllSound(h) && h.setup.pending.None?
    ensures (exists more :: Possible(more) && NoMark(more) && GivesUp(h, more, window))
            <==> h.copy.Some? && h.copy.value.pending.Some?
  {
    if h.copy.Some? && h.copy.value.pending.Some? {
      SweptBackIsGivenUp(h, window);
    } else {
      forall more | Possible(more) && NoMark(more)
        ensures !GivesUp(h, more, window)
      {
        NothingIsGivenUp(h, more, window);
      }
    }
  }

  lemma PlayAppend(h: History, events: seq<Event>, event: Event, window: Time)
    requires AllSound(h) && Possible(events) && MayHappen(event)
    ensures Possible(events + [event])
    ensures PlayFrom(h, events + [event], window) == Happen(PlayFrom(h, events, window), event, window)
  {
    assert (events + [event])[..|events|] == events;
  }

  /** Past the window of the mark, whatever its pull request still has to be read as. */
  function PastWindow(p: PendingRun, window: Time): Event {
    Event.Expire(p.AwaitedFrom() + 1 + window, MergedPR(1, ""), true, true)
  }

  lemma WindowRunsOut(h: History, window: Time)
    requires Sound(h.setup) && h.setup.pending.Some?
    ensures var h' := Happen(h, PastWindow(h.setup.pending.value, window), window);
            |h'.notes| == |h.notes| + 1 && IsGiveUp(h'.notes[|h.notes|])
  {
  }

  lemma SweptBackIsGivenUp(h: History, window: Time)
    requires AllSound(h) && h.setup.pending.None? && h.copy.Some? && h.copy.value.pending.Some?
    ensures exists more :: Possible(more) && NoMark(more) && GivesUp(h, more, window)
  {
    var expire := PastWindow(h.copy.value.pending.value, window);
    var more := [SweepWrites, expire];
    var h1 := Happen(h, SweepWrites, window);
    PlayAppend(h, [], SweepWrites, window);
    PlayAppend(h, [SweepWrites], expire, window);
    assert [] + [SweepWrites] == [SweepWrites] && [SweepWrites] + [expire] == more;
    assert h1 == History(h.copy.value, None, h.notes + [PutBack(h.copy.value.pending.value.Conflicting())]);
    WindowRunsOut(h1, window);
    assert IsGiveUp(PlayFrom(h, more, window).notes[|h.notes| + 1]);
    assert NoMark(more) && GivesUp(h, more, window);
  }

  predicate Unmarked(h: History) {
    h.setup.pending.None? && (h.copy.Some? ==> h.copy.value.pending.None?)
  }

  /** While no run is expected, here or in a sweep's copy, one event without a mark gives nothing up. */
  lemma StaysUnmarked(h: History, event: Event, window: Time)
    requires Readable(h.setup) && Unmarked(h) && !event.Dispatch? && !event.OpenPullRequest?
    ensures Unmarked(Happen(h, event, window))
    ensures Happen(h, event, window).notes == h.notes || Happen(h, event, window).notes == h.notes + [Overwritten]
  {
  }

  lemma {:induction false} NothingIsGivenUp(h: History, more: seq<Event>, window: Time)
    requires AllSound(h) && Possible(more) && NoMark(more) && Unmarked(h)
    ensures var h' := PlayFrom(h, more, window);
            && Unmarked(h') && |h.notes| <= |h'.notes|
            && (forall i :: |h.notes| <= i < |h'.notes| ==> !IsGiveUp(h'.notes[i]))
  {
    if more != [] {
      var n := |more| - 1;
      assert forall i :: 0 <= i < n ==> more[..n][i] == more[i];
      NothingIsGivenUp(h, more[..n], window);
      StaysUnmarked(PlayFrom(h, more[..n], window), more[n], window);
    }
  }

  /** An Align now is dispatched, a sweep reads the record, the run reports, the sweep writes its copy back. */
  lemma ReportIsPutBack(dispatched: Time, author: string, window: Time)
    requires dispatched != ZERO
    ensures var events := [Dispatch(dispatched, author), SweepReads, Report, SweepWrites];
            var run := PendingRun(dispatched, author, "dispatched", None, None, None);
            Possible(events)
            && Play(events, window) == History(ExpectRun(run), None, [Marked, Reported, PutBack(false)])
  {
    var e1 := Dispatch(dispatched, author);
    PlayAppend(START, [], e1, window);
    PlayAppend(START, [e1], SweepReads, window);
    PlayAppend(START, [e1, SweepReads], Report, window);
    PlayAppend(START, [e1, SweepReads, Report], SweepWrites, window);
    assert [] + [e1] == [e1] && [e1] + [SweepReads] == [e1, SweepReads];
    assert [e1, SweepReads] + [Report] == [e1, SweepReads, Report];
    assert [e1, SweepReads, Report] + [SweepWrites] == [e1, SweepReads, Report, SweepWrites];
  }

  /** Then the window runs out on the run that reported. */
  lemma ReportedRunIsGivenUp(dispatched: Time, author: string, window: Time)
    requires dispatched != ZERO
    ensures var events := [Dispatch(dispatched, author), SweepReads, Report, SweepWrites,
                           Event.Expire(dispatched + window, Unread, true, true)];
            Possible(events)
            && Play(events, window).notes
               == [Marked, Reported, PutBack(false), TimedOut(dispatched, dispatched + window)]
  {
    var before := [Dispatch(dispatched, author), SweepReads, Report, SweepWrites];
    var expire := Event.Expire(dispatched + window, Unread, true, true);
    ReportIsPutBack(dispatched, author, window);
    PlayAppend(START, before, expire, window);
    assert before + [expire] == [before[0], SweepReads, Report, SweepWrites, expire];
  }

  /** A mark replaces whatever was expected or missing; a report answers it, and nothing is expected or missing. */
  lemma MarksAndReports(h: History, now: Time, author: string, kind: string, number: nat, window: Time)
    requires Readable(h.setup)
    ensures Happen(h, Dispatch(now, author), window).setup
         == Setup(Some(PendingRun(now, author, "dispatched", None, None, None)), None)
    ensures Happen(h, OpenPullRequest(now, author, kind, number), window).setup
         == Setup(Some(PendingRun(now, author, kind, Some(number), None, None)), None)
    ensures Happen(h, Report, window).setup == Setup(None, None)
    ensures h.setup.pending.Some? ==> Happen(h, Report, window).notes == h.notes + [Reported]
  {
  }

  /** A completed run without a report gives the mark up exactly when it is the mark's own and the store takes it; what
      is missing then is that run, with the merge the pull request carries by now. Otherwise nothing changes. */
  lemma UnreportedExactly(s: Setup, now: Time, run: CompletedRun, pr: PullRequestRead, puts: bool)
    requires Sound(s) && s.pending.Some?
    ensures var p := s.pending.value;
            var own := if p.pullRequest.None?
                       then run.event == "workflow_dispatch" && run.created + DISPATCH_SLACK >= p.dispatchedAt
                       else run.event == "push" && pr.MergedPR? && pr.sha == run.headSHA != "";
            var merged := if p.pullRequest.Some? && p.mergedAt.None? && pr.MergedPR?
                          then p.(mergedAt := Some(pr.at)) else p;
            Unreported(s, now, run, pr, puts)
            == if own && puts then Setup(None, Some(MissingRun(merged, now, run.url, run.conclusion))) else s
  {
  }

  /** A run ends a mark without a report exactly when it is the mark's own: an Align now's dispatched at most the slack
      before its mark, a pull request's push of its merge commit. */
  lemma OnlyTheMarksOwnRunFailsIt(s: Setup, now: Time, run: CompletedRun, pr: PullRequestRead)
    requires Sound(s) && s.pending.Some?
    ensures Unreported(s, now, run, pr, true).pending.None? <==>
              var p := s.pending.value;
              if p.pullRequest.None? then run.event == "workflow_dispatch" &&
                  run.created + DISPATCH_SLACK >= p.dispatchedAt
              else run.event == "push" && pr.MergedPR? && pr.sha == run.headSHA != ""
    ensures Unreported(s, now, run, pr, true).missing.Some? && s.pending.value.pullRequest.Some? ==>
              Unreported(s, now, run, pr, true).missing.value.pending.mergedAt.Some?
  {
  }
}
