/**
The cursor of the reconciler poller and one poll's move of it: the loop over the listed runs
that fills `Consumed`, finds the oldest run still open and moves the watermark.
*/
module ReconcilerCursors {
  import opened Common

  datatype RunKey = RunKey(id: nat, attempt: nat)

  /** A workflow run as one listing shows it: its newest attempt. */
  datatype Run = Run(id: nat, attempt: nat, created: Time, completed: bool) {
    function Key(): RunKey {
      RunKey(id, attempt)
    }
  }

  /** The stored cursor: a value, copied in and out of the store. */
  datatype Cursor = Cursor(watermark: Time, consumed: map<RunKey, Time>, polledAt: Time)

  /** The cursor of a store that has none. */
  const NO_CURSOR := Cursor(ZERO, map[], ZERO)

  /** The bound of a poll's listing: the watermark, raised to the lookback's floor. */
  function Since(watermark: Time, now: Time, lookback: Time): Time {
    if watermark + lookback < now then now - lookback else watermark
  }

  /** What GitHub's listing keeps: a creation time on every run, and the same one on every
      appearance of a run id. A page that shifts while it is read may repeat a run. */
  predicate WellListed(runs: seq<Run>) {
    && (forall i :: 0 <= i < |runs| ==> runs[i].created != ZERO)
    && (forall i, j :: 0 <= i < |runs| && 0 <= j < |runs| && runs[i].id == runs[j].id ==>
        runs[i].created == runs[j].created)
  }

  /** Run i is read through: completed, and every artifact of it consumed. */
  predicate Through(runs: seq<Run>, answers: seq<bool>, i: int)
    requires |answers| == |runs|
  {
    0 <= i < |runs| && runs[i].completed && answers[i]
  }

  /** The poll read through an appearance of key among the first n runs. */
  ghost predicate ThroughKey(runs: seq<Run>, answers: seq<bool>, n: nat, key: RunKey)
    requires |answers| == |runs|
  {
    exists i :: 0 <= i < n && Through(runs, answers, i) && runs[i].Key() == key
  }

  /** Run i keeps the watermark: not consumed before, and not read through by this poll. */
  ghost predicate Open(consumed: map<RunKey, Time>, runs: seq<Run>, answers: seq<bool>, i: int)
    requires |answers| == |runs|
  {
    && 0 <= i < |runs|
    && runs[i].Key() !in consumed
    && !ThroughKey(runs, answers, i + 1, runs[i].Key())
  }

  /**
  What one poll makes of a cursor, said without the loop: the watermark stands at the oldest open run,
  or without one at the newest listed; `consumed` gains exactly the runs read through and keeps only
  what is not older than the watermark.
  */
  ghost predicate Polled(cur: Cursor, now: Time, lookback: Time, runs: seq<Run>, answers: seq<bool>, next: Cursor) {
    && |answers| == |runs|
    && next.polledAt == now
    && WatermarkMoved(cur, now, lookback, runs, answers, next.watermark)
    && ConsumedKept(cur, runs, answers, next)
  }

  ghost predicate WatermarkMoved(cur: Cursor, now: Time, lookback: Time, runs: seq<Run>, answers: seq<bool>, w: Time)
    requires |answers| == |runs|
  {
    && (forall i :: Open(cur.consumed, runs, answers, i) ==> w <= runs[i].created)
    && ((exists i :: Open(cur.consumed, runs, answers, i) && w == runs[i].created)
        || ((forall i :: !Open(cur.consumed, runs, answers, i))
            && IsNewest(Since(cur.watermark, now, lookback), runs, w)))
  }

  ghost predicate ConsumedKept(cur: Cursor, runs: seq<Run>, answers: seq<bool>, next: Cursor)
    requires |answers| == |runs|
  {
    && (forall key :: key in next.consumed ==>
          next.consumed[key] >= next.watermark && ConsumedAt(cur.consumed, runs, answers, key, next.consumed[key]))
    && (forall key, t: Time :: ConsumedAt(cur.consumed, runs, answers, key, t) && t >= next.watermark ==>
          key in next.consumed && next.consumed[key] == t)
  }

  /** w is the latest of the bound and the listed creation times. */
  ghost predicate IsNewest(since: Time, runs: seq<Run>, w: Time) {
    && since <= w
    && (forall i :: 0 <= i < |runs| ==> runs[i].created <= w)
    && (w == since || exists i :: 0 <= i < |runs| && runs[i].created == w)
  }

  /** key is consumed, by an earlier poll or by this one, on a run created at t. */
  ghost predicate ConsumedAt(consumed: map<RunKey, Time>, runs: seq<Run>, answers: seq<bool>, key: RunKey, t: Time)
    requires |answers| == |runs|
  {
    if key in consumed then consumed[key] == t
    else exists i :: 0 <= i < |runs| && Through(runs, answers, i) && runs[i].Key() == key && runs[i].created == t
  }

  /** The cursor a poll holds while it works on it. */
  class CursorCell {
    var watermark: Time
    var consumed: map<RunKey, Time>
    var polledAt: Time

    constructor (cur: Cursor)
      ensures Value() == cur
    {
      watermark, consumed, polledAt := cur.watermark, cur.consumed, cur.polledAt;
    }

    function Value(): Cursor
      reads this
    {
      Cursor(watermark, consumed, polledAt)
    }

    /** One poll over the runs listed since the bound; answers[i] is what consumeRun answered for run i
        (false when the run was not asked). */
    method Poll(now: Time, lookback: Time, runs: seq<Run>, answers: seq<bool>)
      requires |answers| == |runs| && WellListed(runs)
      modifies this
      ensures Polled(old(Value()), now, lookback, runs, answers, Value())
    {
      ghost var cur := Value();
      if watermark + lookback < now {
        watermark := now - lookback;
      }
      var newest, hold := ConsumeRuns(runs, answers);
      ghost var reached := consumed;
      if hold != ZERO {
        watermark := hold;
      } else if watermark < newest {
        watermark := newest;
      }
      Drop();
      polledAt := now;
      ghost var next := Value();
      assert Polled(cur, now, lookback, runs, answers, next) by {
        PolledFromLoop(cur, now, lookback, runs, answers, newest, hold, reached, next);
      }
    }

    /** The loop over the listing: the runs read through join `consumed`; newest is the newest creation
        time listed and hold the oldest still open, both the zero time without one. */
    method ConsumeRuns(runs: seq<Run>, answers: seq<bool>) returns (newest: Time, hold: Time)
      requires |answers| == |runs| && WellListed(runs)
      modifies this`consumed
      ensures forall k :: 0 <= k < |runs| ==> runs[k].created <= newest
      ensures newest == ZERO || exists k :: 0 <= k < |runs| && runs[k].created == newest
      ensures forall k :: Open(old(consumed), runs, answers, k) ==> hold != ZERO && hold <= runs[k].created
      ensures hold == ZERO || exists k :: Open(old(consumed), runs, answers, k) && runs[k].created == hold
      ensures forall key :: key in consumed <==> key in old(consumed) || ThroughKey(runs, answers, |runs|, key)
      ensures forall key :: key in consumed ==> ConsumedAt(old(consumed), runs, answers, key, consumed[key])
    {
      ghost var before := consumed;
      newest, hold := ZERO, ZERO;
      for i := 0 to |runs|
        invariant forall k :: 0 <= k < i ==> runs[k].created <= newest
        invariant newest == ZERO || exists k :: 0 <= k < i && runs[k].created == newest
        invariant forall key :: key in consumed <==> key in before || ThroughKey(runs, answers, i, key)
        invariant forall key :: key in consumed ==> ConsumedAt(before, runs, answers, key, consumed[key])
        invariant forall k :: 0 <= k < i && Open(before, runs, answers, k) ==> hold != ZERO && hold <= runs[k].created
        invariant hold == ZERO || exists k :: 0 <= k < i && Open(before, runs, answers, k) && runs[k].created == hold
      {
        var run := runs[i];
        if newest < run.created {
          newest := run.created;
        }
        ThroughOneMore(runs, answers, i);
        if run.Key() !in consumed {
          var open := !(run.completed && answers[i]);
          if !open {
            assert Through(runs, answers, i);
            consumed := consumed[run.Key() := run.created];
          } else {
            assert Open(before, runs, answers, i);
            if hold == ZERO || run.created < hold {
              hold := run.created;
            }
          }
        }
      }
    }

    /** Entries older than the watermark leave the cursor. */
    method Drop()
      modifies this`consumed
      ensures consumed == map key | key in old(consumed) && old(consumed)[key] >= watermark :: old(consumed)[key]
    {
      var keys := consumed.Keys;
      while keys != {}
        invariant keys <= consumed.Keys <= old(consumed).Keys
        invariant forall key :: key in consumed ==> consumed[key] == old(consumed)[key]
        invariant forall key :: key in old(consumed) && key !in keys ==>
            (key in consumed <==> old(consumed)[key] >= watermark)
        decreases |keys|
      {
        var key :| key in keys;
        keys := keys - {key};
        if consumed[key] < watermark {
          consumed := consumed - {key};
        }
      }
    }
  }

  lemma ThroughOneMore(runs: seq<Run>, answers: seq<bool>, n: nat)
    requires |answers| == |runs| && n < |runs|
    ensures forall key :: ThroughKey(runs, answers, n + 1, key) <==>
              ThroughKey(runs, answers, n, key) || (Through(runs, answers, n) && runs[n].Key() == key)
  {
    forall key
      ensures ThroughKey(runs, answers, n + 1, key) <==>
              ThroughKey(runs, answers, n, key) || (Through(runs, answers, n) && runs[n].Key() == key)
    {
      if ThroughKey(runs, answers, n, key) {
        var i :| 0 <= i < n && Through(runs, answers, i) && runs[i].Key() == key;
        assert 0 <= i < n + 1;
      }
    }
  }

  /** In a listing that shows a run with one creation time, a key is consumed at one time only. */
  lemma ConsumedOnce(before: map<RunKey, Time>, runs: seq<Run>, answers: seq<bool>, reached: map<RunKey, Time>)
    requires |answers| == |runs| && WellListed(runs)
    requires forall key :: key in reached <==> key in before || ThroughKey(runs, answers, |runs|, key)
    requires forall key :: key in reached ==> ConsumedAt(before, runs, answers, key, reached[key])
    ensures forall key, t: Time :: ConsumedAt(before, runs, answers, key, t) ==> key in reached && reached[key] == t
  {
    forall key, t: Time | ConsumedAt(before, runs, answers, key, t)
      ensures key in reached && reached[key] == t
    {
      if key !in before {
        var i :| 0 <= i < |runs| && Through(runs, answers, i) && runs[i].Key() == key && runs[i].created == t;
        assert ThroughKey(runs, answers, |runs|, key);
        var j :| 0 <= j < |runs| && Through(runs, answers, j) && runs[j].Key() == key &&
            runs[j].created == reached[key];
        assert runs[i].id == runs[j].id;
      }
    }
  }

  /** What the loop found, the watermark's move and the dropped entries together are one poll's outcome. */
  lemma PolledFromLoop(cur: Cursor, now: Time, lookback: Time, runs: seq<Run>, answers: seq<bool>,
                       newest: Time, hold: Time, reached: map<RunKey, Time>, next: Cursor)
    requires |answers| == |runs| && WellListed(runs)
    requires forall k :: 0 <= k < |runs| ==> runs[k].created <= newest
    requires newest == ZERO || exists k :: 0 <= k < |runs| && runs[k].created == newest
    requires forall k :: Open(cur.consumed, runs, answers, k) ==> hold != ZERO && hold <= runs[k].created
    requires hold == ZERO || exists k :: Open(cur.consumed, runs, answers, k) && runs[k].created == hold
    requires forall key :: key in reached <==> key in cur.consumed || ThroughKey(runs, answers, |runs|, key)
    requires forall key :: key in reached ==> ConsumedAt(cur.consumed, runs, answers, key, reached[key])
    requires next.watermark == if hold != ZERO then hold else Max(Since(cur.watermark, now, lookback), newest)
    requires next.consumed == map key | key in reached && reached[key] >= next.watermark :: reached[key]
    requires next.polledAt == now
    ensures Polled(cur, now, lookback, runs, answers, next)
  {
    ConsumedOnce(cur.consumed, runs, answers, reached);
    if hold == ZERO {
      assert IsNewest(Since(cur.watermark, now, lookback), runs, next.watermark);
    }
  }

  /** The declarative description leaves no choice: one poll has one outcome. */
  lemma {:induction false} PolledIsUnique(cur: Cursor, now: Time, lookback: Time, runs: seq<Run>, answers: seq<bool>,
      a: Cursor, b: Cursor)
    requires Polled(cur, now, lookback, runs, answers, a) && Polled(cur, now, lookback, runs, answers, b)
    ensures a == b
  {
    assert a.watermark == b.watermark;
    assert forall key :: key in a.consumed ==> key in b.consumed && b.consumed[key] == a.consumed[key];
    assert forall key :: key in b.consumed ==> key in a.consumed && a.consumed[key] == b.consumed[key];
    assert a.consumed == b.consumed;
  }

  /** The watermark never moves back, and never stays behind the lookback: a listing shows nothing older than either. */
  lemma WatermarkAdvances(cur: Cursor, now: Time, lookback: Time, runs: seq<Run>, answers: seq<bool>, next: Cursor)
    requires Polled(cur, now, lookback, runs, answers, next)
    requires forall i :: 0 <= i < |runs| ==> runs[i].created >= cur.watermark && runs[i].created + lookback >= now
    ensures cur.watermark <= next.watermark && now <= next.watermark + lookback
  {
  }
}
