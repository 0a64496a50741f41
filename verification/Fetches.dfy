/**
The sweep's two fetch loops: batches and pages that shrink when GitHub cannot answer, and lose nothing by it.
*/
module Fetches {
  import opened Common

  /** What one query meets: answered, answered with the budget below its floor, or not answered. */
  datatype Answer = Answered | AnsweredAtFloor | NotAnswered

  datatype FetchError = NoError | AtFloor | Unanswered

  /** The environment of a fetch, query by query: what it answers, and whether the context still lives. */
  datatype GitHub = GitHub(answer: nat -> Answer, alive: nat -> bool)

  const MIN_BATCH := 3
  const MIN_PAGE := 5

  /** Half, but not below the least. */
  function Halved(size: nat, least: nat): (r: nat)
    ensures least < size && 0 < least ==> 0 < r < size && r >= least
  {
    if size / 2 < least then least else size / 2
  }

  /** The size of query q: every query before it that was not answered halved it, until it was the least. */
  function SizeAt(size: nat, least: nat, gh: GitHub, q: nat): nat {
    if q == 0 then size
    else
      var before := SizeAt(size, least, gh, q - 1);
      if gh.answer(q - 1) == NotAnswered && before > least then Halved(before, least) else before
  }

  /** A fetch gives up on query q alone: it was not answered though it was the least, or the context was over. */
  predicate GivesUpAt(size: nat, least: nat, gh: GitHub, q: nat) {
    gh.answer(q) == NotAnswered && (SizeAt(size, least, gh, q) <= least || !gh.alive(q))
  }

  /** The queries before q were answered with the budget above its floor, or not answered and tried again smaller. */
  predicate GoesOnTo(size: nat, least: nat, gh: GitHub, q: nat) {
    forall k :: 0 <= k < q ==> gh.answer(k) != AnsweredAtFloor && !GivesUpAt(size, least, gh, k)
  }

  /** The fetch is about to ask query q at this size. */
  predicate AsksAt(size: nat, least: nat, gh: GitHub, q: nat, now: nat) {
    now == SizeAt(size, least, gh, q) && GoesOnTo(size, least, gh, q)
  }

  lemma AsksSmaller(size: nat, least: nat, gh: GitHub, q: nat, now: nat)
    requires AsksAt(size, least, gh, q, now) && gh.answer(q) == NotAnswered && now > least && gh.alive(q)
    ensures AsksAt(size, least, gh, q + 1, Halved(now, least))
  {
  }

  lemma AsksOn(size: nat, least: nat, gh: GitHub, q: nat, now: nat)
    requires AsksAt(size, least, gh, q, now) && gh.answer(q) == Answered
    ensures AsksAt(size, least, gh, q + 1, now)
  {
  }

  lemma GivesUp(size: nat, least: nat, gh: GitHub, q: nat, now: nat)
    requires AsksAt(size, least, gh, q, now) && gh.answer(q) == NotAnswered && !(now > least && gh.alive(q))
    ensures Ended(size, least, gh, Unanswered)
  {
    assert EndsBecause(size, least, gh, q, Unanswered);
  }

  lemma Ends(size: nat, least: nat, gh: GitHub, q: nat, now: nat)
    requires AsksAt(size, least, gh, q, now)
    ensures Ended(size, least, gh, NoError)
    ensures gh.answer(q) == AnsweredAtFloor ==> Ended(size, least, gh, AtFloor)
  {
    assert EndsBecause(size, least, gh, q, NoError);
    assert gh.answer(q) == AnsweredAtFloor ==> EndsBecause(size, least, gh, q, AtFloor);
  }

  /** Why a fetch ended: an unanswered query it could make no smaller, the budget's floor, or neither. */
  ghost predicate EndsBecause(size: nat, least: nat, gh: GitHub, q: nat, error: FetchError) {
    && GoesOnTo(size, least, gh, q)
    && (error == Unanswered ==> GivesUpAt(size, least, gh, q))
    && (error == AtFloor ==> gh.answer(q) == AnsweredAtFloor)
  }

  ghost predicate Ended(size: nat, least: nat, gh: GitHub, error: FetchError) {
    exists q :: EndsBecause(size, least, gh, q, error)
  }

  /** The histories of names that have one, as GitHub has them. */
  type Histories = string -> Option<int>

  /** The names' histories are attached, and nothing else. */
  ghost predicate Attached(names: seq<string>, histories: Histories, attached: map<string, int>) {
    && (forall n :: n in names && histories(n).Some? ==> n in attached)
    && (forall n :: n in attached ==> n in names && histories(n) == Some(attached[n]))
  }

  /** The batches answered so far: the names are asked and left, in order, and the asked ones' histories attached. */
  ghost predicate Fetched(names: seq<string>, histories: Histories, asked: seq<string>, left: seq<string>,
                          attached: map<string, int>)
  {
    asked + left == names && Attached(asked, histories, attached)
  }

  lemma FetchedOn(names: seq<string>, histories: Histories, asked: seq<string>, left: seq<string>, n: nat,
                  attached: map<string, int>)
    requires asked + left == names && n <= |left| && Attached(asked + left[..n], histories, attached)
    ensures Fetched(names, histories, asked + left[..n], left[n..], attached)
  {
    assert left[..n] + left[n..] == left;
  }

  lemma FetchedSo(names: seq<string>, histories: Histories, asked: seq<string>, left: seq<string>,
                  attached: map<string, int>)
    requires Fetched(names, histories, asked, left, attached)
    ensures asked <= names && (left == [] ==> asked == names)
    ensures forall n :: n in attached ==> n in names && histories(n) == Some(attached[n])
  {
    assert names[..|asked|] == asked;
  }

  /** Reads the histories of names in batches. asked is the names of the answered batches, in order: without an error
      every name was in exactly one, whatever halvings happened. */
  method FetchHistories(names: seq<string>, batchSize: nat, histories: Histories, gh: GitHub)
    returns (attached: map<string, int>, error: FetchError, ghost asked: seq<string>)
    requires batchSize > 0
    ensures Ended(batchSize, MIN_BATCH, gh, error)
    ensures asked <= names && Attached(asked, histories, attached)
    ensures error == NoError ==> asked == names && Attached(names, histories, attached)
    ensures forall n :: n in attached ==> n in names && histories(n) == Some(attached[n])
    ensures error == AtFloor ==> asked != []
  {
    var left, batch, query := names, batchSize, 0;
    attached, asked := map[], [];
    while |left| > 0
      invariant Fetched(names, histories, asked, left, attached) && batch > 0
      invariant AsksAt(batchSize, MIN_BATCH, gh, query, batch)
      decreases |left|, batch
    {
      var n := if batch < |left| then batch else |left|;
      var chunk := left[..n];
      var answer, alive := gh.answer(query), gh.alive(query);
      ghost var q := query;
      query := query + 1;
      if answer == NotAnswered {
        if batch > MIN_BATCH && alive {
          AsksSmaller(batchSize, MIN_BATCH, gh, q, batch);
          batch := Halved(batch, MIN_BATCH);
          continue;
        }
        GivesUp(batchSize, MIN_BATCH, gh, q, batch);
        FetchedSo(names, histories, asked, left, attached);
        return attached, Unanswered, asked;
      }
      attached := AttachNext(chunk, histories, attached, asked);
      FetchedOn(names, histories, asked, left, n, attached);
      asked := asked + chunk;
      Ends(batchSize, MIN_BATCH, gh, q, batch);
      if answer == AnsweredAtFloor {
        FetchedSo(names, histories, asked, left[n..], attached);
        return attached, AtFloor, asked;
      }
      AsksOn(batchSize, MIN_BATCH, gh, q, batch);
      left := left[n..];
    }
    Ends(batchSize, MIN_BATCH, gh, query, batch);
    FetchedSo(names, histories, asked, left, attached);
    return attached, NoError, asked;
  }

  /** The answered batch attached, after the ones before it. */
  method AttachNext(chunk: seq<string>, histories: Histories, before: map<string, int>, ghost asked: seq<string>)
    returns (attached: map<string, int>)
    requires Attached(asked, histories, before)
    ensures Attached(asked + chunk, histories, attached)
  {
    attached := Attach(chunk, histories, before);
    assert forall n :: n in asked + chunk <==> n in asked || n in chunk;
  }

  method Attach(chunk: seq<string>, histories: Histories, before: map<string, int>) returns (attached: map<string, int>)
    ensures forall n :: n in attached <==> n in before || (n in chunk && histories(n).Some?)
    ensures forall n :: n in attached ==>
        attached[n] == if n in chunk && histories(n).Some? then histories(n).value else before[n]
  {
    attached := before;
    for i := 0 to |chunk|
      invariant forall n :: n in attached <==> n in before || (n in chunk[..i] && histories(n).Some?)
      invariant forall n :: n in attached ==>
                  attached[n] == if n in chunk[..i] && histories(n).Some? then histories(n).value else before[n]
    {
      assert chunk[..i + 1] == chunk[..i] + [chunk[i]];
      if histories(chunk[i]).Some? {
        attached := attached[chunk[i] := histories(chunk[i]).value];
      }
    }
    assert chunk[..|chunk|] == chunk;
  }

  /** The org's repositories in listing order; None is one GitHub lists without showing. */
  type Listing = seq<Option<string>>

  function Shown(listing: Listing): set<string> {
    set i | 0 <= i < |listing| && listing[i].Some? :: listing[i].value
  }

  /** Pages the listing. Without an error every repository shown is read, whatever the page sizes; pages is what was
      read page by page, a prefix of the listing without a gap or a repetition. */
  method FetchRepositories(listing: Listing, pageSize: nat, gh: GitHub)
    returns (nodes: set<string>, error: FetchError, ghost read: nat)
    requires pageSize > 0
    ensures Ended(pageSize, MIN_PAGE, gh, error)
    ensures read <= |listing| && (error != Unanswered ==> nodes == Shown(listing[..read]))
    ensures error == Unanswered ==> nodes == {}
    ensures error == NoError ==> read == |listing| && nodes == Shown(listing)
    ensures error == AtFloor && listing != [] ==> read > 0
  {
    var first, after, query := pageSize, 0, 0;
    nodes, read := {}, 0;
    while true
      invariant after == read <= |listing| && first > 0
      invariant AsksAt(pageSize, MIN_PAGE, gh, query, first)
      invariant nodes == Shown(listing[..after])
      decreases |listing| - after, first
    {
      var answer, alive := gh.answer(query), gh.alive(query);
      ghost var q := query;
      query := query + 1;
      if answer == NotAnswered {
        if first > MIN_PAGE && alive {
          AsksSmaller(pageSize, MIN_PAGE, gh, q, first);
          first := Halved(first, MIN_PAGE);
          continue;
        }
        GivesUp(pageSize, MIN_PAGE, gh, q, first);
        return {}, Unanswered, read;
      }
      var end := if after + first < |listing| then after + first else |listing|;
      nodes := nodes + Shown(listing[after..end]);
      ShownAppends(listing, after, end);
      read := end;
      Ends(pageSize, MIN_PAGE, gh, q, first);
      if answer == AnsweredAtFloor {
        return nodes, AtFloor, read;
      }
      if end == |listing| {
        assert listing[..end] == listing;
        return nodes, NoError, read;
      }
      AsksOn(pageSize, MIN_PAGE, gh, q, first);
      after := end;
    }
  }

  lemma ShownAppends(listing: Listing, after: nat, end: nat)
    requires after <= end <= |listing|
    ensures Shown(listing[..end]) == Shown(listing[..after]) + Shown(listing[after..end])
  {
    var whole, front, page := listing[..end], listing[..after], listing[after..end];
    assert whole == front + page;
    forall n | n in Shown(front) + Shown(page)
      ensures n in Shown(whole)
    {
      if n in Shown(front) {
        var i :| 0 <= i < |front| && front[i].Some? && front[i].value == n;
        assert whole[i] == front[i];
      } else {
        var i :| 0 <= i < |page| && page[i].Some? && page[i].value == n;
        assert whole[after + i] == page[i];
      }
    }
    forall n | n in Shown(whole)
      ensures n in Shown(front) + Shown(page)
    {
      var i :| 0 <= i < |whole| && whole[i].Some? && whole[i].value == n;
      if i < after {
        assert front[i] == whole[i];
      } else {
        assert page[i - after] == whole[i];
      }
    }
  }
}
