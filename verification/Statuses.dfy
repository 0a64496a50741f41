/**
The release verdict read from the tag commit's statuses. A status is per commit and names a job, not a pipeline;
the attribution is held against a ground truth in which every status has the pipeline that posted it.
*/
module Statuses {
  import opened Common
  import opened CIJobs

  /** GitHub's states of one status, and the record's words for a set of them. */
  datatype NodeState = FAILURE | ERROR | PENDING | EXPECTED | SUCCESS

  datatype Node = Node(context: string, state: NodeState, createdAt: Time)

  /** A commit's `ci/circleci:` statuses as the record keeps them; state is the worst of them. */
  datatype HeadStatus = HeadStatus(state: NodeState, contexts: seq<string>, failed: seq<string>, pending: seq<string>,
      at: Time)

  function Rank(s: NodeState): nat {
    match s
    case FAILURE => 0
    case ERROR => 1
    case PENDING => 2
    case EXPECTED => 3
    case SUCCESS => 4
  }

  predicate AnyState(s: NodeState) {
    true
  }

  predicate IsFailed(s: NodeState) {
    s == FAILURE || s == ERROR
  }

  predicate IsPending(s: NodeState) {
    s == PENDING || s == EXPECTED
  }

  /** The contexts of CircleCI's statuses among the first n that satisfy keep, in order. */
  function Contexts(nodes: seq<Node>, keep: NodeState -> bool): seq<string> {
    if nodes == [] then []
    else Contexts(nodes[..|nodes| - 1], keep) +
         (var n := nodes[|nodes| - 1]; if CIRCLECI_CONTEXT <= n.context && keep(n.state) then [n.context] else [])
  }

  predicate IsCircleCI(n: Node) {
    CIRCLECI_CONTEXT <= n.context
  }

  /** The worst state of CircleCI's statuses: one has it, and none is worse. */
  ghost predicate IsWorst(nodes: seq<Node>, worst: NodeState) {
    && (exists i :: 0 <= i < |nodes| && IsCircleCI(nodes[i]) && nodes[i].state == worst)
    && (forall i :: 0 <= i < |nodes| && IsCircleCI(nodes[i]) ==> Rank(worst) <= Rank(nodes[i].state))
  }

  /** The newest time of CircleCI's statuses. */
  ghost predicate IsNewest(nodes: seq<Node>, at: Time) {
    && (exists i :: 0 <= i < |nodes| && IsCircleCI(nodes[i]) && nodes[i].createdAt == at)
    && (forall i :: 0 <= i < |nodes| && IsCircleCI(nodes[i]) ==> nodes[i].createdAt <= at)
  }

  /** Nothing is known before the first status of CircleCI's; then the worst state and the newest time are. */
  ghost predicate Summed(nodes: seq<Node>, worst: Option<NodeState>, at: Time) {
    if Contexts(nodes, AnyState) == [] then worst.None? && at == ZERO
    else worst.Some? && IsWorst(nodes, worst.value) && IsNewest(nodes, at)
  }

  lemma {:induction false} NoContext(nodes: seq<Node>)
    requires Contexts(nodes, AnyState) == []
    ensures forall i :: 0 <= i < |nodes| ==> !IsCircleCI(nodes[i])
  {
    if nodes != [] {
      NoContext(nodes[..|nodes| - 1]);
    }
  }

  lemma AnotherWorst(nodes: seq<Node>, n: Node, worst: NodeState)
    requires IsWorst(nodes, worst)
    ensures IsWorst(nodes + [n], if IsCircleCI(n) && Rank(n.state) < Rank(worst) then n.state else worst)
  {
    var after := nodes + [n];
    var i :| 0 <= i < |nodes| && IsCircleCI(nodes[i]) && nodes[i].state == worst;
    assert after[i] == nodes[i] && after[|nodes|] == n;
  }

  lemma AnotherNewest(nodes: seq<Node>, n: Node, at: Time)
    requires IsNewest(nodes, at)
    ensures IsNewest(nodes + [n], if IsCircleCI(n) && at < n.createdAt then n.createdAt else at)
  {
    var after := nodes + [n];
    var i :| 0 <= i < |nodes| && IsCircleCI(nodes[i]) && nodes[i].createdAt == at;
    assert after[i] == nodes[i] && after[|nodes|] == n;
  }

  lemma SumsUp(nodes: seq<Node>, n: Node, worst: Option<NodeState>, at: Time)
    requires Summed(nodes, worst, at)
    ensures Summed(nodes + [n],
                   if IsCircleCI(n) && (worst.None? || Rank(n.state) < Rank(worst.value)) then Some(n.state) else worst,
                   if IsCircleCI(n) && at < n.createdAt then n.createdAt else at)
  {
    var after := nodes + [n];
    assert after[..|after| - 1] == nodes && after[|nodes|] == n;
    if worst.Some? {
      AnotherWorst(nodes, n, worst.value);
      AnotherNewest(nodes, n, at);
    } else if IsCircleCI(n) {
      NoContext(nodes);
    }
  }

  ghost predicate Listed(nodes: seq<Node>, contexts: seq<string>, failed: seq<string>, pending: seq<string>) {
    && contexts == Contexts(nodes, AnyState)
    && failed == Contexts(nodes, IsFailed)
    && pending == Contexts(nodes, IsPending)
  }

  lemma ListsUp(nodes: seq<Node>, n: Node, contexts: seq<string>, failed: seq<string>, pending: seq<string>)
    requires Listed(nodes, contexts, failed, pending)
    ensures !IsCircleCI(n) ==> Listed(nodes + [n], contexts, failed, pending)
    ensures IsCircleCI(n) ==> Listed(nodes + [n], contexts + [n.context],
                                     if IsFailed(n.state) then failed + [n.context] else failed,
                                     if IsPending(n.state) then pending + [n.context] else pending)
  {
    var after := nodes + [n];
    assert after[..|after| - 1] == nodes && after[|nodes|] == n;
  }

  // ----- the contexts in the order of their names

  predicate AtMost(a: string, b: string) {
    a == "" || (b != "" && (a[0] < b[0] || (a[0] == b[0] && AtMost(a[1..], b[1..]))))
  }

  predicate InOrder(list: seq<string>) {
    forall i, j :: 0 <= i < j < |list| ==> AtMost(list[i], list[j])
  }

  lemma {:induction false} OneIsAtMost(a: string, b: string)
    ensures AtMost(a, b) || AtMost(b, a)
  {
    if a != "" && b != "" && a[0] == b[0] {
      OneIsAtMost(a[1..], b[1..]);
    }
  }

  lemma {:induction false} AtMostChains(a: string, b: string, c: string)
    requires AtMost(a, b) && AtMost(b, c)
    ensures AtMost(a, c)
  {
    if a != "" && a[0] == b[0] == c[0] {
      AtMostChains(a[1..], b[1..], c[1..]);
    }
  }

  function Inserted(x: string, list: seq<string>): (r: seq<string>)
    ensures multiset(r) == multiset(list) + multiset{x} && |r| == |list| + 1
  {
    if list == [] then [x]
    else
      assert list == [list[0]] + list[1..];
      if AtMost(x, list[0]) then [x] + list else [list[0]] + Inserted(x, list[1..])
  }

  function Sorted(list: seq<string>): (r: seq<string>)
    ensures multiset(r) == multiset(list) && |r| == |list|
  {
    if list == [] then []
    else
      assert list == [list[0]] + list[1..];
      Inserted(list[0], Sorted(list[1..]))
  }

  predicate AtMostAll(x: string, list: seq<string>) {
    forall j :: 0 <= j < |list| ==> AtMost(x, list[j])
  }

  lemma Prepended(x: string, list: seq<string>)
    requires InOrder(list) && AtMostAll(x, list)
    ensures InOrder([x] + list)
  {
  }

  lemma FirstIsLeast(x: string, list: seq<string>)
    requires InOrder(list) && list != [] && AtMost(x, list[0])
    ensures AtMostAll(x, list)
  {
    forall j | 0 <= j < |list| ensures AtMost(x, list[j]) {
      if j > 0 {
        AtMostChains(x, list[0], list[j]);
      }
    }
  }

  lemma InsertedAbove(least: string, x: string, list: seq<string>)
    requires AtMost(least, x) && AtMostAll(least, list)
    ensures AtMostAll(least, Inserted(x, list))
  {
    var after := Inserted(x, list);
    forall j | 0 <= j < |after| ensures AtMost(least, after[j]) {
      assert after[j] in multiset(after);
      assert after[j] == x || after[j] in list;
    }
  }

  lemma {:induction false} InsertedInOrder(x: string, list: seq<string>)
    requires InOrder(list)
    ensures InOrder(Inserted(x, list))
  {
    if list != [] {
      OneIsAtMost(x, list[0]);
      if AtMost(x, list[0]) {
        FirstIsLeast(x, list);
        Prepended(x, list);
      } else {
        InsertedInOrder(x, list[1..]);
        InsertedAbove(list[0], x, list[1..]);
        Prepended(list[0], Inserted(x, list[1..]));
      }
    }
  }

  /** The sort permutes the names and puts them in order. */
  lemma {:induction false} SortedIsInOrder(list: seq<string>)
    ensures InOrder(Sorted(list)) && multiset(Sorted(list)) == multiset(list)
    ensures forall x :: x in Sorted(list) <==> x in list
  {
    if list != [] {
      SortedIsInOrder(list[1..]);
      InsertedInOrder(list[0], Sorted(list[1..]));
    }
    assert forall x :: x in Sorted(list) <==> x in multiset(Sorted(list));
  }

  /** What the record keeps of a commit's statuses: CircleCI's alone, their names in order. */
  ghost predicate IsRollup(nodes: seq<Node>, head: HeadStatus) {
    && head.contexts == Sorted(Contexts(nodes, AnyState))
    && head.failed == Sorted(Contexts(nodes, IsFailed))
    && head.pending == Sorted(Contexts(nodes, IsPending))
    && IsWorst(nodes, head.state)
    && IsNewest(nodes, head.at)
  }

  /** The loop over a commit's status rollup. */
  method RollupStatus(nodes: seq<Node>) returns (head: Option<HeadStatus>)
    ensures head.None? <==> Contexts(nodes, AnyState) == []
    ensures head.Some? ==> IsRollup(nodes, head.value)
  {
    var worst: Option<NodeState>, at: Time := None, ZERO;
    var contexts, failed, pending: seq<string> := [], [], [];
    for n := 0 to |nodes|
      invariant Listed(nodes[..n], contexts, failed, pending)
      invariant Summed(nodes[..n], worst, at)
    {
      var c := nodes[n];
      assert nodes[..n + 1] == nodes[..n] + [c];
      ListsUp(nodes[..n], c, contexts, failed, pending);
      SumsUp(nodes[..n], c, worst, at);
      if !IsCircleCI(c) {
        continue;
      }
      contexts := contexts + [c.context];
      match c.state {
        case FAILURE | ERROR => failed := failed + [c.context];
        case PENDING | EXPECTED => pending := pending + [c.context];
        case SUCCESS =>
      }
      assert Listed(nodes[..n + 1], contexts, failed, pending);
      if worst.None? || Rank(c.state) < Rank(worst.value) {
        worst := Some(c.state);
      }
      if at < c.createdAt {
        at := c.createdAt;
      }
    }
    assert nodes[..|nodes|] == nodes && Listed(nodes, contexts, failed, pending) && Summed(nodes, worst, at);
    if |contexts| == 0 {
      return None;
    }
    head := Some(HeadStatus(worst.value, Sorted(contexts), Sorted(failed), Sorted(pending), at));
  }

  // ----- reading the statuses against the declaration

  /** The uses of a job's name that the declaration has, filtered by runs. */
  predicate RunsAny(jobs: seq<CIJob>, name: string, runs: CIJob -> bool) {
    exists i :: 0 <= i < |jobs| && jobs[i].name == name && runs(jobs[i])
  }

  predicate Declares(jobs: seq<CIJob>, name: string) {
    exists i :: 0 <= i < |jobs| && jobs[i].name == name
  }

  /** The declaration names the context's job and never runs it on the ref. */
  predicate IsForeign(jobs: seq<CIJob>, context: string, runs: CIJob -> bool) {
    Declares(jobs, JobOf(context)) && !RunsAny(jobs, JobOf(context), runs)
  }

  function Filter(list: seq<string>, keep: string -> bool): (r: seq<string>)
    ensures forall x :: x in r <==> x in list && keep(x)
  {
    if list == [] then []
    else
      assert forall x :: x in list <==> x in list[..|list| - 1] || x == list[|list| - 1];
      Filter(list[..|list| - 1], keep) + if keep(list[|list| - 1]) then [list[|list| - 1]] else []
  }

  /** A commit's statuses divided by the declaration: the ref's own and the foreign ones; all own when none is. */
  function Split(contexts: seq<string>, jobs: seq<CIJob>, runs: CIJob -> bool): (seq<string>, seq<string>) {
    var own := Filter(contexts, c => !IsForeign(jobs, c, runs));
    if own == [] then (contexts, []) else (own, Filter(contexts, c => IsForeign(jobs, c, runs)))
  }

  lemma FilterStep(list: seq<string>, i: nat, keep: string -> bool)
    requires i < |list|
    ensures Filter(list[..i + 1], keep) == Filter(list[..i], keep) + if keep(list[i]) then [list[i]] else []
  {
    assert list[..i + 1][..i] == list[..i];
  }

  method SplitStatuses(contexts: seq<string>, jobs: seq<CIJob>, runs: CIJob -> bool)
      returns (own: seq<string>, foreign: seq<string>)
    ensures (own, foreign) == Split(contexts, jobs, runs)
  {
    own, foreign := [], [];
    ghost var isForeign := c => IsForeign(jobs, c, runs);
    ghost var isOwn := c => !IsForeign(jobs, c, runs);
    for i := 0 to |contexts|
      invariant own == Filter(contexts[..i], isOwn) && foreign == Filter(contexts[..i], isForeign)
    {
      FilterStep(contexts, i, isOwn);
      FilterStep(contexts, i, isForeign);
      if IsForeign(jobs, contexts[i], runs) {
        foreign := foreign + [contexts[i]];
      } else {
        own := own + [contexts[i]];
      }
    }
    assert contexts[..|contexts|] == contexts;
    if |own| == 0 {
      own, foreign := contexts, [];
    }
  }

  /** The failed and the pending contexts among own; a record from before the states were kept has only its state. */
  function StatesOf(s: HeadStatus, own: seq<string>): (seq<string>, seq<string>) {
    if s.failed == [] && s.pending == [] then
      if IsFailed(s.state) then (own, [])
      else if IsPending(s.state) then ([], own)
      else ([], [])
    else (Filter(s.failed, c => c in own), Filter(s.pending, c => c in own))
  }

  /** Some context's job runs on the tag and on no branch. */
  predicate AnyTagOnly(contexts: seq<string>, jobs: seq<CIJob>, tag: string, re: Regex) {
    exists i :: 0 <= i < |contexts| && IsTagOnly(jobs, JobOf(contexts[i]), tag, re)
  }

  predicate IsTagOnly(jobs: seq<CIJob>, name: string, tag: string, re: Regex) {
    && RunsAny(jobs, name, (j: CIJob) => j.RunsOnTag(tag, re))
    && !RunsAny(jobs, name, (j: CIJob) => j.RunsOnBranches())
  }

  datatype Verdict =
    | Red(jobs: seq<string>)
    | UncheckedTwoPipelines(jobs: seq<string>)
    | Running
    | UncheckedNotReported
    | Built

  /** The failed contexts among own that leave something of the release unpublished. */
  function Unpublished(b: HeadStatus, own: seq<string>, leaves: string -> bool): seq<string> {
    Filter(StatesOf(b, own).0, c => leaves(JobOf(c)))
  }

  /** The release step from the statuses alone. leaves is devctl's rule: whether a failed job leaves something of the
      release unpublished (all but the job that publishes the GitHub release). */
  function StatusesReleaseStep(tag: string, b: HeadStatus, jobs: seq<CIJob>, tagOnly: seq<string>, re: Regex,
      leaves: string -> bool): Verdict {
    var (own, foreign) := Split(b.contexts, jobs, (j: CIJob) => j.RunsOnTag(tag, re));
    var failed, pending := Unpublished(b, own, leaves), StatesOf(b, own).1;
    if failed != [] && foreign != [] && !AnyTagOnly(failed, jobs, tag, re) then UncheckedTwoPipelines(failed)
    else if failed != [] then Red(failed)
    else if pending != [] then Running
    else if tagOnly != [] && !Reported(own, tagOnly) then UncheckedNotReported
    else Built
  }

  // ----- what the verdict says, status by status

  /** The record kept the states of the contexts; an older one has the worst of them alone. */
  predicate ListsStates(b: HeadStatus) {
    b.failed != [] || b.pending != []
  }

  predicate ReadsFailed(b: HeadStatus, c: string) {
    if ListsStates(b) then c in b.failed else b.state == FAILURE || b.state == ERROR
  }

  predicate ReadsPending(b: HeadStatus, c: string) {
    if ListsStates(b) then c in b.pending else b.state == PENDING || b.state == EXPECTED
  }

  /** The declaration lets the ref post the context: it does not name the job, or runs it on the ref. */
  ghost predicate MayBeTags(jobs: seq<CIJob>, tag: string, re: Regex, c: string) {
    Declares(jobs, JobOf(c)) ==> exists i :: 0 <= i < |jobs| && jobs[i].name == JobOf(c) && jobs[i].RunsOnTag(tag, re)
  }

  /** Another pipeline's statuses are on the commit for certain, beside some that may be the tag's. */
  ghost predicate TwoPipelines(b: HeadStatus, jobs: seq<CIJob>, tag: string, re: Regex) {
    && (exists c :: c in b.contexts && MayBeTags(jobs, tag, re, c))
    && (exists c :: c in b.contexts && !MayBeTags(jobs, tag, re, c))
  }

  /** A status that is read: one that may be the tag's, and any where none may. */
  ghost predicate IsRead(b: HeadStatus, jobs: seq<CIJob>, tag: string, re: Regex, c: string) {
    c in b.contexts && (MayBeTags(jobs, tag, re, c) || forall d :: d in b.contexts ==> !MayBeTags(jobs, tag, re, d))
  }

  ghost predicate Fails(b: HeadStatus, jobs: seq<CIJob>, tag: string, re: Regex, leaves: string -> bool, c: string) {
    IsRead(b, jobs, tag, re, c) && ReadsFailed(b, c) && leaves(JobOf(c))
  }

  ghost predicate Waits(b: HeadStatus, jobs: seq<CIJob>, tag: string, re: Regex, c: string) {
    IsRead(b, jobs, tag, re, c) && ReadsPending(b, c)
  }

  ghost predicate SomeFails(b: HeadStatus, jobs: seq<CIJob>, tag: string, re: Regex, leaves: string -> bool) {
    exists c :: Fails(b, jobs, tag, re, leaves, c)
  }

  ghost predicate SomeWaits(b: HeadStatus, jobs: seq<CIJob>, tag: string, re: Regex) {
    exists c :: Waits(b, jobs, tag, re, c)
  }

  ghost predicate SomeFailsOnTagAlone(b: HeadStatus, jobs: seq<CIJob>, tag: string, re: Regex, leaves: string -> bool) {
    exists c :: Fails(b, jobs, tag, re, leaves, c) && IsTagOnly(jobs, JobOf(c), tag, re)
  }

  ghost predicate SomeReports(b: HeadStatus, jobs: seq<CIJob>, tag: string, re: Regex, names: seq<string>) {
    exists c :: IsRead(b, jobs, tag, re, c) && JobOf(c) in names
  }

  lemma OwnAreRead(b: HeadStatus, jobs: seq<CIJob>, tag: string, re: Regex, c: string)
    ensures var (own, foreign) := Split(b.contexts, jobs, (j: CIJob) => j.RunsOnTag(tag, re));
            && (c in own <==> IsRead(b, jobs, tag, re, c))
            && (foreign != [] <==> TwoPipelines(b, jobs, tag, re))
  {
    var runs := (j: CIJob) => j.RunsOnTag(tag, re);
    assert forall d :: IsForeign(jobs, d, runs) <==> !MayBeTags(jobs, tag, re, d);
    var own := Filter(b.contexts, d => !IsForeign(jobs, d, runs));
    var other := Filter(b.contexts, d => IsForeign(jobs, d, runs));
    assert own != [] ==> own[0] in own;
    assert other != [] ==> other[0] in other;
  }

  lemma StatesAreRead(b: HeadStatus, own: seq<string>, leaves: string -> bool, c: string)
    ensures c in Unpublished(b, own, leaves) <==> ReadsFailed(b, c) && c in own && leaves(JobOf(c))
    ensures c in StatesOf(b, own).1 <==> ReadsPending(b, c) && c in own
  {
  }

  lemma FailedOnTagAlone(b: HeadStatus, jobs: seq<CIJob>, tag: string, re: Regex, leaves: string -> bool,
                         failed: seq<string>)
    requires forall c :: c in failed <==> Fails(b, jobs, tag, re, leaves, c)
    ensures AnyTagOnly(failed, jobs, tag, re) <==> SomeFailsOnTagAlone(b, jobs, tag, re, leaves)
  {
    if AnyTagOnly(failed, jobs, tag, re) {
      var i :| 0 <= i < |failed| && IsTagOnly(jobs, JobOf(failed[i]), tag, re);
      assert failed[i] in failed;
    }
    if SomeFailsOnTagAlone(b, jobs, tag, re, leaves) {
      var c :| Fails(b, jobs, tag, re, leaves, c) && IsTagOnly(jobs, JobOf(c), tag, re);
      assert c in failed;
    }
  }

  lemma ReportedAreRead(b: HeadStatus, jobs: seq<CIJob>, tag: string, re: Regex, own: seq<string>, names: seq<string>)
    requires forall c :: c in own <==> IsRead(b, jobs, tag, re, c)
    ensures Reported(own, names) <==> SomeReports(b, jobs, tag, re, names)
  {
    if Reported(own, names) {
      var i, k :| 0 <= i < |own| && 0 <= k < |names| && JobOf(own[i]) == names[k];
      assert own[i] in own;
    }
    if SomeReports(b, jobs, tag, re, names) {
      var c :| IsRead(b, jobs, tag, re, c) && JobOf(c) in names;
      assert c in own;
    }
  }

  /** The verdict, exactly: a failure that leaves the release unpublished comes first, and is the tag's for certain
      where no other pipeline's status is on the commit or a job of the tag's alone failed; then a status still to come
      in; then the want of a report of the tag's own jobs. */
  lemma VerdictExactly(tag: string, b: HeadStatus, jobs: seq<CIJob>, tagOnly: seq<string>, re: Regex,
                       leaves: string -> bool)
    ensures var v := StatusesReleaseStep(tag, b, jobs, tagOnly, re, leaves);
            var fails, waits := SomeFails(b, jobs, tag, re, leaves), SomeWaits(b, jobs, tag, re);
            var certain := !TwoPipelines(b, jobs, tag, re) || SomeFailsOnTagAlone(b, jobs, tag, re, leaves);
            var silent := tagOnly != [] && !SomeReports(b, jobs, tag, re, tagOnly);
            && (v.Red? <==> fails && certain)
            && (v.UncheckedTwoPipelines? <==> fails && !certain)
            && (v.Running? <==> !fails && waits)
            && (v.UncheckedNotReported? <==> !fails && !waits && silent)
            && (v.Built? <==> !fails && !waits && !silent)
            && (v.Red? || v.UncheckedTwoPipelines? ==> forall c :: c in v.jobs <==> Fails(b, jobs, tag, re, leaves, c))
  {
    var (own, foreign) := Split(b.contexts, jobs, (j: CIJob) => j.RunsOnTag(tag, re));
    var failed, pending := Unpublished(b, own, leaves), StatesOf(b, own).1;
    forall c
      ensures c in own <==> IsRead(b, jobs, tag, re, c)
      ensures c in failed <==> Fails(b, jobs, tag, re, leaves, c)
      ensures c in pending <==> Waits(b, jobs, tag, re, c)
    {
      OwnAreRead(b, jobs, tag, re, c);
      StatesAreRead(b, own, leaves, c);
    }
    OwnAreRead(b, jobs, tag, re, "");
    assert failed != [] ==> failed[0] in failed;
    assert pending != [] ==> pending[0] in pending;
    FailedOnTagAlone(b, jobs, tag, re, leaves, failed);
    ReportedAreRead(b, jobs, tag, re, own, tagOnly);
  }

  // ----- the ground truth

  datatype Poster = TagPipeline | BranchPipeline(branch: string)

  /** Which pipeline posted the status the commit carries under each context. */
  type Posters = string -> Poster

  /** A pipeline posts the jobs the declaration runs on its ref, and jobs the declaration does not name. */
  ghost predicate MayPost(jobs: seq<CIJob>, name: string, tag: string, poster: Poster, re: Regex) {
    Declares(jobs, name) ==>
      match poster
      case TagPipeline => RunsAny(jobs, name, (j: CIJob) => j.RunsOnTag(tag, re))
      case BranchPipeline(branch) => branch != "" && RunsAny(jobs, name, (j: CIJob) => j.RunsOnBranch(branch, re))
  }

  ghost predicate Consistent(contexts: seq<string>, jobs: seq<CIJob>, tag: string, posters: Posters, re: Regex) {
    forall i :: 0 <= i < |contexts| ==> MayPost(jobs, JobOf(contexts[i]), tag, posters(contexts[i]), re)
  }

  /** The record was read with the states of its contexts. */
  predicate StatesKept(b: HeadStatus) {
    && (forall i :: 0 <= i < |b.failed| ==> b.failed[i] in b.contexts)
    && (b.failed == [] && b.pending == [] ==> b.state == SUCCESS)
  }

  lemma {:induction false} ContextsAreNodes(nodes: seq<Node>, keep: NodeState -> bool, c: string)
    ensures c in Contexts(nodes, keep) <==>
              exists i :: 0 <= i < |nodes| && nodes[i].context == c && CIRCLECI_CONTEXT <= c && keep(nodes[i].state)
  {
    if nodes != [] {
      var front := nodes[..|nodes| - 1];
      ContextsAreNodes(front, keep, c);
      if c in Contexts(front, keep) {
        var i :| 0 <= i < |front| && front[i].context == c && CIRCLECI_CONTEXT <= c && keep(front[i].state);
        assert nodes[i] == front[i];
      }
      if exists i :: 0 <= i < |nodes| && nodes[i].context == c && CIRCLECI_CONTEXT <= c && keep(nodes[i].state) {
        var i :| 0 <= i < |nodes| && nodes[i].context == c && CIRCLECI_CONTEXT <= c && keep(nodes[i].state);
        if i < |front| {
          assert front[i] == nodes[i];
        }
      }
    }
  }

  lemma FailedAreContexts(nodes: seq<Node>, c: string)
    requires c in Sorted(Contexts(nodes, IsFailed))
    ensures c in Sorted(Contexts(nodes, AnyState))
  {
    SortedIsInOrder(Contexts(nodes, IsFailed));
    SortedIsInOrder(Contexts(nodes, AnyState));
    ContextsAreNodes(nodes, IsFailed, c);
    ContextsAreNodes(nodes, AnyState, c);
  }

  /** Whatever the rollup reads keeps its states: the lists agree with the worst state. */
  lemma RollupKeepsStates(nodes: seq<Node>, head: HeadStatus)
    requires IsRollup(nodes, head)
    ensures StatesKept(head)
  {
    forall i | 0 <= i < |head.failed|
      ensures head.failed[i] in head.contexts
    {
      FailedAreContexts(nodes, head.failed[i]);
    }
    var i :| 0 <= i < |nodes| && IsCircleCI(nodes[i]) && nodes[i].state == head.state;
    if head.state != SUCCESS {
      WorstIsListed(nodes, i);
    }
  }

  predicate HasNode(nodes: seq<Node>, keep: NodeState -> bool) {
    exists i :: 0 <= i < |nodes| && IsCircleCI(nodes[i]) && keep(nodes[i].state)
  }

  lemma ListedHasNode(nodes: seq<Node>, keep: NodeState -> bool)
    ensures Sorted(Contexts(nodes, keep)) != [] <==> HasNode(nodes, keep)
  {
    var list := Contexts(nodes, keep);
    if list != [] {
      ContextsAreNodes(nodes, keep, list[0]);
    }
    if i :| 0 <= i < |nodes| && IsCircleCI(nodes[i]) && keep(nodes[i].state) {
      ContextsAreNodes(nodes, keep, nodes[i].context);
    }
  }

  lemma WorstHasNode(nodes: seq<Node>, worst: NodeState)
    requires IsWorst(nodes, worst)
    ensures IsFailed(worst) <==> HasNode(nodes, IsFailed)
    ensures IsPending(worst) <==> !HasNode(nodes, IsFailed) && HasNode(nodes, IsPending)
  {
    var i :| 0 <= i < |nodes| && IsCircleCI(nodes[i]) && nodes[i].state == worst;
    assert IsFailed(nodes[i].state) ==> HasNode(nodes, IsFailed);
    assert IsPending(nodes[i].state) ==> HasNode(nodes, IsPending);
  }

  /** The worst state says which of the lists have something in them. */
  lemma WorstSays(nodes: seq<Node>, head: HeadStatus)
    requires IsRollup(nodes, head)
    ensures head.state == FAILURE || head.state == ERROR <==> head.failed != []
    ensures head.state == PENDING || head.state == EXPECTED <==> head.failed == [] && head.pending != []
    ensures head.state == SUCCESS <==> head.failed == [] && head.pending == []
  {
    ListedHasNode(nodes, IsFailed);
    ListedHasNode(nodes, IsPending);
    WorstHasNode(nodes, head.state);
  }

  lemma WorstIsListed(nodes: seq<Node>, i: nat)
    requires i < |nodes| && CIRCLECI_CONTEXT <= nodes[i].context && nodes[i].state != SUCCESS
    ensures Contexts(nodes, IsFailed) != [] || Contexts(nodes, IsPending) != []
  {
    ContextsAreNodes(nodes, IsFailed, nodes[i].context);
    ContextsAreNodes(nodes, IsPending, nodes[i].context);
  }

  // ----- soundness and completeness

  /** A status of the tag pipeline is never taken for a branch's. */
  lemma TagStatusIsOwn(contexts: seq<string>, jobs: seq<CIJob>, tag: string, posters: Posters, re: Regex, c: string)
    requires Consistent(contexts, jobs, tag, posters, re) && c in contexts && posters(c) == TagPipeline
    ensures c in Split(contexts, jobs, (j: CIJob) => j.RunsOnTag(tag, re)).0
  {
    var i :| 0 <= i < |contexts| && contexts[i] == c;
    assert MayPost(jobs, JobOf(contexts[i]), tag, posters(contexts[i]), re);
  }

  /** A job of the tag pipeline that reads as failed, on a record from before the states were kept by the worst state,
      and leaves the release unpublished is never read as built or running. */
  lemma TagFailureIsNeverGreen(tag: string, b: HeadStatus, jobs: seq<CIJob>, tagOnly: seq<string>, posters: Posters,
                               re: Regex, leaves: string -> bool, c: string)
    requires Consistent(b.contexts, jobs, tag, posters, re)
    requires c in b.contexts && c in StatesOf(b, b.contexts).0 && posters(c) == TagPipeline && leaves(JobOf(c))
    ensures var v := StatusesReleaseStep(tag, b, jobs, tagOnly, re, leaves);
            (v.Red? || v.UncheckedTwoPipelines?) && c in v.jobs
  {
    TagStatusIsOwn(b.contexts, jobs, tag, posters, re, c);
  }

  lemma TagsAreRead(b: HeadStatus, jobs: seq<CIJob>, tag: string, posters: Posters, re: Regex, c: string)
    requires Consistent(b.contexts, jobs, tag, posters, re) && c in b.contexts && posters(c) == TagPipeline
    ensures IsRead(b, jobs, tag, re, c) && MayBeTags(jobs, tag, re, c)
  {
    var i :| 0 <= i < |b.contexts| && b.contexts[i] == c;
    assert MayPost(jobs, JobOf(b.contexts[i]), tag, posters(b.contexts[i]), re);
  }

  /** A job of the tag pipeline that is still to come in is never read as built or not reported; the verdict waits for
      it unless a failure comes first. */
  lemma TagPendingIsWaitedFor(tag: string, b: HeadStatus, jobs: seq<CIJob>, tagOnly: seq<string>, posters: Posters,
                              re: Regex, leaves: string -> bool, c: string)
    requires Consistent(b.contexts, jobs, tag, posters, re)
    requires c in b.contexts && posters(c) == TagPipeline && ReadsPending(b, c)
    ensures var v := StatusesReleaseStep(tag, b, jobs, tagOnly, re, leaves);
            !v.Built? && !v.UncheckedNotReported? && (v.Running? <==> !SomeFails(b, jobs, tag, re, leaves))
  {
    TagsAreRead(b, jobs, tag, posters, re, c);
    assert Waits(b, jobs, tag, re, c);
    VerdictExactly(tag, b, jobs, tagOnly, re, leaves);
  }

  /** Running is said on a status still to come in that may be the tag's, unless the declaration shuts the tag out of
      every status there. */
  lemma RunningWaitsForSome(tag: string, b: HeadStatus, jobs: seq<CIJob>, tagOnly: seq<string>, re: Regex,
                            leaves: string -> bool)
    requires StatusesReleaseStep(tag, b, jobs, tagOnly, re, leaves).Running?
    ensures exists c :: c in b.contexts && ReadsPending(b, c)
                        && (MayBeTags(jobs, tag, re, c)
                            || forall d :: d in b.contexts ==> !MayBeTags(jobs, tag, re, d))
  {
    VerdictExactly(tag, b, jobs, tagOnly, re, leaves);
    var c :| Waits(b, jobs, tag, re, c);
  }

  /** A context whose job runs on the tag alone was posted by the tag pipeline. */
  lemma TagOnlyIsTheTags(contexts: seq<string>, jobs: seq<CIJob>, tag: string, posters: Posters, re: Regex, c: string)
    requires CatchAllMatches(re) && Consistent(contexts, jobs, tag, posters, re)
    requires c in contexts && IsTagOnly(jobs, JobOf(c), tag, re)
    ensures posters(c) == TagPipeline
  {
    var i :| 0 <= i < |contexts| && contexts[i] == c;
    assert MayPost(jobs, JobOf(contexts[i]), tag, posters(contexts[i]), re);
    if posters(c).BranchPipeline? {
      var branch := posters(c).branch;
      var k :| 0 <= k < |jobs| && jobs[k].name == JobOf(c) && jobs[k].RunsOnBranch(branch, re);
      BranchJobIsOpen(jobs[k], branch, re);
    }
  }

  /** The jobs a red verdict names really failed and leave the release unpublished; beside foreign statuses one of
      them runs on the tag alone. */
  lemma RedNamesFailures(tag: string, b: HeadStatus, jobs: seq<CIJob>, tagOnly: seq<string>, re: Regex,
      leaves: string -> bool, c: string)
    requires StatesKept(b) && StatusesReleaseStep(tag, b, jobs, tagOnly, re, leaves).Red?
    ensures var v := StatusesReleaseStep(tag, b, jobs, tagOnly, re, leaves);
            (c in v.jobs ==> c in b.failed && c in b.contexts && leaves(JobOf(c)))
            && (Split(b.contexts, jobs, (j: CIJob) => j.RunsOnTag(tag, re)).1 != [] ==>
                AnyTagOnly(v.jobs, jobs, tag, re))
  {
    var own := Split(b.contexts, jobs, (j: CIJob) => j.RunsOnTag(tag, re)).0;
    assert c in own ==> c in b.contexts;
    if c in Unpublished(b, own, leaves) {
      UnpublishedFailed(b, own, leaves, c);
    }
  }

  lemma UnpublishedFailed(b: HeadStatus, own: seq<string>, leaves: string -> bool, c: string)
    requires StatesKept(b) && c in Unpublished(b, own, leaves)
    ensures c in b.failed && c in own && leaves(JobOf(c))
  {
  }

  /** Red beside foreign statuses is real: the tag pipeline failed one of the jobs. */
  lemma RedBesideForeignIsReal(tag: string, b: HeadStatus, jobs: seq<CIJob>, tagOnly: seq<string>, posters: Posters,
                               re: Regex, leaves: string -> bool)
    requires CatchAllMatches(re) && Consistent(b.contexts, jobs, tag, posters, re) && StatesKept(b)
    requires StatusesReleaseStep(tag, b, jobs, tagOnly, re, leaves).Red?
    requires Split(b.contexts, jobs, (j: CIJob) => j.RunsOnTag(tag, re)).1 != []
    ensures exists c :: c in b.failed && c in b.contexts && posters(c) == TagPipeline && leaves(JobOf(c))
  {
    var failed := StatusesReleaseStep(tag, b, jobs, tagOnly, re, leaves).jobs;
    assert AnyTagOnly(failed, jobs, tag, re) by {
      RedNamesFailures(tag, b, jobs, tagOnly, re, leaves, "");
    }
    var c := TagOnlyWitness(failed, jobs, tag, re);
    RedNamesFailures(tag, b, jobs, tagOnly, re, leaves, c);
    TagOnlyIsTheTags(b.contexts, jobs, tag, posters, re, c);
  }

  lemma TagOnlyWitness(failed: seq<string>, jobs: seq<CIJob>, tag: string, re: Regex) returns (c: string)
    requires AnyTagOnly(failed, jobs, tag, re)
    ensures c in failed && IsTagOnly(jobs, JobOf(c), tag, re)
  {
    var i :| 0 <= i < |failed| && IsTagOnly(jobs, JobOf(failed[i]), tag, re);
    c := failed[i];
  }

  /** Every job the filters leave open to branches has a branch that runs it. */
  ghost predicate BranchesExist(jobs: seq<CIJob>, re: Regex) {
    forall i :: 0 <= i < |jobs| && jobs[i].RunsOnBranches() ==>
        exists branch :: branch != "" && jobs[i].RunsOnBranch(branch, re)
  }

  ghost predicate TagAmong(contexts: seq<string>, posters: Posters) {
    exists i :: 0 <= i < |contexts| && posters(contexts[i]) == TagPipeline
  }

  /** The statuses alone prove the tag pipeline failed exactly when one of the failed jobs runs on the tag alone; that
      is the guard that tells red from unchecked beside a branch pipeline's statuses. */
  lemma FailureIsCertainExactly(tag: string, contexts: seq<string>, failed: seq<string>, jobs: seq<CIJob>, re: Regex,
      some: Posters)
    requires CatchAllMatches(re) && BranchesExist(jobs, re)
    requires Consistent(contexts, jobs, tag, some, re)
    requires forall i :: 0 <= i < |failed| ==> failed[i] in contexts
    ensures (forall posters: Posters :: Consistent(contexts, jobs, tag, posters, re) ==> TagAmong(failed, posters))
            <==> AnyTagOnly(failed, jobs, tag, re)
  {
    if AnyTagOnly(failed, jobs, tag, re) {
      var i :| 0 <= i < |failed| && IsTagOnly(jobs, JobOf(failed[i]), tag, re);
      forall posters: Posters | Consistent(contexts, jobs, tag, posters, re)
        ensures TagAmong(failed, posters)
      {
        TagOnlyIsTheTags(contexts, jobs, tag, posters, re, failed[i]);
      }
    } else {
      var blamed := map c | c in failed :: BranchFor(jobs, tag, re, c);
      var posters: Posters := c => if c in blamed then BranchPipeline(blamed[c]) else some(c);
      forall i | 0 <= i < |contexts|
        ensures MayPost(jobs, JobOf(contexts[i]), tag, posters(contexts[i]), re)
      {
        if contexts[i] in failed {
          BranchMayPost(contexts, jobs, tag, re, some, failed, contexts[i]);
        }
      }
      assert Consistent(contexts, jobs, tag, posters, re);
      assert !TagAmong(failed, posters);
    }
  }

  /** A branch that could have posted c. */
  ghost function BranchFor(jobs: seq<CIJob>, tag: string, re: Regex, c: string): string {
    if exists branch :: branch != "" && MayPost(jobs, JobOf(c), tag, BranchPipeline(branch), re)
    then var branch :| branch != "" && MayPost(jobs, JobOf(c), tag, BranchPipeline(branch), re); branch
    else ""
  }

  lemma BranchMayPost(contexts: seq<string>, jobs: seq<CIJob>, tag: string, re: Regex, some: Posters,
      failed: seq<string>, c: string)
    requires CatchAllMatches(re) && BranchesExist(jobs, re) && Consistent(contexts, jobs, tag, some, re)
    requires c in contexts && c in failed && !AnyTagOnly(failed, jobs, tag, re)
    ensures MayPost(jobs, JobOf(c), tag, BranchPipeline(BranchFor(jobs, tag, re, c)), re)
  {
    var i :| 0 <= i < |contexts| && contexts[i] == c;
    assert MayPost(jobs, JobOf(contexts[i]), tag, some(contexts[i]), re);
    var k :| 0 <= k < |failed| && failed[k] == c;
    assert !IsTagOnly(jobs, JobOf(failed[k]), tag, re);
    if !Declares(jobs, JobOf(c)) {
      assert MayPost(jobs, JobOf(c), tag, BranchPipeline("main"), re);
    } else if RunsAny(jobs, JobOf(c), (j: CIJob) => j.RunsOnBranches()) {
      var n :| 0 <= n < |jobs| && jobs[n].name == JobOf(c) && jobs[n].RunsOnBranches();
      var branch :| branch != "" && jobs[n].RunsOnBranch(branch, re);
      assert MayPost(jobs, JobOf(c), tag, BranchPipeline(branch), re);
    } else {
      assert some(c).BranchPipeline?;
      assert MayPost(jobs, JobOf(c), tag, BranchPipeline(some(c).branch), re);
    }
  }

  /** No use of the name runs on the branch. */
  predicate NeverOnBranch(jobs: seq<CIJob>, name: string, branch: string, re: Regex) {
    !RunsAny(jobs, name, (j: CIJob) => j.RunsOnBranch(branch, re))
  }

  /** Beside pipelines of the default branch alone, and with tag-only names that no other use runs on the branch,
      built with a tag-only job declared means the tag pipeline itself reported. */
  lemma BuiltMeansTheTagReported(tag: string, branch: string, b: HeadStatus, jobs: seq<CIJob>, posters: Posters,
                                 re: Regex, leaves: string -> bool)
    requires Consistent(b.contexts, jobs, tag, posters, re)
    requires forall i :: 0 <= i < |b.contexts| ==>
        posters(b.contexts[i]) == TagPipeline || posters(b.contexts[i]) == BranchPipeline(branch)
    requires forall name :: name in TagOnly(jobs, tag, branch, re) ==> NeverOnBranch(jobs, name, branch, re)
    requires TagOnly(jobs, tag, branch, re) != []
    requires StatusesReleaseStep(tag, b, jobs, TagOnly(jobs, tag, branch, re), re, leaves).Built?
    ensures exists c :: c in b.contexts && posters(c) == TagPipeline && JobOf(c) in TagOnly(jobs, tag, branch, re)
  {
    var names := TagOnly(jobs, tag, branch, re);
    var own := Split(b.contexts, jobs, (j: CIJob) => j.RunsOnTag(tag, re)).0;
    var i, k :| 0 <= i < |own| && 0 <= k < |names| && JobOf(own[i]) == names[k];
    var c := own[i];
    assert c in b.contexts;
    var n :| 0 <= n < |b.contexts| && b.contexts[n] == c;
    assert MayPost(jobs, JobOf(b.contexts[n]), tag, posters(b.contexts[n]), re);
    TagOnlyNamesUses(jobs, tag, branch, re, names[k]);
    assert Declares(jobs, JobOf(c));
    assert NeverOnBranch(jobs, names[k], branch, re);
  }

  /** The posters are the tag's pipeline and the branch's alone. */
  ghost predicate BesideTheBranch(contexts: seq<string>, branch: string, posters: Posters) {
    forall i :: 0 <= i < |contexts| ==>
      posters(contexts[i]) == TagPipeline || posters(contexts[i]) == BranchPipeline(branch)
  }

  /** A status of a job the declaration names and never runs on the branch. */
  predicate AnyNeverOnBranch(contexts: seq<string>, jobs: seq<CIJob>, branch: string, re: Regex) {
    exists i :: 0 <= i < |contexts| && Declares(jobs, JobOf(contexts[i])) &&
        NeverOnBranch(jobs, JobOf(contexts[i]), branch, re)
  }

  /** Beside pipelines of the default branch alone, the statuses prove that the tag's pipeline reported at all if and
      only if one of them is of a job the declaration names and never runs on the branch: a tag-only name proves it
      just where no other use of the name runs there. */
  lemma ReportIsCertainExactly(tag: string, branch: string, contexts: seq<string>, jobs: seq<CIJob>, re: Regex)
    requires branch != ""
    ensures (forall posters: Posters ::
               Consistent(contexts, jobs, tag, posters, re) && BesideTheBranch(contexts, branch, posters) ==>
                 TagAmong(contexts, posters))
            <==> AnyNeverOnBranch(contexts, jobs, branch, re)
  {
    if AnyNeverOnBranch(contexts, jobs, branch, re) {
      var i :| 0 <= i < |contexts| && Declares(jobs, JobOf(contexts[i])) &&
          NeverOnBranch(jobs, JobOf(contexts[i]), branch, re);
      forall posters: Posters | Consistent(contexts, jobs, tag, posters, re) &&
          BesideTheBranch(contexts, branch, posters)
        ensures TagAmong(contexts, posters)
      {
        assert MayPost(jobs, JobOf(contexts[i]), tag, posters(contexts[i]), re);
        assert posters(contexts[i]) == TagPipeline;
      }
    } else {
      var posters: Posters := c => BranchPipeline(branch);
      forall i | 0 <= i < |contexts|
        ensures MayPost(jobs, JobOf(contexts[i]), tag, posters(contexts[i]), re)
      {
        assert Declares(jobs, JobOf(contexts[i])) ==> !NeverOnBranch(jobs, JobOf(contexts[i]), branch, re);
      }
      assert Consistent(contexts, jobs, tag, posters, re) && BesideTheBranch(contexts, branch, posters);
      assert !TagAmong(contexts, posters);
    }
  }

  // ----- where the statuses cannot tell

  const BUILD := "ci/circleci: build"

  lemma BuildIsTheJob()
    ensures JobOf(BUILD) == "build"
  {
    assert CIRCLECI_CONTEXT <= BUILD && BUILD[|CIRCLECI_CONTEXT|..] == " build";
    assert " build"[1..] == "build" && TrimLeft("build") == "build";
    assert TrimRight("build") == "build";
  }

  const EVERYTHING: Regex := (pattern, ref) => true

  const SHARED := CIJob("build", [], [], ["/^v.*/"], [])
  const RELEASE_USE := CIJob("build", [], ["/.*/"], ["/^v.*/"], [])
  const BRANCH_USE := CIJob("build", [], [], [], [])

  lemma FiltersOf(tag: string)
    ensures SHARED.RunsOnTag(tag, EVERYTHING) && SHARED.RunsOnBranch("main", EVERYTHING)
    ensures RELEASE_USE.RunsOnTag(tag, EVERYTHING) && !RELEASE_USE.RunsOnBranch("main", EVERYTHING)
    ensures BRANCH_USE.RunsOnBranch("main", EVERYTHING) && !BRANCH_USE.RunsOnTag(tag, EVERYTHING)
  {
    assert TrimSpace("/^v.*/") == "/^v.*/" && TrimSpace("/.*/") == "/.*/";
    assert Matches("/^v.*/", tag, EVERYTHING) && Matches("/.*/", "main", EVERYTHING);
    assert SHARED.tagsOnly[0] == "/^v.*/" && RELEASE_USE.tagsOnly[0] == "/^v.*/" &&
        RELEASE_USE.branchesIgnore[0] == "/.*/";
  }

  /** Without foreign statuses red can be a branch's: a job both refs run failed in the branch's pipeline, and no
      pipeline of the tag ever ran. */
  lemma RedAloneMayBeABranchs(tag: string)
    ensures var b := HeadStatus(FAILURE, [BUILD], [BUILD], [], 1);
            && StatusesReleaseStep(tag, b, [SHARED], [], EVERYTHING, job => true) == Red([BUILD])
            && Consistent(b.contexts, [SHARED], tag, c => BranchPipeline("main"), EVERYTHING)
  {
    BuildIsTheJob();
    FiltersOf(tag);
    var jobs := [SHARED];
    assert jobs[0] == SHARED && jobs[0].name == "build";
    OneOwnFailure(tag, BUILD, jobs, EVERYTHING, job => true);
  }

  /** One failed status of a job the declaration runs on the tag, alone on the commit, reads red. */
  lemma OneOwnFailure(tag: string, c: string, jobs: seq<CIJob>, re: Regex, leaves: string -> bool)
    requires !IsForeign(jobs, c, (j: CIJob) => j.RunsOnTag(tag, re)) && leaves(JobOf(c))
    ensures StatusesReleaseStep(tag, HeadStatus(FAILURE, [c], [c], [], 1), jobs, [], re, leaves) == Red([c])
  {
    var runs := (j: CIJob) => j.RunsOnTag(tag, re);
    FilterOne(c, x => !IsForeign(jobs, x, runs));
    FilterNone(c, x => IsForeign(jobs, x, runs));
    assert Split([c], jobs, runs) == ([c], []);
    OneUnpublished(c, leaves);
  }

  lemma OneUnpublished(c: string, leaves: string -> bool)
    requires leaves(JobOf(c))
    ensures Unpublished(HeadStatus(FAILURE, [c], [c], [], 1), [c], leaves) == [c]
  {
    FilterOne(c, x => x in [c]);
    FilterOne(c, x => leaves(JobOf(x)));
  }

  lemma FilterNone(c: string, keep: string -> bool)
    requires !keep(c)
    ensures Filter([c], keep) == []
  {
    assert [c][..0] == [];
  }

  lemma FilterOne(c: string, keep: string -> bool)
    requires keep(c)
    ensures Filter([c], keep) == [c]
  {
    assert [c][..0] == [];
  }

  /** The condition on names is needed: a tag-only job whose name a branch job has too reads built though only the
      default branch's pipeline ran. */
  lemma SharedNameReadsBuilt(tag: string)
    ensures var b := HeadStatus(SUCCESS, [BUILD], [], [], 1);
            var jobs := [RELEASE_USE, BRANCH_USE];
            && TagOnly(jobs, tag, "main", EVERYTHING) == ["build"]
            && StatusesReleaseStep(tag, b, jobs, ["build"], EVERYTHING, job => true) == Built
            && Consistent(b.contexts, jobs, tag, c => BranchPipeline("main"), EVERYTHING)
  {
    BuildIsTheJob();
    FiltersOf(tag);
    var jobs := [RELEASE_USE, BRANCH_USE];
    assert jobs[0] == RELEASE_USE && jobs[1] == BRANCH_USE;
    assert jobs[..1] == [RELEASE_USE] && [RELEASE_USE][..0] == [];
    assert TagOnly([RELEASE_USE], tag, "main", EVERYTHING) == ["build"];
    OneOwnSuccess(tag, BUILD, jobs, ["build"], EVERYTHING, job => true);
  }

  /** One green status of a job the declaration runs on the tag, a tag-only one by its name, reads built. */
  lemma OneOwnSuccess(tag: string, c: string, jobs: seq<CIJob>, tagOnly: seq<string>, re: Regex, leaves: string -> bool)
    requires !IsForeign(jobs, c, (j: CIJob) => j.RunsOnTag(tag, re)) && tagOnly == [JobOf(c)]
    ensures StatusesReleaseStep(tag, HeadStatus(SUCCESS, [c], [], [], 1), jobs, tagOnly, re, leaves) == Built
  {
    var runs := (j: CIJob) => j.RunsOnTag(tag, re);
    FilterOne(c, x => !IsForeign(jobs, x, runs));
    FilterNone(c, x => IsForeign(jobs, x, runs));
    assert Split([c], jobs, runs) == ([c], []);
    assert [c][0] == c && tagOnly[0] == JobOf(c);
    assert Reported([c], tagOnly);
  }
}
