/**
The release watch of one repository: a tag followed from its release to the end of its pipeline. Two paths tell the
team of it, the watch and the reconciler's runs, each with its own note on the record; sweeps that hold an older copy
of the record write between them.
*/
module ReleaseWatches {
  import opened Common
  import Completions

  datatype State = Watching | Built | Red | Unbuilt | Unchecked

  datatype Pipeline = Pipeline(number: nat, url: string, workflow: string)

  datatype Watch = Watch(
    tag: string, createdAt: Time, state: State, pipeline: Option<Pipeline>, failedJobs: seq<string>,
    reason: string, checkedAt: Time, settledAt: Option<Time>, told: string)
  {
    predicate Following() {
      state == Watching || state == Red
    }

    predicate Untold() {
      (state == Red || state == Unbuilt) && told == ""
    }

    function Settled(now: Time, s: State): Watch {
      this.(state := s, settledAt := Some(now))
    }
  }

  /** What CircleCI answers about the tag: its pipeline with the workflows' fold, or why there is none. */
  datatype Answer =
    | NotKnown
    | ReadFailed
    | NoPipeline
    | Found(pipeline: Pipeline, workflowsRead: bool, failed: seq<string>, built: bool)

  /** A fold is not both red and built. */
  predicate Coherent(a: Answer) {
    a.Found? && a.built ==> a.failed == []
  }

  const UNKNOWN := "CircleCI does not know the project"
  const NO_TOKEN := "the repository is private and no CircleCI token is configured"

  /** One read of the tag's pipeline. */
  function Read(w: Watch, now: Time, grace: Time, anonymous: bool, a: Answer): Watch {
    var c := w.(checkedAt := now);
    match a
    case NotKnown => c.Settled(now, Unchecked).(reason := if anonymous then NO_TOKEN else UNKNOWN)
    case ReadFailed => c
    case NoPipeline => if c.createdAt + grace <= now then c.Settled(now, Unbuilt) else c
    case Found(p, workflowsRead, failed, built) =>
      var f := c.(pipeline := Some(p));
      if !workflowsRead then f
      else if failed != [] then f.(failedJobs := failed).Settled(now, Red)
      else if built then f.(failedJobs := []).Settled(now, Built)
      else f
  }

  /** The watch on the record, updated in place by a read. */
  class ReleaseWatch {
    const tag: string
    const createdAt: Time
    var state: State
    var pipeline: Option<Pipeline>
    var failedJobs: seq<string>
    var reason: string
    var checkedAt: Time
    var settledAt: Option<Time>
    var told: string

    constructor (w: Watch)
      ensures Value() == w
    {
      tag, createdAt, state, pipeline, failedJobs := w.tag, w.createdAt, w.state, w.pipeline, w.failedJobs;
      reason, checkedAt, settledAt, told := w.reason, w.checkedAt, w.settledAt, w.told;
    }

    function Value(): Watch
      reads this
    {
      Watch(tag, createdAt, state, pipeline, failedJobs, reason, checkedAt, settledAt, told)
    }

    method Settle(now: Time, s: State)
      modifies this
      ensures Value() == old(Value()).Settled(now, s)
    {
      state := s;
      settledAt := Some(now);
    }

    method ReadRelease(now: Time, grace: Time, anonymous: bool, a: Answer)
      modifies this
      ensures Value() == Read(old(Value()), now, grace, anonymous, a)
    {
      checkedAt := now;
      match a {
        case NotKnown =>
          Settle(now, Unchecked);
          reason := if anonymous then NO_TOKEN else UNKNOWN;
        case ReadFailed =>
        case NoPipeline =>
          if createdAt + grace <= now {
            Settle(now, Unbuilt);
          }
        case Found(p, workflowsRead, failed, built) =>
          pipeline := Some(p);
          if workflowsRead {
            if |failed| > 0 {
              failedJobs := failed;
              Settle(now, Red);
            } else if built {
              failedJobs := [];
              Settle(now, Built);
            }
          }
      }
    }
  }

  // ----- one pass over a repository

  /** The page's release of the repository. */
  datatype Node = Node(tag: string, publishedAt: Time)

  /** What the tell hook answers: posted, recorded without a message (a team that is not messaged), or to be tried
      again. */
  datatype Hook = Posted(text: string) | Recorded(text: string) | Retry

  /** The environment of one pass over one repository. */
  datatype Pass = Pass(
    now: Time,
    tracked: bool,          // the record was read, declared, on GitHub and not archived
    node: Option<Node>,     // the page's release, young enough
    rereads: bool,          // the page's release differs from the one the record read
    outside: string,        // why the release is out of the watch's reach, if it is
    answer: Answer,
    hook: Hook,
    puts: bool)             // the store takes the record

  /** What a pass can meet: only a page that carries the repository changes what the record read of its release. */
  predicate PossiblePass(p: Pass) {
    && (p.rereads ==> p.node.Some?)
    && Coherent(p.answer)
    && (p.hook.Posted? || p.hook.Recorded? ==> p.hook.text != "")
  }

  predicate Starts(w: Option<Watch>, p: Pass) {
    p.node.Some? && (w.None? || w.value.tag != p.node.value.tag)
  }

  function Fresh(p: Pass): Watch
    requires p.node.Some?
  {
    var w := Watch(p.node.value.tag, p.node.value.publishedAt, Watching, None, [], "", p.now, None, "");
    if p.outside != "" then w.Settled(p.now, Unchecked).(reason := p.outside) else w
  }

  /** The watch the pass works on; None when it leaves the record alone. */
  function Taken(w: Option<Watch>, p: Pass): (r: Option<Watch>)
    requires PossiblePass(p)
  {
    if !p.tracked then None
    else if Starts(w, p) then Some(Fresh(p))
    else if w.None? || (!w.value.Following() && !p.rereads) then None
    else w
  }

  datatype Config = Config(grace: Time, anonymous: bool, name: string, repository: string)

  /** The watch after the read, before the team is told. */
  function Checked(w: Watch, p: Pass, c: Config): Watch {
    if w.Following() then Read(w, p.now, c.grace, c.anonymous, p.answer) else w
  }

  /** The words a sentence about the tag's release opens with when the watch takes it for one. */
  function Opening(c: Config, tag: string): string {
    c.name + ": release " + tag + " of " + c.repository
  }

  predicate Opens(c: Config, tag: string, text: string) {
    Opening(c, tag) <= text
  }

  /** The first sentence of the told set that opens so; empty without one. */
  function ToldByTheRun(c: Config, told: seq<string>, tag: string): (text: string)
    ensures text != "" <==> exists i :: 0 <= i < |told| && Opens(c, tag, told[i])
    ensures text != "" ==> text in told && Opens(c, tag, text)
  {
    if told == [] then ""
    else
      assert told == [told[0]] + told[1..];
      if Opens(c, tag, told[0]) then told[0] else ToldByTheRun(c, told[1..], tag)
  }

  method FindTold(c: Config, told: seq<string>, tag: string) returns (text: string)
    ensures text == ToldByTheRun(c, told, tag)
  {
    for i := 0 to |told|
      invariant ToldByTheRun(c, told, tag) == ToldByTheRun(c, told[i..], tag)
    {
      assert told[i..][1..] == told[i + 1..];
      if Opens(c, tag, told[i]) {
        return told[i];
      }
    }
    return "";
  }

  /** The watch as the pass would store it, and whether the notice was posted. */
  function Told(w: Watch, told: seq<string>, p: Pass, c: Config): (Watch, bool) {
    if !w.Untold() then (w, false)
    else if ToldByTheRun(c, told, w.tag) != "" then (w.(told := ToldByTheRun(c, told, w.tag)), false)
    else match p.hook
      case Posted(text) => (w.(told := text), true)
      case Recorded(text) => (w.(told := text), false)
      case Retry => (w, false)
  }

  /** A sweep's write: the stored watch is kept over an older copy. */
  function KeepRelease(copy: Option<Watch>, stored: Option<Watch>): Option<Watch> {
    if stored.None? then copy
    else if copy.None? || stored.value.checkedAt > copy.value.checkedAt then stored
    else copy
  }

  // ----- the reconciler's runs tell of releases too

  /** A finding of a run's release step, verified, in the team's words, and the tag it is about. */
  datatype News = News(text: string, tag: string)

  /** A run as it reaches the completion hook: what it tells beside its release step's finding, that finding, whether
      the team's channel is found, which posts it takes, and whether the store takes the note of them. */
  datatype RunNews = RunNews(msgs: seq<Completions.Message>, release: Option<News>, reachable: bool,
                             delivers: seq<bool>, releaseDelivered: bool, noted: bool)

  /** Only a finding about a tag's release opens with the words the watch looks for. */
  ghost predicate PossibleRun(r: RunNews, c: Config) {
    && |r.delivers| == |r.msgs|
    && (forall m, tag :: m in r.msgs && m.FindingMessage? ==> !Opens(c, tag, m.text))
    && (forall tag :: r.release.Some? && Opens(c, tag, r.release.value.text) ==> tag == r.release.value.tag)
  }

  /** The watch reads this repository's releases: the runs leave them to it. */
  predicate ReleaseWatched(w: Option<Watch>) {
    w.Some? && w.value.state != Unchecked
  }

  /** The run's messages and which of them are delivered; the release step's finding is left to the watch where it reads
      the releases. */
  function MessagesOf(w: Option<Watch>, r: RunNews): seq<Completions.Message> {
    if r.release.Some? && !ReleaseWatched(w) then r.msgs + [Completions.FindingMessage(r.release.value.text)]
        else r.msgs
  }

  function DeliversOf(w: Option<Watch>, r: RunNews): seq<bool> {
    if r.release.Some? && !ReleaseWatched(w) then r.delivers + [r.releaseDelivered] else r.delivers
  }

  /** The run has something to tell and somebody to tell it to. */
  predicate Telling(w: Option<Watch>, r: RunNews) {
    r.reachable && MessagesOf(w, r) != []
  }

  /** The run posts its release finding. */
  predicate PostsRelease(record: Held, r: RunNews) {
    && r.release.Some? && !ReleaseWatched(record.watch)
    && r.reachable && r.releaseDelivered && r.release.value.text !in record.told
  }

  // ----- histories

  /** What the record holds of its releases: the watch, and the findings the runs told. */
  datatype Held = Held(watch: Option<Watch>, told: seq<string>)

  datatype Event = OnePass(p: Pass) | Reconciled(r: RunNews) | SweepReads | SweepWrites

  /** The record, the copy a sweep holds, the tags posted by either path and those whose post no write noted, the tags
      watched. */
  datatype History = History(record: Held, copy: Option<Held>, posts: seq<string>, lost: seq<string>,
      watched: set<string>)

  const START := History(Held(None, []), None, [], [], {})

  ghost predicate Possible(e: Event, c: Config) {
    (e.OnePass? ==> PossiblePass(e.p)) && (e.Reconciled? ==> PossibleRun(e.r, c))
  }

  ghost predicate AllPossible(events: seq<Event>, c: Config) {
    forall i :: 0 <= i < |events| ==> Possible(events[i], c)
  }

  function Passed(h: History, p: Pass, c: Config): History
    requires PossiblePass(p)
  {
    var taken := Taken(h.record.watch, p);
    if taken.None? then h
    else
      var (w, posted) := Told(Checked(taken.value, p, c), h.record.told, p, c);
      h.(record := if p.puts then h.record.(watch := Some(w)) else h.record,
         posts := if posted then h.posts + [w.tag] else h.posts,
         lost := if posted && !p.puts then h.lost + [w.tag] else h.lost,
         watched := if p.puts then h.watched + {w.tag} else h.watched)
  }

  function ToldTheTeam(h: History, r: RunNews): History
    requires |r.delivers| == |r.msgs|
  {
    if !Telling(h.record.watch, r) then h
    else
      var told := Completions.ToldAfter(h.record.told, MessagesOf(h.record.watch, r), DeliversOf(h.record.watch, r));
      var posted := PostsRelease(h.record, r);
      h.(record := if r.noted then h.record.(told := told) else h.record,
         posts := if posted then h.posts + [r.release.value.tag] else h.posts,
         lost := if posted && !r.noted then h.lost + [r.release.value.tag] else h.lost)
  }

  ghost function Happen(h: History, event: Event, c: Config): History
    requires Possible(event, c)
  {
    match event
    case SweepReads => h.(copy := Some(h.record))
    case SweepWrites =>
      if h.copy.None? then h
      else h.(record := Held(KeepRelease(h.copy.value.watch, h.record.watch), h.copy.value.told), copy := None)
    case OnePass(p) => Passed(h, p, c)
    case Reconciled(r) => ToldTheTeam(h, r)
  }

  ghost function Play(events: seq<Event>, c: Config): History
    requires AllPossible(events, c)
  {
    if events == [] then START else Happen(Play(events[..|events| - 1], c), events[|events| - 1], c)
  }

  /** The pass moved CheckedAt if it changed the watch. */
  predicate MovesChecked(h: History, h': History) {
    h.record.watch.Some? && h'.record.watch != h.record.watch ==>
      h'.record.watch.Some? && h'.record.watch.value.checkedAt > h.record.watch.value.checkedAt
  }

  /** Tags go forward: a watch never starts on a tag watched before. */
  predicate GoesForward(h: History, event: Event) {
    event.OnePass? && event.p.tracked && Starts(h.record.watch, event.p) ==> event.p.node.value.tag !in h.watched
  }

  /** While a sweep holds a copy, a pass that changes the watch moves CheckedAt; and tags go forward. */
  ghost predicate CarefulAt(h: History, event: Event, c: Config)
    requires Possible(event, c)
  {
    (event.OnePass? && h.copy.Some? ==> MovesChecked(h, Happen(h, event, c))) && GoesForward(h, event)
  }

  ghost predicate Careful(events: seq<Event>, c: Config)
    requires AllPossible(events, c)
  {
    events == [] ||
    (var n := |events| - 1; Careful(events[..n], c) && CarefulAt(Play(events[..n], c), events[n], c))
  }

  // ----- in every reachable state

  /** What the release step and the notice rely on. */
  predicate WellFormed(w: Watch) {
    && (w.state == Red ==> w.pipeline.Some? && w.failedJobs != [])
    && (w.state == Built ==> w.pipeline.Some? && w.failedJobs == [])
    && (w.state == Watching ==> w.settledAt.None? && w.told == "" && w.failedJobs == [])
    && (w.state != Watching ==> w.settledAt.Some?)
    && (w.state == Unchecked ==> w.reason != "")
  }

  predicate AllWellFormed(h: History) {
    && (h.record.watch.Some? ==> WellFormed(h.record.watch.value))
    && (h.copy.Some? && h.copy.value.watch.Some? ==> WellFormed(h.copy.value.watch.value))
  }

  lemma ReadKeepsWellFormed(w: Watch, now: Time, grace: Time, anonymous: bool, a: Answer)
    requires WellFormed(w) && w.Following() && Coherent(a)
    ensures WellFormed(Read(w, now, grace, anonymous, a))
  {
  }

  lemma PassKeepsWellFormed(h: History, p: Pass, c: Config)
    requires AllWellFormed(h) && PossiblePass(p)
    ensures AllWellFormed(Passed(h, p, c))
  {
    var taken := Taken(h.record.watch, p);
    if taken.Some? {
      assert WellFormed(taken.value);
      if taken.value.Following() {
        ReadKeepsWellFormed(taken.value, p.now, c.grace, c.anonymous, p.answer);
      }
      var checked := Checked(taken.value, p, c);
      assert WellFormed(checked);
      assert WellFormed(Told(checked, h.record.told, p, c).0);
    }
  }

  lemma {:induction false} ReachableIsWellFormed(events: seq<Event>, c: Config)
    requires AllPossible(events, c)
    ensures AllWellFormed(Play(events, c))
  {
    if events != [] {
      ReachableIsWellFormed(events[..|events| - 1], c);
      if events[|events| - 1].OnePass? {
        PassKeepsWellFormed(Play(events[..|events| - 1], c), events[|events| - 1].p, c);
      }
    }
  }

  /** The pipeline number the release step names. */
  function StepPipeline(w: Watch): Option<nat>
    requires w.state == Built || w.state == Red ==> w.pipeline.Some?
  {
    match w.state
    case Built => Some(w.pipeline.value.number)
    case Red => Some(w.pipeline.value.number)
    case Watching => if w.pipeline.None? then None else Some(w.pipeline.value.number)
    case _ => None
  }

  /** What the notice of an untold release links. */
  function NoticeLink(w: Watch): Option<string>
    requires w.state == Red ==> w.pipeline.Some?
  {
    if !w.Untold() then None
    else if w.state == Red then
      Some(if w.pipeline.value.workflow != "" then w.pipeline.value.workflow else w.pipeline.value.url)
    else Some("https://app.circleci.com/pipelines/github/")
  }

  /** Neither the release step nor the notice ever meets a missing pipeline. */
  lemma NoMissingPipeline(events: seq<Event>, c: Config)
    requires AllPossible(events, c)
    ensures var h := Play(events, c);
            h.record.watch.Some? ==>
              var w := h.record.watch.value;
              && (w.state == Built || w.state == Red ==>
                    w.pipeline.Some? && StepPipeline(w) == Some(w.pipeline.value.number))
              && (w.Untold() ==> NoticeLink(w).Some?)
  {
    ReachableIsWellFormed(events, c);
  }

  // ----- what a pass makes of the tag it follows

  /** The watch a pass reads on: the stored one, or a new one that has told nothing of the page's tag. */
  predicate ReadsOn(stored: Option<Watch>, p: Pass, w: Watch) {
    if p.node.Some? && (stored.None? || stored.value.tag != p.node.value.tag)
    then w == Watch(p.node.value.tag, p.node.value.publishedAt, Watching, None, [], "", p.now, None, "")
         && p.outside == ""
    else stored == Some(w) && (w.state == Watching || w.state == Red)
  }

  /** The answers that settle a followed tag: a tag without a pipeline not before its grace is over, one whose workflows
      were not all read not at all. */
  predicate SettlesAs(createdAt: Time, p: Pass, c: Config, to: State) {
    match to
    case Unchecked => p.answer.NotKnown?
    case Unbuilt => p.answer.NoPipeline? && p.now >= createdAt + c.grace
    case Red => p.answer.Found? && p.answer.workflowsRead && p.answer.failed != []
    case Built => p.answer.Found? && p.answer.workflowsRead && p.answer.failed == [] && p.answer.built
    case Watching => false
  }

  /** Exactly these answers move the tag, to exactly these states, and any other leaves the state as it was. */
  ghost predicate MovedBy(w: Watch, p: Pass, c: Config, w': Watch) {
    && w'.tag == w.tag && w'.createdAt == w.createdAt && w'.checkedAt == p.now
    && (forall to :: SettlesAs(w.createdAt, p, c, to) ==> w'.state == to && w'.settledAt == Some(p.now))
    && ((forall to :: !SettlesAs(w.createdAt, p, c, to)) ==>
          w'.state == w.state && w'.settledAt == w.settledAt && w'.failedJobs == w.failedJobs)
    && w'.pipeline == (if p.answer.Found? then Some(p.answer.pipeline) else w.pipeline)
    && (SettlesAs(w.createdAt, p, c, Red) ==> w'.failedJobs == p.answer.failed)
    && (SettlesAs(w.createdAt, p, c, Built) ==> w'.failedJobs == [])
    && (SettlesAs(w.createdAt, p, c, Unchecked) ==> w'.reason == if c.anonymous then NO_TOKEN else UNKNOWN)
  }

  lemma ReadMoves(w: Watch, p: Pass, c: Config)
    requires w.state == Watching || w.state == Red
    ensures MovedBy(w, p, c, Checked(w, p, c))
  {
    assert (forall to :: !SettlesAs(w.createdAt, p, c, to)) ==> !SettlesAs(w.createdAt, p, c, Unchecked);
    assert (forall to :: !SettlesAs(w.createdAt, p, c, to)) ==> !SettlesAs(w.createdAt, p, c, Unbuilt);
    assert (forall to :: !SettlesAs(w.createdAt, p, c, to)) ==> !SettlesAs(w.createdAt, p, c, Red);
    assert (forall to :: !SettlesAs(w.createdAt, p, c, to)) ==> !SettlesAs(w.createdAt, p, c, Built);
  }

  lemma ToldIsNoted(w: Watch, told: seq<string>, p: Pass, c: Config)
    ensures var (v, posted) := Told(w, told, p, c); v == w.(told := v.told)
  {
  }

  lemma TakenToRead(stored: Option<Watch>, p: Pass, w: Watch)
    requires PossiblePass(p) && p.tracked && ReadsOn(stored, p, w)
    ensures Taken(stored, p) == Some(w) && (w.state == Watching || w.state == Red)
  {
  }

  /** What a pass that stores its record makes of the watch it reads on. */
  lemma PassSettlesExactly(h: History, p: Pass, c: Config, w: Watch)
    requires PossiblePass(p) && p.tracked && p.puts && ReadsOn(h.record.watch, p, w)
    ensures Happen(h, OnePass(p), c).record.watch.Some?
    ensures MovedBy(w, p, c, Happen(h, OnePass(p), c).record.watch.value)
  {
    TakenToRead(h.record.watch, p, w);
    ReadMoves(w, p, c);
    ToldIsNoted(Checked(w, p, c), h.record.told, p, c);
  }

  /** A release out of the watch's reach is unchecked from the start and never read. */
  lemma OutsideIsUnchecked(h: History, p: Pass, c: Config)
    requires PossiblePass(p) && p.tracked && p.puts && Starts(h.record.watch, p) && p.outside != ""
    ensures Happen(h, OnePass(p), c).record.watch
         == Some(Watch(p.node.value.tag, p.node.value.publishedAt, Unchecked, None, [], p.outside, p.now, Some(p.now),
                       ""))
  {
  }

  /** A release that is out of reach or settled, other than red, is left alone until the page shows another release than
      the record read; then only what was told of it may change. */
  lemma SettledIsLeftAlone(h: History, p: Pass, c: Config)
    requires PossiblePass(p) && !Starts(h.record.watch, p)
    requires h.record.watch.Some? ==> h.record.watch.value.state != Watching && h.record.watch.value.state != Red
    ensures !p.rereads || h.record.watch.None? ==> Happen(h, OnePass(p), c) == h
    ensures var h' := Happen(h, OnePass(p), c);
            h.record.watch.Some? ==>
              && h'.record.watch.Some?
              && h'.record.watch.value == h.record.watch.value.(told := h'.record.watch.value.told)
  {
  }

  /** A pass over a repository that is not followed changes nothing. */
  lemma UntrackedIsLeftAlone(h: History, p: Pass, c: Config)
    requires PossiblePass(p) && !p.tracked
    ensures Happen(h, OnePass(p), c) == h
  {
  }

  /** A run that has nothing to tell, or nobody to tell it to, leaves everything as it was; one whose note the store
      refuses leaves the record. */
  lemma SilentRunLeaves(h: History, r: RunNews, c: Config)
    requires PossibleRun(r, c)
    ensures !r.reachable ==> Happen(h, Reconciled(r), c) == h
    ensures r.msgs == [] && (r.release.None? || (h.record.watch.Some? && h.record.watch.value.state != Unchecked)) ==>
              Happen(h, Reconciled(r), c) == h
    ensures !r.noted ==> Happen(h, Reconciled(r), c).record == h.record
    ensures Happen(h, Reconciled(r), c).record.watch == h.record.watch
  {
  }

  /** What is noted of the telling, exactly: of a red or unbuilt release not told before, the sentence a run told of it,
      else the one posted now, or recorded for a team that is not messaged; nothing where the post is to be tried
      again. */
  lemma TellingNotesExactly(w: Watch, told: seq<string>, p: Pass, c: Config)
    ensures var (v, posted) := Told(w, told, p, c);
            var open := (w.state == Red || w.state == Unbuilt) && w.told == "";
            var byRun := exists i :: 0 <= i < |told| && Opens(c, w.tag, told[i]);
            && (!open ==> v == w && !posted)
            && (open && byRun ==> !posted && v.told in told && Opens(c, w.tag, v.told))
            && (open && !byRun ==>
                  && (posted <==> p.hook.Posted?)
                  && v.told == (match p.hook case Posted(text) => text case Recorded(text) => text case Retry => ""))
            && v == w.(told := v.told)
  {
  }

  /** A rerun that goes green turns a red release built, silently. */
  lemma GreenRerunTurnsBuilt(h: History, p: Pass, c: Config)
    requires PossiblePass(p) && p.tracked && p.puts && !Starts(h.record.watch, p)
    requires h.record.watch.Some? && h.record.watch.value.state == Red
    requires p.answer.Found? && p.answer.workflowsRead && p.answer.built
    ensures var h' := Happen(h, OnePass(p), c);
            && h'.record.watch.Some? && h'.record.watch.value.state == Built && h'.record.watch.value.failedJobs == []
            && h'.posts == h.posts
  {
    PassSettlesExactly(h, p, c, h.record.watch.value);
  }

  /** The tag was given its time before it was called unbuilt. */
  predicate GivenTime(w: Option<Watch>, c: Config) {
    w.Some? && w.value.state == Unbuilt ==>
      w.value.settledAt.Some? && w.value.settledAt.value >= w.value.createdAt + c.grace
  }

  lemma PassGivesTime(h: History, p: Pass, c: Config)
    requires PossiblePass(p) && GivenTime(h.record.watch, c)
    ensures GivenTime(Happen(h, OnePass(p), c).record.watch, c)
  {
    if Taken(h.record.watch, p).Some? {
      var w := Taken(h.record.watch, p).value;
      if w.Following() {
        ReadMoves(w, p, c);
      }
      ToldIsNoted(Checked(w, p, c), h.record.told, p, c);
    }
  }

  /** Over any passes, runs and sweeps: no tag is called unbuilt before its grace is over. */
  lemma {:induction false} UnbuiltWaitedForTheGrace(events: seq<Event>, c: Config)
    requires AllPossible(events, c)
    ensures GivenTime(Play(events, c).record.watch, c)
    ensures Play(events, c).copy.Some? ==> GivenTime(Play(events, c).copy.value.watch, c)
  {
    if events != [] {
      var n := |events| - 1;
      UnbuiltWaitedForTheGrace(events[..n], c);
      if events[n].OnePass? {
        PassGivesTime(Play(events[..n], c), events[n].p, c);
      }
    }
  }

  // ----- a sweep never writes over the watch

  /** The copy a sweep holds is the stored watch or older than it. */
  predicate CopyIsOlder(h: History) {
    h.copy.Some? ==>
      var copy, stored := h.copy.value.watch, h.record.watch;
      copy == stored || (stored.Some? && (copy.None? || stored.value.checkedAt > copy.value.checkedAt))
  }

  lemma {:induction false} SweepsKeepTheWatch(events: seq<Event>, c: Config)
    requires AllPossible(events, c) && Careful(events, c)
    ensures CopyIsOlder(Play(events, c))
    ensures Happen(Play(events, c), SweepWrites, c).record.watch == Play(events, c).record.watch
  {
    if events != [] {
      var n := |events| - 1;
      SweepsKeepTheWatch(events[..n], c);
      assert CarefulAt(Play(events[..n], c), events[n], c);
    }
  }

  predicate WatchedIsStored(h: History) {
    && (h.record.watch.Some? ==> h.record.watch.value.tag in h.watched)
    && (h.copy.Some? && h.copy.value.watch.Some? ==> h.copy.value.watch.value.tag in h.watched)
  }

  lemma {:induction false} StoredIsWatched(events: seq<Event>, c: Config)
    requires AllPossible(events, c)
    ensures WatchedIsStored(Play(events, c))
  {
    if events != [] {
      StoredIsWatched(events[..|events| - 1], c);
    }
  }

  // ----- settled releases are final

  /** Built, unbuilt and unchecked are final for a tag; red stays or leaves, and nothing goes back to watching. */
  predicate MayBecome(from: State, to: State) {
    match from
    case Watching => true
    case Red => to != Watching
    case _ => to == from
  }

  lemma CheckedKeeps(w: Watch, p: Pass, c: Config)
    ensures var v := Checked(w, p, c); v.tag == w.tag && v.told == w.told && MayBecome(w.state, v.state)
  {
  }

  lemma ToldKeeps(w: Watch, told: seq<string>, p: Pass, c: Config)
    requires PossiblePass(p)
    ensures var (v, posted) := Told(w, told, p, c);
            && v.tag == w.tag && v.state == w.state
            && (w.told != "" ==> v.told == w.told && !posted) && (posted ==> v.told != "")
  {
  }

  /** A pass in one line: the watch it works on, the stored one or one of another tag that has told nothing, and the
      one it would store. */
  lemma PassOutcome(h: History, p: Pass, c: Config) returns (from: Watch, w: Watch, posted: bool)
    requires PossiblePass(p) && Taken(h.record.watch, p).Some?
    ensures h.record.watch == Some(from) ||
        (Starts(h.record.watch, p) && from.told == "" && from.tag == p.node.value.tag)
    ensures w.tag == from.tag && MayBecome(from.state, w.state)
    ensures (from.told != "" ==> w.told == from.told && !posted) && (posted ==> w.told != "")
    ensures posted <==> Checked(from, p, c).Untold() && ToldByTheRun(c, h.record.told, from.tag) == "" && p.hook.Posted?
    ensures w.state == Checked(from, p, c).state
    ensures Taken(h.record.watch, p) == Some(from)
    ensures Passed(h, p, c)
         == h.(record := if p.puts then h.record.(watch := Some(w)) else h.record,
               posts := if posted then h.posts + [w.tag] else h.posts,
               lost := if posted && !p.puts then h.lost + [w.tag] else h.lost,
               watched := if p.puts then h.watched + {w.tag} else h.watched)
  {
    from := Taken(h.record.watch, p).value;
    var checked := Checked(from, p, c);
    w, posted := Told(checked, h.record.told, p, c).0, Told(checked, h.record.told, p, c).1;
    CheckedKeeps(from, p, c);
    ToldKeeps(checked, h.record.told, p, c);
  }

  /** One pass keeps the tag and moves its state forward, or starts a tag not watched before. */
  lemma PassMovesForward(h: History, p: Pass, c: Config)
    requires PossiblePass(p) && GoesForward(h, OnePass(p)) && h.record.watch.Some? && WatchedIsStored(h)
    ensures var h' := Passed(h, p, c);
            && h'.record.watch.Some? && h.watched <= h'.watched
            && var from, to := h.record.watch.value, h'.record.watch.value;
               (to.tag == from.tag || to.tag !in h.watched) && (to.tag == from.tag ==> MayBecome(from.state, to.state))
  {
    if Taken(h.record.watch, p).Some? {
      var from, w, posted := PassOutcome(h, p, c);
    }
  }

  /** CheckedAt does not move back, and moves on where the pass changes the tag or the state. */
  predicate MovesInOrder(h: History, h': History) {
    h.record.watch.Some? && h'.record.watch != h.record.watch ==>
      && h'.record.watch.Some?
      && var from, to := h.record.watch.value, h'.record.watch.value;
         && to.checkedAt >= from.checkedAt
         && (to.tag != from.tag || to.state != from.state ==> to.checkedAt > from.checkedAt)
  }

  /** While a sweep holds a copy, CheckedAt moves in order; and tags go forward. */
  ghost predicate OrderlyAt(h: History, event: Event, c: Config)
    requires Possible(event, c)
  {
    (event.OnePass? && h.copy.Some? ==> MovesInOrder(h, Happen(h, event, c))) && GoesForward(h, event)
  }

  ghost predicate Orderly(events: seq<Event>, c: Config)
    requires AllPossible(events, c)
  {
    events == [] ||
    (var n := |events| - 1; Orderly(events[..n], c) && OrderlyAt(Play(events[..n], c), events[n], c))
  }

  /** A clock that goes on is enough: only a read or a new watch changes the tag or the state, and both move CheckedAt
      to the pass's time. */
  lemma LaterPassMovesInOrder(h: History, p: Pass, c: Config)
    requires PossiblePass(p) && (h.record.watch.Some? ==> p.now > h.record.watch.value.checkedAt)
    ensures MovesInOrder(h, Happen(h, OnePass(p), c))
  {
    if Taken(h.record.watch, p).Some? {
      var from, w, posted := PassOutcome(h, p, c);
    }
  }

  /** The copy a sweep holds has the stored watch's tag and state, or is older than it; and it is never newer. */
  predicate CopyAgrees(h: History) {
    h.copy.Some? ==>
      var copy, stored := h.copy.value.watch, h.record.watch;
      || copy == stored
      || (&& stored.Some?
          && (copy.None?
              || stored.value.checkedAt > copy.value.checkedAt
              || (stored.value.checkedAt == copy.value.checkedAt
                  && stored.value.tag == copy.value.tag && stored.value.state == copy.value.state)))
  }

  lemma OrderlyPassAgrees(h: History, p: Pass, c: Config)
    requires PossiblePass(p) && CopyAgrees(h) && (h.copy.Some? ==> MovesInOrder(h, Happen(h, OnePass(p), c)))
    ensures CopyAgrees(Happen(h, OnePass(p), c))
  {
    if Taken(h.record.watch, p).Some? {
      var from, w, posted := PassOutcome(h, p, c);
    }
  }

  lemma {:induction false} OrderlyCopies(events: seq<Event>, c: Config)
    requires AllPossible(events, c) && Orderly(events, c)
    ensures CopyAgrees(Play(events, c))
  {
    if events != [] {
      var n := |events| - 1;
      OrderlyCopies(events[..n], c);
      assert OrderlyAt(Play(events[..n], c), events[n], c);
      if events[n].OnePass? {
        OrderlyPassAgrees(Play(events[..n], c), events[n].p, c);
      }
    }
  }

  /** Over any passes whose tags go forward, whatever posts were refused and retried and whatever sweeps came between:
      a settled state is final, if while a sweep holds a copy the clock that moves CheckedAt goes on. */
  lemma {:induction false} SettledIsFinal(events: seq<Event>, c: Config, m: nat)
    requires AllPossible(events, c) && Orderly(events, c) && m <= |events|
    requires Play(events[..m], c).record.watch.Some?
    ensures var h, h' := Play(events[..m], c), Play(events, c);
            && h'.record.watch.Some? && h.watched <= h'.watched
            && (h'.record.watch.value.tag == h.record.watch.value.tag ==>
                  MayBecome(h.record.watch.value.state, h'.record.watch.value.state))
  {
    if m == |events| {
      assert events[..m] == events;
    } else {
      var n := |events| - 1;
      assert events[..n][..m] == events[..m];
      SettledIsFinal(events[..n], c, m);
      OrderlyCopies(events[..n], c);
      StoredIsWatched(events[..n], c);
      StoredIsWatched(events[..m], c);
      assert OrderlyAt(Play(events[..n], c), events[n], c);
      if events[n].OnePass? {
        PassMovesForward(Play(events[..n], c), events[n].p, c);
      }
    }
  }

  // ----- told once

  function Count(tags: seq<string>, tag: string): nat {
    if tags == [] then 0 else Count(tags[..|tags| - 1], tag) + if tags[|tags| - 1] == tag then 1 else 0
  }

  lemma CountAppend(tags: seq<string>, last: string, tag: string)
    ensures Count(tags + [last], tag) == Count(tags, tag) + if last == tag then 1 else 0
  {
    assert (tags + [last])[..|tags|] == tags;
  }

  lemma {:induction false} CountIsIn(tags: seq<string>, tag: string)
    ensures Count(tags, tag) > 0 <==> tag in tags
  {
    if tags != [] {
      CountIsIn(tags[..|tags| - 1], tag);
      assert tags == tags[..|tags| - 1] + [tags[|tags| - 1]];
    }
  }

  /** The event finds the tag's release unpublished and could post it: a pass that reads it red or unbuilt and whose
      hook posts, or a run that reports it and whose post the channel takes. */
  predicate CouldTell(record: Held, event: Event, c: Config, tag: string)
    requires event.OnePass? ==> PossiblePass(event.p)
  {
    match event
    case OnePass(p) =>
      var taken := Taken(record.watch, p);
      && taken.Some? && p.hook.Posted?
      && var w := Checked(taken.value, p, c);
         w.tag == tag && (w.state == Red || w.state == Unbuilt)
    case Reconciled(r) => r.release.Some? && r.release.value.tag == tag && r.reachable && r.releaseDelivered
    case _ => false
  }

  /** The record still knows, for this path, that the team heard of the tag: a pass looks for the watch's own note and
      for a told sentence that opens with the tag's words; a run leaves the release to the watch where it reads it, and
      looks for its own sentence. */
  predicate Remembers(record: Held, event: Event, c: Config, tag: string) {
    match event
    case OnePass(_) =>
      || (record.watch.Some? && record.watch.value.tag == tag && record.watch.value.told != "")
      || ToldByTheRun(c, record.told, tag) != ""
    case Reconciled(r) => ReleaseWatched(record.watch) || (r.release.Some? && r.release.value.text in record.told)
    case _ => true
  }

  ghost predicate Tells(h: History, event: Event, c: Config, tag: string)
    requires Possible(event, c)
  {
    CouldTell(h.record, event, c, tag) && !Remembers(h.record, event, c, tag)
  }

  lemma PostsExactly(h: History, event: Event, c: Config, tag: string)
    requires Possible(event, c)
    ensures Count(Happen(h, event, c).posts, tag) == Count(h.posts, tag) + if Tells(h, event, c, tag) then 1 else 0
  {
    match event
    case OnePass(p) =>
      if Taken(h.record.watch, p).Some? {
        var from, w, posted := PassOutcome(h, p, c);
        CheckedKeeps(from, p, c);
        CountAppend(h.posts, w.tag, tag);
      }
    case Reconciled(r) =>
      if r.release.Some? {
        CountAppend(h.posts, r.release.value.tag, tag);
      }
    case _ =>
  }

  /** Whenever the tag's unpublished release comes up again after the team heard of it, by either path, the record still
      remembers for that path. */
  ghost predicate AlwaysRemembered(events: seq<Event>, c: Config, tag: string)
    requires AllPossible(events, c)
  {
    events == [] ||
    (var n := |events| - 1;
     AlwaysRemembered(events[..n], c, tag) && !ToldAgain(Play(events[..n], c), events[n], c, tag))
  }

  ghost predicate ToldAgain(h: History, event: Event, c: Config, tag: string)
    requires Possible(event, c)
  {
    tag in h.posts && Tells(h, event, c, tag)
  }

  /** Over any passes, runs, reruns, refused posts, failed writes and sweeps: the team hears of a tag at most once,
      from both paths together, if and only if the record remembers each time the tag comes up again. */
  lemma {:induction false} ToldOnceExactly(events: seq<Event>, c: Config, tag: string)
    requires AllPossible(events, c)
    ensures Count(Play(events, c).posts, tag) <= 1 <==> AlwaysRemembered(events, c, tag)
  {
    if events != [] {
      var n := |events| - 1;
      ToldOnceExactly(events[..n], c, tag);
      PostsExactly(Play(events[..n], c), events[n], c, tag);
      CountIsIn(Play(events[..n], c).posts, tag);
    }
  }

  // ----- when the record forgets

  /** The watch noted the tag and reads it: neither path tells of it. */
  predicate WatchSilences(w: Option<Watch>, tag: string) {
    w.Some? && w.value.tag == tag && w.value.told != "" && w.value.state != Unchecked
  }

  /** Neither path tells of the tag: the watch noted it, or the runs' sentence about it is in the told set. */
  predicate Silenced(record: Held, tag: string, text: string) {
    WatchSilences(record.watch, tag) || text in record.told
  }

  /** The runs speak of the tag in one sentence, and it opens with the words the watch looks for. */
  ghost predicate OneSentence(events: seq<Event>, c: Config, tag: string, text: string) {
    && Opens(c, tag, text)
    && forall i :: 0 <= i < |events| ==> SpeaksAs(events[i], tag, text)
  }

  predicate SpeaksAs(event: Event, tag: string, text: string) {
    event.Reconciled? && event.r.release.Some? && event.r.release.value.tag == tag ==>
        event.r.release.value.text == text
  }

  /** A silenced tag is told again by neither path, and a noted telling silences it. */
  lemma SilencedIsQuiet(h: History, event: Event, c: Config, tag: string, text: string)
    requires Possible(event, c) && Opens(c, tag, text) && SpeaksAs(event, tag, text)
    ensures Silenced(h.record, tag, text) ==> !Tells(h, event, c, tag)
    ensures var h' := Happen(h, event, c);
            Tells(h, event, c, tag) ==>
              Silenced(h'.record, tag, text) || Count(h'.lost, tag) == Count(h.lost, tag) + 1
  {
    match event
    case OnePass(p) =>
      if text in h.record.told {
        var i :| 0 <= i < |h.record.told| && h.record.told[i] == text;
        assert Opens(c, tag, h.record.told[i]);
      }
      if Taken(h.record.watch, p).Some? {
        var from, w, posted := PassOutcome(h, p, c);
        CheckedKeeps(from, p, c);
        CountAppend(h.lost, w.tag, tag);
      }
    case Reconciled(r) =>
      if r.release.Some? && !ReleaseWatched(h.record.watch) {
        var msgs, delivers := MessagesOf(h.record.watch, r), DeliversOf(h.record.watch, r);
        assert msgs[|r.msgs|] == Completions.FindingMessage(r.release.value.text) &&
            delivers[|r.msgs|] == r.releaseDelivered;
        Completions.ToldExactly(h.record.told, msgs, delivers, r.release.value.text);
        CountAppend(h.lost, r.release.value.tag, tag);
      }
    case _ =>
  }

  /** A write loses nothing of what was lost before. */
  lemma LostGrows(h: History, event: Event, c: Config, tag: string)
    requires Possible(event, c)
    ensures Count(Happen(h, event, c).lost, tag) >= Count(h.lost, tag)
  {
    match event
    case OnePass(p) =>
      if Taken(h.record.watch, p).Some? {
        var from, w, posted := PassOutcome(h, p, c);
        CountAppend(h.lost, w.tag, tag);
      }
    case Reconciled(r) =>
      if r.release.Some? {
        CountAppend(h.lost, r.release.value.tag, tag);
      }
    case _ =>
  }

  /** How often the record forgot the tag. */
  ghost function Lapses(events: seq<Event>, c: Config, tag: string, text: string): nat
    requires AllPossible(events, c)
  {
    if events == [] then 0
    else
      var h := Play(events[..|events| - 1], c);
      Lapses(events[..|events| - 1], c, tag, text) + if Forgets(h, events[|events| - 1], c, tag, text) then 1 else 0
  }

  ghost predicate Forgets(h: History, event: Event, c: Config, tag: string, text: string)
    requires Possible(event, c)
  {
    Silenced(h.record, tag, text) && !Silenced(Happen(h, event, c).record, tag, text)
  }

  /** Over any history, both paths together post a tag at most once more than its posts went unnoted because the store
      refused the record, and than the record forgot the tag. */
  lemma {:induction false} ToldOnce(events: seq<Event>, c: Config, tag: string, text: string)
    requires AllPossible(events, c) && OneSentence(events, c, tag, text)
    ensures var h := Play(events, c);
            Count(h.posts, tag)
            <= Count(h.lost, tag) + Lapses(events, c, tag, text) + if Silenced(h.record, tag, text) then 1 else 0
  {
    if events != [] {
      var n := |events| - 1;
      var before, last := events[..n], events[n];
      assert OneSentence(before, c, tag, text) by {
        assert forall i :: 0 <= i < n ==> before[i] == events[i];
      }
      ToldOnce(before, c, tag, text);
      var h := Play(before, c);
      assert SpeaksAs(last, tag, text);
      PostsExactly(h, last, c, tag);
      SilencedIsQuiet(h, last, c, tag, text);
      LostGrows(h, last, c, tag);
    }
  }

  /** What makes the record forget a tag, exactly: a pass that moves the watch to another tag, or finds the tag's
      project out of reach, while the runs' sentence is not in the told set; a run that tells without that sentence and
      so replaces the told set before the watch noted the tag; and a sweep that writes a copy back from before both
      notes. */
  lemma ForgetsExactly(h: History, event: Event, c: Config, tag: string, text: string)
    requires Possible(event, c) && Opens(c, tag, text) && Silenced(h.record, tag, text)
    ensures Forgets(h, event, c, tag, text) <==>
              match event
              case OnePass(p) =>
                && text !in h.record.told && p.puts && Taken(h.record.watch, p).Some?
                && var w := Checked(Taken(h.record.watch, p).value, p, c); w.tag != tag || w.state == Unchecked
              case Reconciled(r) =>
                && !WatchSilences(h.record.watch, tag) && Telling(h.record.watch, r) && r.noted
                && (ReleaseWatched(h.record.watch) || r.release.None? || r.release.value.text != text)
              case SweepWrites =>
                && h.copy.Some? && text !in h.copy.value.told
                && !WatchSilences(KeepRelease(h.copy.value.watch, h.record.watch), tag)
              case SweepReads => false
  {
    match event
    case OnePass(p) =>
      if Taken(h.record.watch, p).Some? {
        var from, w, posted := PassOutcome(h, p, c);
        CheckedKeeps(from, p, c);
      }
    case Reconciled(r) =>
      var msgs, delivers := MessagesOf(h.record.watch, r), DeliversOf(h.record.watch, r);
      if Telling(h.record.watch, r) {
        Completions.ToldExactly(h.record.told, msgs, delivers, text);
        if Completions.Says(msgs, text) {
          SaidByTheRelease(h.record.watch, r, c, tag, text);
        } else if r.release.Some? && !ReleaseWatched(h.record.watch) {
          assert msgs[|r.msgs|] == Completions.FindingMessage(r.release.value.text);
        }
      }
    case _ =>
  }

  lemma SaidByTheRelease(w: Option<Watch>, r: RunNews, c: Config, tag: string, text: string)
    requires PossibleRun(r, c) && Opens(c, tag, text) && Completions.Says(MessagesOf(w, r), text)
    ensures r.release.Some? && !ReleaseWatched(w) && r.release.value.text == text
  {
    assert Completions.FindingMessage(text) !in r.msgs;
  }

  // ----- the watch alone

  /** No run speaks of the tag. */
  ghost predicate LeftToTheWatch(events: seq<Event>, tag: string) {
    forall i :: 0 <= i < |events| ==> !Reports(events[i], tag)
  }

  predicate Reports(event: Event, tag: string) {
    event.Reconciled? && event.r.release.Some? && event.r.release.value.tag == tag
  }

  /** How often a tag may have been posted and noted: not before it is watched, nor while its watch has told nothing. */
  function Allowed(h: History, tag: string): nat {
    if tag !in h.watched || (h.record.watch.Some? && h.record.watch.value.tag == tag && h.record.watch.value.told == "")
    then 0 else 1
  }

  lemma PassTellsOnce(h: History, p: Pass, c: Config, tag: string)
    requires PossiblePass(p) && WatchedIsStored(h) && GoesForward(h, OnePass(p))
    requires Count(h.posts, tag) <= Count(h.lost, tag) + Allowed(h, tag)
    ensures var h' := Passed(h, p, c);
            Count(h'.posts, tag) <= Count(h'.lost, tag) + Allowed(h', tag)
  {
    if Taken(h.record.watch, p).Some? {
      var from, w, posted := PassOutcome(h, p, c);
      CountAppend(h.posts, w.tag, tag);
      CountAppend(h.lost, w.tag, tag);
    }
  }

  /** A tag the runs leave to the watch, with careful passes: posted at most once more than its posts went unnoted,
      whatever reruns, refused posts and sweeps come, and though it goes out of reach in between. */
  lemma {:induction false} WatchTellsOnce(events: seq<Event>, c: Config, tag: string)
    requires AllPossible(events, c) && Careful(events, c) && LeftToTheWatch(events, tag)
    ensures var h := Play(events, c);
            Count(h.posts, tag) <= Count(h.lost, tag) + Allowed(h, tag) <= Count(h.lost, tag) + 1
  {
    if events != [] {
      var n := |events| - 1;
      var before, last := events[..n], events[n];
      assert LeftToTheWatch(before, tag) by {
        assert forall i :: 0 <= i < n ==> before[i] == events[i];
      }
      WatchTellsOnce(before, c, tag);
      StoredIsWatched(before, c);
      var h := Play(before, c);
      assert CarefulAt(h, last, c) && !Reports(last, tag);
      if last.SweepWrites? {
        SweepsKeepTheWatch(before, c);
      }
      WatchTellsStep(h, last, c, tag);
    }
  }

  lemma WatchTellsStep(h: History, event: Event, c: Config, tag: string)
    requires Possible(event, c) && WatchedIsStored(h) && GoesForward(h, event) && !Reports(event, tag)
    requires event.SweepWrites? ==> Happen(h, event, c).record.watch == h.record.watch
    requires Count(h.posts, tag) <= Count(h.lost, tag) + Allowed(h, tag)
    ensures var h' := Happen(h, event, c); Count(h'.posts, tag) <= Count(h'.lost, tag) + Allowed(h', tag)
  {
    match event
    case OnePass(p) =>
      PassTellsOnce(h, p, c, tag);
    case Reconciled(r) =>
      if r.release.Some? {
        CountAppend(h.posts, r.release.value.tag, tag);
        CountAppend(h.lost, r.release.value.tag, tag);
      }
    case _ =>
  }

  // ----- inputs at which the team hears of a tag twice

  lemma PlayAppend(events: seq<Event>, event: Event, c: Config)
    requires AllPossible(events, c) && Possible(event, c)
    ensures AllPossible(events + [event], c)
    ensures Play(events + [event], c) == Happen(Play(events, c), event, c)
  {
    var all := events + [event];
    assert all[..|events|] == events && all[|events|] == event;
    assert forall i :: 0 <= i < |events| ==> all[i] == events[i];
  }

  lemma PlayTwo(e1: Event, e2: Event, c: Config)
    requires Possible(e1, c) && Possible(e2, c)
    ensures AllPossible([e1, e2], c) && Play([e1, e2], c) == Happen(Happen(START, e1, c), e2, c)
  {
    PlayAppend([], e1, c);
    PlayAppend([e1], e2, c);
    assert [] + [e1] == [e1] && [e1] + [e2] == [e1, e2];
  }

  lemma PlayThree(e1: Event, e2: Event, e3: Event, c: Config)
    requires Possible(e1, c) && Possible(e2, c) && Possible(e3, c)
    ensures AllPossible([e1, e2, e3], c)
    ensures Play([e1, e2, e3], c) == Happen(Happen(Happen(START, e1, c), e2, c), e3, c)
  {
    PlayTwo(e1, e2, c);
    PlayAppend([e1, e2], e3, c);
    assert [e1, e2] + [e3] == [e1, e2, e3];
  }

  /** A history that posts the tag twice though every note was stored. */
  ghost predicate TwiceThoughNoted(events: seq<Event>, c: Config, tag: string) {
    AllPossible(events, c) && Count(Play(events, c).posts, tag) == 2 && Play(events, c).lost == []
  }

  lemma CountTwo(tag: string)
    ensures Count([tag, tag], tag) == 2
  {
    assert [tag, tag][..1] == [tag] && Count([tag], tag) == 1;
  }

  const PIPELINE := Pipeline(7, "https://circleci.example/7", "")

  function PassOn(tag: string, answer: Answer): Pass {
    Pass(1000, true, Some(Node(tag, 900)), false, "", answer, Posted("the release is not published"), true)
  }

  const MOVING := Found(PIPELINE, true, [], false)
  const FAILED := Found(PIPELINE, true, ["build"], false)

  /** The watches such passes leave: moving, red and told, out of reach. */
  function MovingWatch(tag: string): Watch {
    Watch(tag, 900, Watching, Some(PIPELINE), [], "", 1000, None, "")
  }

  function RedWatch(tag: string): Watch {
    Watch(tag, 900, Red, Some(PIPELINE), ["build"], "", 1000, Some(1000), "the release is not published")
  }

  lemma MovingPassWatches(h: History, tag: string, c: Config)
    requires h.record.watch.None? || h.record.watch.value.tag != tag
    ensures Passed(h, PassOn(tag, MOVING), c)
         == h.(record := h.record.(watch := Some(MovingWatch(tag))), watched := h.watched + {tag})
  {
  }

  lemma FailedPassTells(h: History, tag: string, c: Config)
    requires h.record.watch.None? || h.record.watch.value.tag != tag || h.record.watch.value == MovingWatch(tag)
    requires ToldByTheRun(c, h.record.told, tag) == ""
    ensures Passed(h, PassOn(tag, FAILED), c)
         == h.(record := h.record.(watch := Some(RedWatch(tag))), posts := h.posts + [tag], watched := h.watched +
             {tag})
  {
  }

  lemma UnknownPassUnchecks(h: History, tag: string, c: Config)
    requires h.record.watch == Some(RedWatch(tag))
    ensures var h' := Passed(h, PassOn(tag, NotKnown), c);
            && h'.record.watch.Some? && h'.record.watch.value.state == Unchecked
            && h' == h.(record := h'.record, watched := h'.watched) && h'.record.told == h.record.told
  {
  }

  /** A run that tells of an edit and reports the release, delivered and noted. */
  function RunOn(news: News): RunNews {
    RunNews([Completions.ChangeMessage("an edit")], Some(news), true, [true], true, true)
  }

  /** The runs' sentence is forgotten before the watch settles: a run told of the tag before there was a watch; the
      watch starts, so the next run leaves the release step to it and replaces the told set without the sentence; the
      watch then settles the tag and tells it again. */
  lemma SecondRunTellsTwice(c: Config, news: News)
    requires PossibleRun(RunOn(news), c) && Opens(c, news.tag, news.text)
    ensures TwiceThoughNoted([Reconciled(RunOn(news)), OnePass(PassOn(news.tag, MOVING)), Reconciled(RunOn(news)),
                              OnePass(PassOn(news.tag, FAILED))], c, news.tag)
  {
    var e1, e2, e3 := Reconciled(RunOn(news)), OnePass(PassOn(news.tag, MOVING)), OnePass(PassOn(news.tag, FAILED));
    var h1 := Happen(START, e1, c);
    FirstRunTells(c, news);
    MovingPassWatches(h1, news.tag, c);
    var h2 := Happen(h1, e2, c);
    WatchedRunDrops(h2, news);
    var h3 := Happen(h2, e1, c);
    FailedPassTells(h3, news.tag, c);
    assert [news.tag] + [news.tag] == [news.tag, news.tag];
    PlayThree(e1, e2, e1, c);
    PlayAppend([e1, e2, e1], e3, c);
    assert [e1, e2, e1] + [e3] == [e1, e2, e1, e3];
    CountTwo(news.tag);
  }

  lemma FirstRunTells(c: Config, news: News)
    requires PossibleRun(RunOn(news), c)
    ensures var h := Happen(START, Reconciled(RunOn(news)), c);
            h == START.(record := Held(None, [news.text]), posts := [news.tag])
  {
    var r := RunOn(news);
    var msgs, delivers := MessagesOf(None, r), DeliversOf(None, r);
    assert msgs[..1] == r.msgs && delivers[..1] == r.delivers && msgs[1] == Completions.FindingMessage(news.text);
    assert r.msgs[..0] == [] && r.delivers[..0] == [];
    assert Completions.ToldAfter([], r.msgs, r.delivers) == [];
    assert Completions.ToldAfter([], msgs, delivers) == [news.text];
  }

  lemma WatchedRunDrops(h: History, news: News)
    requires ReleaseWatched(h.record.watch)
    ensures ToldTheTeam(h, RunOn(news)) == h.(record := h.record.(told := []))
  {
    var r := RunOn(news);
    assert r.msgs[..0] == [];
    assert Completions.ToldAfter(h.record.told, r.msgs, r.delivers) == [];
  }

  lemma UnwatchedRunTells(h: History, news: News)
    requires !ReleaseWatched(h.record.watch) && news.text !in h.record.told
    ensures var h' := ToldTheTeam(h, RunOn(news)); h'.posts == h.posts + [news.tag] && h'.lost == h.lost
  {
  }

  /** The sentence of a red release read from the commit's statuses. */
  function StatusesSentence(c: Config, tag: string): string {
    c.name + ": the tag pipeline of " + c.repository + " " + tag + " failed in build"
  }

  lemma StatusesSentenceNeverOpens(c: Config, tag: string, other: string)
    ensures !Opens(c, other, StatusesSentence(c, tag))
  {
    assert StatusesSentence(c, tag)[|c.name| + 2] == 't';
    assert Opening(c, other)[|c.name| + 2] == 'r';
  }

  /** The watch does not take every sentence for one about the tag: a run that told the red release in the words of the
      commit's statuses is not recognised, and the watch tells it again, at once. */
  lemma StatusesSentenceTellsTwice(c: Config, tag: string)
    ensures TwiceThoughNoted([Reconciled(RunOn(News(StatusesSentence(c, tag), tag))), OnePass(PassOn(tag, FAILED))],
                             c, tag)
  {
    var news := News(StatusesSentence(c, tag), tag);
    forall other ensures !Opens(c, other, news.text) {
      StatusesSentenceNeverOpens(c, tag, other);
    }
    var e1, e2 := Reconciled(RunOn(news)), OnePass(PassOn(tag, FAILED));
    FirstRunTells(c, news);
    var h1 := Happen(START, e1, c);
    assert ToldByTheRun(c, h1.record.told, tag) == "" by {
      StatusesSentenceNeverOpens(c, tag, tag);
    }
    FailedPassTells(h1, tag, c);
    assert [tag] + [tag] == [tag, tag];
    PlayTwo(e1, e2, c);
    CountTwo(tag);
  }

  /** A release the watch told red and then lost from its reach is the runs' news again: the next run that reports it
      tells it a second time. */
  lemma UncheckedReleaseTellsTwice(c: Config, news: News)
    requires PossibleRun(RunOn(news), c)
    ensures TwiceThoughNoted([OnePass(PassOn(news.tag, FAILED)), OnePass(PassOn(news.tag, NotKnown)),
                              Reconciled(RunOn(news))], c, news.tag)
  {
    var e1, e2, e3 := OnePass(PassOn(news.tag, FAILED)), OnePass(PassOn(news.tag, NotKnown)), Reconciled(RunOn(news));
    FailedPassTells(START, news.tag, c);
    var h1 := Happen(START, e1, c);
    UnknownPassUnchecks(h1, news.tag, c);
    UnwatchedRunTells(Happen(h1, e2, c), news);
    assert [] + [news.tag] == [news.tag] && [news.tag] + [news.tag] == [news.tag, news.tag];
    PlayThree(e1, e2, e3, c);
    CountTwo(news.tag);
  }

  function RefusedPass(tag: string): Event {
    OnePass(PassOn(tag, NoPipeline).(hook := Retry, rereads := true))
  }

  function DeliveredPass(tag: string): Event {
    OnePass(PassOn(tag, NoPipeline).(rereads := true, now := 1300, hook := Posted("no pipeline")))
  }

  lemma BeforeTheSweepWrites(c: Config, tag: string)
    requires c.grace <= 100
    ensures var events := [RefusedPass(tag), SweepReads, DeliveredPass(tag)];
            && AllPossible(events, c) && AllPossible(events[..2], c)
            && Play(events[..2], c).record == Held(Some(Untold(tag)), [])
            && Play(events, c) == History(Held(Some(Untold(tag).(told := "no pipeline")), []),
                                          Some(Held(Some(Untold(tag)), [])), [tag], [], {tag})
  {
    var e1, e3 := RefusedPass(tag), DeliveredPass(tag);
    var h1 := Happen(START, e1, c);
    assert h1 == History(Held(Some(Untold(tag)), []), None, [], [], {} + {tag});
    var h2 := Happen(h1, SweepReads, c);
    RereadTells(h2, tag, c, 1300);
    PlayTwo(e1, SweepReads, c);
    PlayThree(e1, SweepReads, e3, c);
    assert [e1, SweepReads, e3][..2] == [e1, SweepReads];
    assert {} + {tag} + {tag} == {tag} && [] + [tag] == [tag];
  }

  /** An unbuilt release whose first post was refused is told by a later pass that only re-reads the release: CheckedAt
      stays, a sweep's copy from before is as new as the stored watch and is written over it, and the team hears it
      again. */
  lemma UnmovedCheckedAtTellsTwice(c: Config, tag: string)
    requires c.grace <= 100
    ensures var events := [RefusedPass(tag), SweepReads, DeliveredPass(tag), SweepWrites, DeliveredPass(tag)];
            && TwiceThoughNoted(events, c, tag)
            && events[2].OnePass? && !MovesChecked(Play(events[..2], c), Play(events[..3], c))
  {
    var e1, e3 := RefusedPass(tag), DeliveredPass(tag);
    var three := [e1, SweepReads, e3];
    BeforeTheSweepWrites(c, tag);
    var h4 := Happen(Play(three, c), SweepWrites, c);
    assert h4 == History(Held(Some(Untold(tag)), []), None, [tag], [], {tag});
    RereadTells(h4, tag, c, 1300);
    PlayAppend(three, SweepWrites, c);
    PlayAppend(three + [SweepWrites], e3, c);
    var events := [e1, SweepReads, e3, SweepWrites, e3];
    assert three + [SweepWrites] + [e3] == events && events[..3] == three && events[..2] == three[..2];
    assert [tag] + [tag] == [tag, tag];
    CountTwo(tag);
  }

  /** An unbuilt release nobody was told of. */
  function Untold(tag: string): Watch {
    Watch(tag, 900, Unbuilt, None, [], "", 1000, Some(1000), "")
  }

  /** A pass that only re-reads it tells it, and leaves CheckedAt. */
  lemma RereadTells(h: History, tag: string, c: Config, now: Time)
    requires h.record == Held(Some(Untold(tag)), [])
    ensures var p := PassOn(tag, NoPipeline).(rereads := true, now := now, hook := Posted("no pipeline"));
            Passed(h, p, c)
            == h.(record := Held(Some(Untold(tag).(told := "no pipeline")), []), posts := h.posts + [tag],
                  watched := h.watched + {tag})
  {
  }

  /** A tag that comes back, its successor's release removed, starts a new watch and is told a second time. */
  lemma ReturningTagTellsTwice(c: Config, tag: string, other: string)
    requires tag != other
    ensures TwiceThoughNoted([OnePass(PassOn(tag, FAILED)), OnePass(PassOn(other, MOVING)),
                              OnePass(PassOn(tag, FAILED))], c, tag)
  {
    var e1, e2 := OnePass(PassOn(tag, FAILED)), OnePass(PassOn(other, MOVING));
    FailedPassTells(START, tag, c);
    var h1 := Happen(START, e1, c);
    MovingPassWatches(h1, other, c);
    FailedPassTells(Happen(h1, e2, c), tag, c);
    assert [] + [tag] == [tag] && [tag] + [tag] == [tag, tag];
    PlayThree(e1, e2, e1, c);
    CountTwo(tag);
  }
}
