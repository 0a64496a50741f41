/**
The jobs of a repository's CircleCI declaration and the filters that decide which refs run them.
*/
module CIJobs {
  import opened Common

  /** The regular-expression engine: whether the expression, without its slashes, matches a ref. */
  type Regex = (string, string) -> bool

  /** The expressions the generated pipeline writes to shut out every branch match every branch name. */
  ghost predicate CatchAllMatches(re: Regex) {
    forall ref :: ref != "" ==> re(".*", ref) && re(".+", ref) && re("^.*$", ref) && re("^.+$", ref)
  }

  predicate IsSpace(c: char) {
    c == ' ' || c == '\t' || c == '\n' || c == '\r'
  }

  function TrimLeft(s: string): string {
    if s != "" && IsSpace(s[0]) then TrimLeft(s[1..]) else s
  }

  function TrimRight(s: string): string {
    if s != "" && IsSpace(s[|s| - 1]) then TrimRight(s[..|s| - 1]) else s
  }

  function TrimSpace(s: string): string {
    TrimRight(TrimLeft(s))
  }

  const CIRCLECI_CONTEXT := "ci/circleci:"

  /** The job a status context names. */
  function JobOf(context: string): string {
    TrimSpace(if CIRCLECI_CONTEXT <= context then context[|CIRCLECI_CONTEXT|..] else context)
  }

  /** One pattern of a filter: an expression between slashes, else a ref's name. */
  predicate Matches(pattern: string, ref: string, re: Regex) {
    var p := TrimSpace(pattern);
    if |p| >= 2 && p[0] == '/' && p[|p| - 1] == '/' then re(p[1..|p| - 1], ref) else p == ref
  }

  predicate MatchesAny(patterns: seq<string>, ref: string, re: Regex) {
    exists i :: 0 <= i < |patterns| && Matches(patterns[i], ref, re)
  }

  /** The patterns that shut out every branch. */
  predicate IsCatchAll(pattern: string) {
    var p := TrimSpace(pattern);
    p == "/.*/" || p == "/.+/" || p == "/^.*$/" || p == "/^.+$/"
  }

  datatype CIJob = CIJob(name: string, branchesOnly: seq<string>, branchesIgnore: seq<string>, tagsOnly: seq<string>,
      tagsIgnore: seq<string>)
  {
    predicate RunsOnBranch(branch: string, re: Regex) {
      && (branchesOnly == [] || MatchesAny(branchesOnly, branch, re))
      && !MatchesAny(branchesIgnore, branch, re)
    }

    predicate RunsOnTag(tag: string, re: Regex) {
      tagsOnly != [] && MatchesAny(tagsOnly, tag, re) && !MatchesAny(tagsIgnore, tag, re)
    }

    /** Some branch pipeline may run the job, as far as its filters say without a ref. */
    predicate RunsOnBranches() {
      branchesOnly != [] || forall i :: 0 <= i < |branchesIgnore| ==> !IsCatchAll(branchesIgnore[i])
    }
  }

  /** The names of the jobs that run on the tag and not on the branch. */
  function TagOnly(jobs: seq<CIJob>, tag: string, branch: string, re: Regex): seq<string> {
    if jobs == [] then []
    else TagOnly(jobs[..|jobs| - 1], tag, branch, re) +
         (var j := jobs[|jobs| - 1]; if j.RunsOnTag(tag, re) && !j.RunsOnBranch(branch, re) then [j.name] else [])
  }

  /** One of the contexts names one of the jobs. */
  predicate Reported(contexts: seq<string>, names: seq<string>) {
    exists i, k :: 0 <= i < |contexts| && 0 <= k < |names| && JobOf(contexts[i]) == names[k]
  }

  method MatchesAnyRef(patterns: seq<string>, ref: string, re: Regex) returns (b: bool)
    ensures b <==> MatchesAny(patterns, ref, re)
  {
    for i := 0 to |patterns|
      invariant forall k :: 0 <= k < i ==> !Matches(patterns[k], ref, re)
    {
      if Matches(patterns[i], ref, re) {
        return true;
      }
    }
    return false;
  }

  /** The loop that decides whether some branch pipeline runs the job. */
  method OpenToBranches(job: CIJob) returns (b: bool)
    ensures b <==> job.RunsOnBranches()
  {
    if |job.branchesOnly| > 0 {
      return true;
    }
    for i := 0 to |job.branchesIgnore|
      invariant forall k :: 0 <= k < i ==> !IsCatchAll(job.branchesIgnore[k])
    {
      if IsCatchAll(job.branchesIgnore[i]) {
        return false;
      }
    }
    return true;
  }

  method TagOnlyNames(jobs: seq<CIJob>, tag: string, branch: string, re: Regex) returns (out: seq<string>)
    ensures out == TagOnly(jobs, tag, branch, re)
  {
    out := [];
    for i := 0 to |jobs|
      invariant out == TagOnly(jobs[..i], tag, branch, re)
    {
      assert jobs[..i + 1][..i] == jobs[..i];
      if jobs[i].RunsOnTag(tag, re) && !jobs[i].RunsOnBranch(branch, re) {
        out := out + [jobs[i].name];
      }
    }
    assert jobs[..|jobs|] == jobs;
  }

  method AnyReported(contexts: seq<string>, names: seq<string>) returns (b: bool)
    ensures b <==> Reported(contexts, names)
  {
    for i := 0 to |contexts|
      invariant forall l, k :: 0 <= l < i && 0 <= k < |names| ==> JobOf(contexts[l]) != names[k]
    {
      for k := 0 to |names|
        invariant forall m :: 0 <= m < k ==> JobOf(contexts[i]) != names[m]
      {
        if JobOf(contexts[i]) == names[k] {
          return true;
        }
      }
    }
    return false;
  }

  /** A pattern between slashes is an expression, any other the ref's own name; spaces around it do not count. */
  lemma PatternMeans(pattern: string, ref: string, re: Regex)
    requires pattern != "" && !IsSpace(pattern[0]) && !IsSpace(pattern[|pattern| - 1])
    ensures !('/' in pattern) ==> (Matches(pattern, ref, re) <==> pattern == ref)
    ensures Matches("/" + pattern + "/", ref, re) <==> re(pattern, ref)
    ensures Matches(" " + pattern, ref, re) <==> Matches(pattern, ref, re)
  {
    var slashed := "/" + pattern + "/";
    assert slashed[1..|slashed| - 1] == pattern;
    assert (" " + pattern)[1..] == pattern;
  }

  /** What the filters of a job mean, ref by ref: without a filter a job runs on every branch and on no tag; a tag or a
      branch filter opens the job to exactly the refs it matches; an ignored ref is shut out in any case. */
  lemma FiltersMean(job: CIJob, ref: string, re: Regex)
    ensures job.branchesOnly == job.branchesIgnore == [] ==> job.RunsOnBranch(ref, re)
    ensures job.tagsOnly == [] ==> !job.RunsOnTag(ref, re)
    ensures (exists p :: p in job.tagsIgnore && Matches(p, ref, re)) ==> !job.RunsOnTag(ref, re)
    ensures (exists p :: p in job.branchesIgnore && Matches(p, ref, re)) ==> !job.RunsOnBranch(ref, re)
    ensures job.tagsIgnore == [] ==> (job.RunsOnTag(ref, re) <==> exists p :: p in job.tagsOnly && Matches(p, ref, re))
    ensures job.branchesOnly != [] && job.branchesIgnore == [] ==>
              (job.RunsOnBranch(ref, re) <==> exists p :: p in job.branchesOnly && Matches(p, ref, re))
    ensures job.RunsOnTag(ref, re) <==> job.(tagsIgnore := []).RunsOnTag(ref, re) &&
                                        !exists p :: p in job.tagsIgnore && Matches(p, ref, re)
    ensures job.RunsOnBranch(ref, re) <==> job.(branchesIgnore := []).RunsOnBranch(ref, re) &&
                                           !exists p :: p in job.branchesIgnore && Matches(p, ref, re)
  {
    SomeMatches(job.tagsOnly, ref, re);
    SomeMatches(job.tagsIgnore, ref, re);
    SomeMatches(job.branchesOnly, ref, re);
    SomeMatches(job.branchesIgnore, ref, re);
  }

  lemma SomeMatches(patterns: seq<string>, ref: string, re: Regex)
    ensures MatchesAny(patterns, ref, re) <==> exists p :: p in patterns && Matches(p, ref, re)
  {
    if exists p :: p in patterns && Matches(p, ref, re) {
      var p :| p in patterns && Matches(p, ref, re);
      var i :| 0 <= i < |patterns| && patterns[i] == p;
    }
  }

  /** A status of a job names the job, with or without CircleCI's prefix. */
  lemma JobIsNamed(job: string)
    requires job != "" && !IsSpace(job[0]) && !IsSpace(job[|job| - 1]) && !(CIRCLECI_CONTEXT <= job)
    ensures JobOf(CIRCLECI_CONTEXT + (" " + job)) == job && JobOf(job) == job
  {
    var context := CIRCLECI_CONTEXT + (" " + job);
    assert context[..|CIRCLECI_CONTEXT|] == CIRCLECI_CONTEXT && context[|CIRCLECI_CONTEXT|..] == " " + job;
    assert (" " + job)[0] == ' ' && (" " + job)[1..] == job;
    assert TrimLeft(" " + job) == TrimLeft(job) == job && TrimRight(job) == job;
  }

  /** A job some branch's pipeline runs is one the filters leave open to branches: the catch-all patterns really
      shut every branch out. */
  lemma BranchJobIsOpen(job: CIJob, branch: string, re: Regex)
    requires CatchAllMatches(re) && branch != "" && job.RunsOnBranch(branch, re)
    ensures job.RunsOnBranches()
  {
    if job.branchesOnly == [] {
      forall i | 0 <= i < |job.branchesIgnore|
        ensures !IsCatchAll(job.branchesIgnore[i])
      {
        if IsCatchAll(job.branchesIgnore[i]) {
          CatchAllShutsOut(job.branchesIgnore, i, branch, re);
        }
      }
    }
  }

  lemma CatchAllShutsOut(patterns: seq<string>, i: nat, ref: string, re: Regex)
    requires CatchAllMatches(re) && ref != "" && i < |patterns| && IsCatchAll(patterns[i])
    ensures MatchesAny(patterns, ref, re)
  {
    CatchAllMatch(TrimSpace(patterns[i]), ref, re);
    assert Matches(patterns[i], ref, re);
  }

  lemma CatchAllMatch(p: string, ref: string, re: Regex)
    requires CatchAllMatches(re) && ref != ""
    requires p == "/.*/" || p == "/.+/" || p == "/^.*$/" || p == "/^.+$/"
    ensures |p| >= 2 && p[0] == '/' && p[|p| - 1] == '/' && re(p[1..|p| - 1], ref)
  {
    assert "/.*/"[1..3] == ".*" && "/.+/"[1..3] == ".+";
    assert "/^.*$/"[1..5] == "^.*$" && "/^.+$/"[1..5] == "^.+$";
  }

  /** A name is tag-only exactly when one use of it runs on the tag and not on the branch. */
  lemma {:induction false} TagOnlyNamesUses(jobs: seq<CIJob>, tag: string, branch: string, re: Regex, name: string)
    ensures name in TagOnly(jobs, tag, branch, re) <==>
              exists j :: j in jobs && j.name == name && j.RunsOnTag(tag, re) && !j.RunsOnBranch(branch, re)
  {
    if jobs != [] {
      var front, last := jobs[..|jobs| - 1], jobs[|jobs| - 1];
      TagOnlyNamesUses(front, tag, branch, re, name);
      assert jobs == front + [last];
      if name in TagOnly(front, tag, branch, re) {
        var j :| j in front && j.name == name && j.RunsOnTag(tag, re) && !j.RunsOnBranch(branch, re);
        assert j in jobs;
      }
    }
  }
}
