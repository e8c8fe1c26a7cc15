/**
 * The fast-forward pull of src/git_utils.cpp (try_pull, perform_reset and
 * resolve_target_oid), over an abstract repository: HEAD, the working tree and
 * the remote-tracking references. What libgit2 answers is a parameter.
 */
module GitPull {
  import opened Basics

  type Oid = nat

  const CODE_OK := 0
  const CODE_FAILED := 2
  const CODE_DIRTY := 3
  const CODE_TIMEOUT := 4
  const CODE_RATE_LIMIT := 5

  /** The working tree: what the files hold, and whether `git status` lists anything. */
  datatype Work = Work(files: nat, dirty: bool)

  /** A repository on disk; `head` is None when HEAD does not resolve. */
  datatype Tree = Tree(head: Option<Oid>, work: Work, refs: map<string, Oid>)

  /** One git_remote_fetch: the new remote-tracking references, or libgit2's error text if it has one. */
  datatype FetchReply = Fetched(refs: map<string, Oid>) | Refused(text: Option<string>)

  /** Everything libgit2 answers during one try_pull. */
  datatype GitReplies = GitReplies(
    opens: bool,
    branch: Option<string>,
    hasRemote: bool,
    first: FetchReply,
    second: FetchReply,
    revisions: map<string, Oid>,   // spellings that parse and peel to a commit, after the fetch
    hex: Option<Oid>,              // the target read as an object id prefix
    commits: set<Oid>,             // ids that look up as commits
    resets: bool,
    resetWork: Work)               // the working tree a successful hard reset leaves

  datatype PullResult = PullResult(code: int, tree: Tree)

  // ---------------------------------------------------------------- error texts

  function LowerChar(c: char): char {
    if 'A' <= c <= 'Z' then (c as int + 32) as char else c
  }

  function Lower(s: string): string {
    if s == "" then "" else [LowerChar(s[0])] + Lower(s[1..])
  }

  predicate Contains(s: string, part: string) {
    exists i :: 0 <= i <= |s| - |part| && OccursAt(s, part, i)
  }

  predicate OccursAt(s: string, part: string, i: nat) {
    i + |part| <= |s| && s[i..i + |part|] == part
  }

  predicate StartsWith(s: string, prefix: string) {
    prefix <= s
  }

  predicate SaysRateLimit(lower: string) {
    Contains(lower, "rate limit") || Contains(lower, "429")
  }

  predicate SaysTimeout(lower: string) {
    Contains(lower, "timed out") || Contains(lower, "timeout")
  }

  function FetchMessage(text: Option<string>): string {
    Lower(text.GetOr("Fetch failed"))
  }

  /** A timeout outranks a rate limit when one text names both. */
  function ErrorCode(lower: string): int {
    if SaysTimeout(lower) then CODE_TIMEOUT
    else if SaysRateLimit(lower) then CODE_RATE_LIMIT
    else CODE_FAILED
  }

  predicate AuthFailure(first: FetchReply) {
    first.Refused? && first.text.Some? && Contains(first.text.value, "auth")
  }

  // ---------------------------------------------------------------- what a pull means

  datatype FetchOutcome = Ready(refs: map<string, Oid>) | Failed(code: int)

  predicate RateLimited(reply: FetchReply) {
    reply.Refused? && SaysRateLimit(FetchMessage(reply.text))
  }

  predicate TimedOut(reply: FetchReply) {
    reply.Refused? && SaysTimeout(FetchMessage(reply.text))
  }

  /** The reply that decides: the second one exactly after a rate limit, even one that also names a timeout. */
  function Decisive(first: FetchReply, second: FetchReply): FetchReply {
    if RateLimited(first) then second else first
  }

  /** A refused fetch is repeated once, and only when its text names a rate limit. */
  function FetchTwice(first: FetchReply, second: FetchReply): (r: FetchOutcome)
    ensures r.Ready? <==> Decisive(first, second).Fetched?
    ensures r.Ready? ==> r.refs == Decisive(first, second).refs
    // a timeout outranks a rate limit, and a rate limit is reported only when both fetches met one
    ensures r == Failed(CODE_TIMEOUT) <==> TimedOut(Decisive(first, second))
    ensures r == Failed(CODE_RATE_LIMIT) <==> RateLimited(first) && RateLimited(second) && !TimedOut(second)
    ensures r.Failed? ==> r.code in {CODE_FAILED, CODE_TIMEOUT, CODE_RATE_LIMIT}
  {
    match first
    case Fetched(refs) => Ready(refs)
    case Refused(text) =>
      if SaysRateLimit(FetchMessage(text)) then
        match second
        case Fetched(refs) => Ready(refs)
        case Refused(again) => Failed(ErrorCode(FetchMessage(again)))
      else
        Failed(ErrorCode(FetchMessage(text)))
  }

  /** The spellings a target reference is tried under, in order. */
  function Candidates(target: string, remote: string): seq<string> {
    [target] +
    if StartsWith(target, "refs/") then []
    else ["refs/tags/" + target, "refs/heads/" + target] +
         if StartsWith(target, remote + "/") then []
         else ["refs/remotes/" + remote + "/" + target]
  }

  /** The commit of the first spelling that resolves. */
  function FirstResolved(names: seq<string>, revisions: map<string, Oid>): Option<Oid> {
    if names == [] then None
    else if names[0] in revisions then Some(revisions[names[0]])
    else FirstResolved(names[1..], revisions)
  }

  function ResolveTarget(target: string, remote: string, g: GitReplies): Option<Oid> {
    var named := FirstResolved(Candidates(target, remote), g.revisions);
    if named.Some? then named
    else if g.hex.Some? && g.hex.value in g.commits then g.hex
    else None
  }

  predicate UsesTarget(target: Option<string>) {
    target.Some? && target.value != ""
  }

  function TrackingRef(remote: string, branch: string): string {
    "refs/remotes/" + remote + "/" + branch
  }

  /** The commit the pull should end on, once the fetch is through. */
  function Goal(remote: string, target: Option<string>, refs: map<string, Oid>, g: GitReplies): Option<Oid> {
    if UsesTarget(target) then
      ResolveTarget(target.value, remote, g)
    else if g.branch.Some? && TrackingRef(remote, g.branch.value) in refs then
      Some(refs[TrackingRef(remote, g.branch.value)])
    else
      None
  }

  /** The pull gets as far as fetching. */
  predicate CanFetch(target: Option<string>, g: GitReplies) {
    g.opens && (UsesTarget(target) || g.branch.Some?) && g.hasRemote
  }

  /** HEAD or the working tree differ. */
  predicate Moved(before: Tree, after: Tree) {
    before.head != after.head || before.work != after.work
  }

  /** A completed fetch has left HEAD at the goal it names. */
  predicate AtGoal(after: Tree, remote: string, target: Option<string>, g: GitReplies) {
    && CanFetch(target, g)
    && FetchTwice(g.first, g.second) == Ready(after.refs)
    && after.head.Some?
    && after.head == Goal(remote, target, after.refs, g)
  }

  /** The pull would have to overwrite uncommitted changes. */
  predicate WouldOverwrite(tree: Tree, remote: string, target: Option<string>, g: GitReplies) {
    && tree.work.dirty
    && CanFetch(target, g)
    && tree.head.Some?
    && FetchTwice(g.first, g.second).Ready?
    && var goal := Goal(remote, target, FetchTwice(g.first, g.second).refs, g);
       goal.Some? && goal != tree.head
  }

  /** The pull gets HEAD to the goal: it is there already, or the hard reset is allowed and possible. */
  predicate Lands(tree: Tree, remote: string, target: Option<string>, force: bool, g: GitReplies) {
    && CanFetch(target, g)
    && Decisive(g.first, g.second).Fetched?
    && tree.head.Some?
    && var goal := Goal(remote, target, Decisive(g.first, g.second).refs, g);
       goal.Some? && (goal == tree.head || ((force || !tree.work.dirty) && goal.value in g.commits && g.resets))
  }

  /**
   * One whole pull. Its promise, on all inputs: nothing but a hard reset to the
   * goal moves the repository, and never over uncommitted changes unless
   * forced; code 0 is answered exactly when HEAD is at the goal of a completed
   * fetch or can be reset to it, and then it is there; code 3 exactly when an
   * unforced pull would have to overwrite changes; a failed fetch's code is
   * handed on and changes nothing.
   */
  function PullOutcome(tree: Tree, remote: string, target: Option<string>, force: bool, g: GitReplies): (r: PullResult)
    ensures r.code in {CODE_OK, CODE_FAILED, CODE_DIRTY, CODE_TIMEOUT, CODE_RATE_LIMIT}
    ensures Moved(tree, r.tree) ==> r.code == CODE_OK && (force || !tree.work.dirty) && r.tree.work == g.resetWork
    ensures r.code == CODE_OK ==> AtGoal(r.tree, remote, target, g)
    ensures r.code == CODE_DIRTY <==> !force && WouldOverwrite(tree, remote, target, g)
    ensures r.code == CODE_OK <==> Lands(tree, remote, target, force, g)
    ensures Moved(tree, r.tree) ==> r.tree.head != tree.head
    ensures r.code == CODE_OK ==> r.tree.work == if r.tree.head == tree.head then tree.work else g.resetWork
    ensures !CanFetch(target, g) ==> r == PullResult(CODE_FAILED, tree)
    ensures CanFetch(target, g) && Decisive(g.first, g.second).Refused? ==>
              r == PullResult(FetchTwice(g.first, g.second).code, tree)
    ensures CanFetch(target, g) && Decisive(g.first, g.second).Fetched? ==>
              r.tree.refs == Decisive(g.first, g.second).refs && r.code in {CODE_OK, CODE_FAILED, CODE_DIRTY}
  {
    if !CanFetch(target, g) then
      PullResult(CODE_FAILED, tree)
    else
      match FetchTwice(g.first, g.second)
      case Failed(code) => PullResult(code, tree)
      case Ready(refs) =>
        var fetched := tree.(refs := refs);
        var goal := Goal(remote, target, refs, g);
        if goal.None? || tree.head.None? then PullResult(CODE_FAILED, fetched)
        else if tree.head == goal then PullResult(CODE_OK, fetched)
        else if !force && tree.work.dirty then PullResult(CODE_DIRTY, fetched)
        else if goal.value in g.commits && g.resets then
          PullResult(CODE_OK, fetched.(head := goal, work := g.resetWork))
        else PullResult(CODE_FAILED, fetched)
  }

  /** The first spelling in the candidate order wins. */
  lemma {:induction false} FirstResolvedIsFirst(names: seq<string>, revisions: map<string, Oid>)
    ensures match FirstResolved(names, revisions)
            case None => forall i :: 0 <= i < |names| ==> names[i] !in revisions
            case Some(oid) => exists i :: 0 <= i < |names| && names[i] in revisions && revisions[names[i]] == oid &&
                                          forall j :: 0 <= j < i ==> names[j] !in revisions
  {
    if names != [] && names[0] !in revisions {
      FirstResolvedIsFirst(names[1..], revisions);
      var rest := names[1..];
      match FirstResolved(rest, revisions) {
        case None =>
          forall i | 0 <= i < |names| ensures names[i] !in revisions {
            if i > 0 { assert names[i] == rest[i - 1]; }
          }
        case Some(oid) =>
          var i :| 0 <= i < |rest| && rest[i] in revisions && revisions[rest[i]] == oid &&
                   forall j :: 0 <= j < i ==> rest[j] !in revisions;
          assert names[i + 1] in revisions && revisions[names[i + 1]] == oid;
          forall j | 0 <= j < i + 1 ensures names[j] !in revisions {
            if j > 0 { assert names[j] == rest[j - 1]; }
          }
      }
    }
  }

  // ---------------------------------------------------------------- in the names of git

  /** Without a target the goal is the remote-tracking branch of the branch that is checked out. */
  lemma BranchGoal(remote: string, target: Option<string>, branch: string, refs: map<string, Oid>, g: GitReplies)
    requires (target.None? || target.value == "") && g.branch == Some(branch)
    ensures var name := "refs/remotes/" + remote + "/" + branch;
            Goal(remote, target, refs, g) == if name in refs then Some(refs[name]) else None
  {
  }

  /** A target is tried as it is, then as a tag, as a branch and as a remote branch; last as an object id. */
  lemma TargetGoal(remote: string, t: string, refs: map<string, Oid>, g: GitReplies)
    requires t != ""
    ensures var goal := Goal(remote, Some(t), refs, g);
            var tag, branch, tracked := "refs/tags/" + t, "refs/heads/" + t, "refs/remotes/" + remote + "/" + t;
            var bare := !("refs/" <= t);
            var id := if g.hex.Some? && g.hex.value in g.commits then g.hex else None;
            goal == if t in g.revisions then Some(g.revisions[t])
                    else if bare && tag in g.revisions then Some(g.revisions[tag])
                    else if bare && branch in g.revisions then Some(g.revisions[branch])
                    else if bare && !(remote + "/" <= t) && tracked in g.revisions then Some(g.revisions[tracked])
                    else id
  {
    var tag, branch, tracked := "refs/tags/" + t, "refs/heads/" + t, "refs/remotes/" + remote + "/" + t;
    FirstOf(tracked, [], g.revisions);
    FirstOf(branch, [], g.revisions);
    FirstOf(branch, [tracked], g.revisions);
    FirstOf(tag, [branch], g.revisions);
    FirstOf(tag, [branch, tracked], g.revisions);
    FirstOf(t, [], g.revisions);
    FirstOf(t, [tag, branch], g.revisions);
    FirstOf(t, [tag, branch, tracked], g.revisions);
    assert [branch] + [tracked] == [branch, tracked] && [tag] + [branch] == [tag, branch];
    assert [tag] + [branch, tracked] == [tag, branch, tracked];
    assert Candidates(t, remote) ==
           if "refs/" <= t then [t] + [] else if remote + "/" <= t then [t] + [tag, branch] else [t] + [tag, branch, tracked];
  }

  lemma FirstOf(name: string, rest: seq<string>, revisions: map<string, Oid>)
    ensures FirstResolved([name] + rest, revisions) ==
            if name in revisions then Some(revisions[name]) else FirstResolved(rest, revisions)
  {
    assert ([name] + rest)[1..] == rest;
  }

  /**
   * The ordinary pull: the checked-out branch has moved on the remote, and the
   * checkout is clean or the pull is forced. HEAD goes to the remote's commit
   * and 0 is answered.
   */
  lemma OrdinaryPullAdvances(tree: Tree, remote: string, branch: string, force: bool, g: GitReplies)
    requires g.opens && g.hasRemote && g.branch == Some(branch) && g.first.Fetched? && tree.head.Some?
    requires "refs/remotes/" + remote + "/" + branch in g.first.refs
    requires g.first.refs["refs/remotes/" + remote + "/" + branch] in g.commits && g.resets
    requires force || !tree.work.dirty
    ensures var oid := g.first.refs["refs/remotes/" + remote + "/" + branch];
            PullOutcome(tree, remote, None, force, g) ==
            PullResult(0, Tree(Some(oid), if tree.head == Some(oid) then tree.work else g.resetWork, g.first.refs))
  {
    BranchGoal(remote, None, branch, g.first.refs, g);
  }

  /** Code 0 and code 3, in terms of what git answers. */
  lemma PullAnswersExactly(tree: Tree, remote: string, target: Option<string>, force: bool, g: GitReplies)
    ensures var code := PullOutcome(tree, remote, target, force, g).code;
            var fetches := g.opens && g.hasRemote && ((target.Some? && target.value != "") || g.branch.Some?);
            var again := g.first.Refused? && RateLimited(g.first) && g.second.Fetched?;
            var refs := if g.first.Fetched? then g.first.refs else if again then g.second.refs else map[];
            var goal := Goal(remote, target, refs, g);
            var comes := fetches && (g.first.Fetched? || again) && tree.head.Some? && goal.Some?;
            && (code == 0 <==> comes && (goal == tree.head || ((force || !tree.work.dirty) && goal.value in g.commits && g.resets)))
            && (code == 3 <==> comes && goal != tree.head && !force && tree.work.dirty)
            && (code == 4 <==> fetches && (if RateLimited(g.first) then TimedOut(g.second) else TimedOut(g.first)))
            && (code == 5 <==> fetches && RateLimited(g.first) && RateLimited(g.second) && !TimedOut(g.second))
            && code in {0, 2, 3, 4, 5}
  {
  }

  predicate SplitAs(s: string, a: string, part: string, b: string) { s == a + part + b }

  ghost predicate Says(s: string, part: string) { exists a, b :: SplitAs(s, a, part, b) }

  lemma ContainsMeansSplit(s: string, part: string)
    ensures Contains(s, part) <==> Says(s, part)
  {
    if Contains(s, part) {
      var i :| 0 <= i <= |s| - |part| && OccursAt(s, part, i);
      assert s == s[..i] + s[i..i + |part|] + s[i + |part|..];
      assert SplitAs(s, s[..i], part, s[i + |part|..]);
    }
    if a, b :| SplitAs(s, a, part, b) {
      assert OccursAt(s, part, |a|);
    }
  }

  lemma {:induction false} LowerIs(s: string)
    ensures |Lower(s)| == |s|
    ensures forall i :: 0 <= i < |s| ==>
              Lower(s)[i] == if 'A' <= s[i] <= 'Z' then 'a' + (s[i] - 'A') else s[i]
  {
    if s != "" {
      LowerIs(s[1..]);
      assert forall i :: 0 < i < |s| ==> s[i] == s[1..][i - 1];
    }
  }

  /** What a refused fetch must say, in any case, to count as rate-limited or timed out; "auth" must be spelled so. */
  lemma RefusalWords(text: string)
    ensures RateLimited(Refused(Some(text))) <==> Says(Lower(text), "rate limit") || Says(Lower(text), "429")
    ensures TimedOut(Refused(Some(text))) <==> Says(Lower(text), "timed out") || Says(Lower(text), "timeout")
    ensures AuthFailure(Refused(Some(text))) <==> Says(text, "auth")
  {
    var lower := Lower(text);
    ContainsMeansSplit(lower, "rate limit");
    ContainsMeansSplit(lower, "429");
    ContainsMeansSplit(lower, "timed out");
    ContainsMeansSplit(lower, "timeout");
    ContainsMeansSplit(text, "auth");
  }

  // ---------------------------------------------------------------- the method

  class Repository {
    var head: Option<Oid>
    var work: Work
    var refs: map<string, Oid>

    function Value(): Tree
      reads this
    {
      Tree(head, work, refs)
    }

    constructor (tree: Tree)
      ensures Value() == tree
    {
      head, work, refs := tree.head, tree.work, tree.refs;
    }

    method TryPull(remote: string, target: Option<string>, force: bool, g: GitReplies)
      returns (code: int, authFailed: bool)
      modifies this
      ensures PullResult(code, Value()) == PullOutcome(old(Value()), remote, target, force, g)
      ensures authFailed <==> CanFetch(target, g) && AuthFailure(g.first)
      ensures Moved(old(Value()), Value()) ==> code == CODE_OK && (force || !old(work).dirty)
    {
      authFailed := false;
      var useTarget := target.Some? && target.value != "";
      if !g.opens {
        return CODE_FAILED, authFailed;
      }
      var branch := "";
      if !useTarget {
        if g.branch.None? {
          return CODE_FAILED, authFailed;
        }
        branch := g.branch.value;
      }
      if !g.hasRemote {
        return CODE_FAILED, authFailed;
      }
      code, authFailed := Fetch(g.first, g.second);
      if code != CODE_OK {
        return code, authFailed;
      }
      if useTarget {
        var desired := Resolve(target.value, remote, g);
        if desired.None? || head.None? {
          return CODE_FAILED, authFailed;
        }
        if head == desired {
          return CODE_OK, authFailed;
        }
        if !force && work.dirty {
          return CODE_DIRTY, authFailed;
        }
        code := PerformReset(desired.value, g);
        return code, authFailed;
      }
      var tracking := TrackingRef(remote, branch);
      if tracking !in refs || head.None? {
        return CODE_FAILED, authFailed;
      }
      if head == Some(refs[tracking]) {
        return CODE_OK, authFailed;
      }
      if !force && work.dirty {
        return CODE_DIRTY, authFailed;
      }
      code := PerformReset(refs[tracking], g);
    }

    /** The fetch with its one retry; code 0 when the references are up to date. */
    method Fetch(first: FetchReply, second: FetchReply) returns (code: int, authFailed: bool)
      modifies this`refs
      ensures FetchTwice(first, second) == if code == CODE_OK then Ready(refs) else Failed(code)
      ensures code != CODE_OK ==> refs == old(refs)
      ensures authFailed <==> AuthFailure(first)
    {
      authFailed := false;
      code := CODE_OK;
      match first {
        case Fetched(latest) =>
          refs := latest;
        case Refused(text) =>
          if text.Some? && Contains(text.value, "auth") {
            authFailed := true;
          }
          var msg := Lower(text.GetOr("Fetch failed"));
          if SaysRateLimit(msg) {
            match second {
              case Fetched(latest) =>
                refs := latest;
              case Refused(again) =>
                msg := Lower(again.GetOr("Fetch failed"));
                if SaysTimeout(msg) {
                  return CODE_TIMEOUT, authFailed;
                }
                if SaysRateLimit(msg) {
                  return CODE_RATE_LIMIT, authFailed;
                }
                return CODE_FAILED, authFailed;
            }
          } else {
            if SaysTimeout(msg) {
              return CODE_TIMEOUT, authFailed;
            }
            return CODE_FAILED, authFailed;
          }
      }
    }

    method PerformReset(oid: Oid, g: GitReplies) returns (code: int)
      modifies this`head, this`work
      ensures code == if oid in g.commits && g.resets then CODE_OK else CODE_FAILED
      ensures if code == CODE_OK then head == Some(oid) && work == g.resetWork
              else head == old(head) && work == old(work)
    {
      if oid !in g.commits {
        return CODE_FAILED;
      }
      if !g.resets {
        return CODE_FAILED;
      }
      head, work := Some(oid), g.resetWork;
      code := CODE_OK;
    }
  }

  method Resolve(target: string, remote: string, g: GitReplies) returns (r: Option<Oid>)
    ensures r == ResolveTarget(target, remote, g)
  {
    var candidates := [target];
    if !StartsWith(target, "refs/") {
      candidates := candidates + ["refs/tags/" + target];
      candidates := candidates + ["refs/heads/" + target];
      if !StartsWith(target, remote + "/") {
        candidates := candidates + ["refs/remotes/" + remote + "/" + target];
      }
    }
    assert candidates == Candidates(target, remote);
    var i := 0;
    while i < |candidates|
      invariant 0 <= i <= |candidates|
      invariant FirstResolved(candidates, g.revisions) == FirstResolved(candidates[i..], g.revisions)
    {
      if candidates[i] in g.revisions {
        return Some(g.revisions[candidates[i]]);
      }
      i := i + 1;
    }
    if g.hex.Some? && g.hex.value in g.commits {
      return g.hex;
    }
    r := None;
  }
}
