/**
 * The per-repository state machine of src/scanner/repo.cpp (validate_repo,
 * determine_pull_action, process_repo) and src/scanner/pull.cpp (execute_pull).
 *
 * The functions say what each decision means; the class Scanner runs the same
 * decisions step by step on the shared tables and is proved against them. The
 * worker pool (ScanPool) interleaves the same functions.
 */
module RepoScan {
  import opened Basics
  import opened GitPull

  type Path = string

  datatype Status =
    | Pending | Checking | UpToDate | Pulling | PullOk | PkgLockFixed | Error | Skipped
    | HeadProblem | Dirty | Timeout | RateLimit | RemoteAhead | TempFail | NotGit

  datatype RepoInfo = RepoInfo(status: Status, pulled: bool, authFailed: bool, progress: int, commitTime: int)

  const FRESH := RepoInfo(Pending, false, false, 0, 0)

  /** Per-repository overrides (include/repo_options.hpp); None keeps the global value. */
  datatype RepoOptions = RepoOptions(
    exclude: Option<bool>, checkOnly: Option<bool>, forcePull: Option<bool>, pullRef: Option<string>)

  datatype ScanOptions = ScanOptions(
    includePrivate: bool, remote: string, checkOnly: bool, hashCheck: bool, dryRun: bool, forcePull: bool,
    skipUnavailable: bool, skipAccessibleErrors: bool, pullRef: Option<string>, updatedSince: int,
    mutantMode: bool, retrySkipped: bool, resetSkipped: bool, printsUpdates: bool,
    concurrency: nat, settings: map<Path, RepoOptions>)

  function Override(o: ScanOptions, p: Path): RepoOptions {
    if p in o.settings then o.settings[p] else RepoOptions(None, None, None, None)
  }

  predicate Excluded(o: ScanOptions, p: Path) { Override(o, p).exclude.GetOr(false) }

  predicate CheckOnly(o: ScanOptions, p: Path) { Override(o, p).checkOnly.GetOr(o.checkOnly) }

  predicate ForcePull(o: ScanOptions, p: Path) { Override(o, p).forcePull.GetOr(o.forcePull) }

  function Target(o: ScanOptions, p: Path): Option<string> {
    if Override(o, p).pullRef.Some? then Override(o, p).pullRef else o.pullRef
  }

  /** What a foreign call may throw: a filesystem_error is caught by process_repo, anything else is not. */
  datatype Fault = NoFault | FileError | OtherError

  /** Every answer of the file system, libgit2 and the clock during one process_repo. */
  datatype Probe = Probe(
    exists_: bool, isDirectory: bool, isGit: bool, isGithub: bool, accessible: bool, branch: Option<string>,
    validating: Fault, deciding: Fault, finishing: Fault,
    localTime: int, remoteTime: int, now: int,
    mutantApproves: bool, mutantTime: int, mutantAuthFailed: bool,
    localHash: string, remoteHash: string, hashAuthFailed: bool,
    git: GitReplies, timeAfter: int)

  /** The tables all scan threads share, with what the proofs remember about the past. */
  datatype Shared = Shared(
    infos: map<Path, RepoInfo>,
    skip: set<Path>,
    running: bool,
    trees: map<Path, Tree>,
    updated: multiset<Path>,          // "Updated" lines printed this session
    hist: map<Path, seq<Status>>,     // statuses published since the scan's reset
    pulledOk: set<Path>,              // paths whose try_pull has returned 0 this session
    crashed: set<Path>)               // paths whose process_repo threw past its own handler

  function Hist(sh: Shared, p: Path): seq<Status> {
    if p in sh.hist then sh.hist[p] else []
  }

  function TreeOf(sh: Shared, p: Path): Tree {
    if p in sh.trees then sh.trees[p] else Tree(None, Work(0, false), map[])
  }

  function Put(sh: Shared, p: Path, info: RepoInfo): Shared {
    sh.(infos := sh.infos[p := info], hist := sh.hist[p := Hist(sh, p) + [info.status]])
  }

  function MarkFatal(sh: Shared, p: Path, fatal: bool): Shared {
    if fatal then sh.(skip := sh.skip + {p}) else sh
  }

  function SetProgress(sh: Shared, p: Path, pct: int): Shared {
    var info := if p in sh.infos then sh.infos[p] else FRESH;
    sh.(infos := sh.infos[p := info.(progress := pct)])
  }

  /** The "Updated" line: printed when this call turned the sticky flag on. */
  function Announce(sh: Shared, p: Path, prev: Option<RepoInfo>, info: RepoInfo, o: ScanOptions): Shared {
    if o.printsUpdates && info.pulled && !WasPulled(prev) then sh.(updated := sh.updated + multiset{p}) else sh
  }

  // ---------------------------------------------------------------- decisions

  function Lookup(sh: Shared, p: Path): Option<RepoInfo> {
    if p in sh.infos then Some(sh.infos[p]) else None
  }

  predicate WasPulled(prev: Option<RepoInfo>) { prev.Some? && prev.value.pulled }

  predicate WasAccessible(prev: Option<RepoInfo>) {
    prev.Some? && prev.value.status != Error && prev.value.status != Skipped
  }

  /** The entry stops process_repo before it looks at the repository. */
  predicate Blocked(entry: Option<RepoInfo>) {
    entry.Some? && entry.value.status in {NotGit, Pulling, Checking}
  }

  predicate GivesUp(o: ScanOptions, accessible: bool) {
    (o.skipUnavailable && !accessible) || o.skipAccessibleErrors
  }

  /** Either the repository may be pulled, or this status is final (and the path is skipped from now on). */
  datatype Check = Pass | Stop(status: Status, fatal: bool)

  function Validate(inSkip: bool, o: ScanOptions, prevPulled: bool, pr: Probe): Check {
    if !pr.exists_ then Stop(Error, false)
    else if inSkip then Stop(Skipped, false)
    else if !pr.isDirectory || !pr.isGit then Stop(NotGit, false)
    else if !o.includePrivate && !pr.isGithub then Stop(Skipped, false)
    else if !o.includePrivate && !pr.accessible then Stop(if prevPulled then TempFail else Skipped, false)
    else if pr.branch.GetOr("") in {"", "HEAD"} then Stop(HeadProblem, true)
    else Pass
  }

  function CommitAge(pr: Probe): int {
    if pr.remoteTime != 0 then pr.remoteTime else pr.localTime
  }

  predicate TooOld(o: ScanOptions, pr: Probe) {
    o.updatedSince > 0 &&
    if o.mutantMode then !pr.mutantApproves
    else CommitAge(pr) == 0 || pr.now - CommitAge(pr) > o.updatedSince
  }

  function Decide(o: ScanOptions, p: Path, accessible: bool, pr: Probe): Check {
    if o.hashCheck && (pr.localHash == "" || pr.remoteHash == "") then Stop(Error, GivesUp(o, accessible))
    else if o.hashCheck && pr.localHash == pr.remoteHash then Stop(UpToDate, false)
    else if CheckOnly(o, p) then Stop(RemoteAhead, false)
    else Pass
  }

  /** What process_repo has decided before touching the repository. */
  datatype Verdict =
    | Publish(info: RepoInfo, fatal: bool)
    | StartPull(info: RepoInfo)
    | Thrown

  /** The hash comparison, check-only and dry-run. */
  function JudgeAction(p: Path, accessible: bool, o: ScanOptions, pr: Probe, due: RepoInfo): Verdict {
    var hashed := if o.hashCheck then due.(authFailed := pr.hashAuthFailed) else due;
    match Decide(o, p, accessible, pr)
    case Stop(status, fatal) => Publish(hashed.(status := status), fatal)
    case Pass =>
      if o.dryRun then Publish(hashed.(status := RemoteAhead, progress := 0), false)
      else StartPull(hashed.(status := Pulling, progress := 0))
  }

  /** The commit-age filter, plain or through the mutant session. */
  function JudgeAge(p: Path, accessible: bool, o: ScanOptions, pr: Probe, dated: RepoInfo): Verdict {
    var asks := o.updatedSince > 0 && o.mutantMode;
    var asked := if asks then dated.(authFailed := pr.mutantAuthFailed) else dated;
    if TooOld(o, pr) then Publish(asked.(status := Skipped), false)
    else JudgeAction(p, accessible, o, pr, if asks then asked.(commitTime := pr.mutantTime) else asked)
  }

  /** A filesystem_error becomes the status Error. */
  function Caught(o: ScanOptions, accessible: bool, ri: RepoInfo): Verdict {
    Publish(ri.(status := Error), GivesUp(o, accessible))
  }

  predicate Busy(status: Status) { status in {Pulling, Checking} }

  /** A status a scan may leave behind. */
  predicate Final(status: Status) { status !in {Pending, Checking, Pulling} }

  /**
   * Never publishes an unfinished status, keeps the sticky flag, and lets a
   * pull start only when neither check-only nor dry-run is in effect, for a
   * live checkout on a branch that is not being skipped.
   */
  function Judge(inSkip: bool, p: Path, prev: Option<RepoInfo>, o: ScanOptions, pr: Probe): (r: Verdict)
    ensures r.Thrown? ==> pr.validating == OtherError || pr.deciding == OtherError
    ensures r.Publish? ==> Final(r.info.status) && r.info.pulled == WasPulled(prev)
    ensures r.StartPull? ==>
              && r.info.status == Pulling && r.info.pulled == WasPulled(prev)
              && !CheckOnly(o, p) && !o.dryRun && !inSkip
              && pr.exists_ && pr.isDirectory && pr.isGit && pr.branch.GetOr("") !in {"", "HEAD"}
              && (o.includePrivate || (pr.isGithub && pr.accessible)) && !TooOld(o, pr)
              && (o.hashCheck ==> pr.localHash != "" && pr.remoteHash != "" && pr.localHash != pr.remoteHash)
  {
    var blank := FRESH.(pulled := WasPulled(prev), status := Checking);
    match pr.validating
    case FileError => Caught(o, WasAccessible(prev), blank)
    case OtherError => Thrown
    case NoFault =>
      match Validate(inSkip, o, WasPulled(prev), pr)
      case Stop(status, fatal) => Publish(blank.(status := status), fatal)
      case Pass =>
        var dated := blank.(commitTime := pr.localTime);
        match pr.deciding
        case FileError => Caught(o, WasAccessible(prev), dated)
        case OtherError => Thrown
        case NoFault => JudgeAge(p, WasAccessible(prev), o, pr, dated)
  }

  function StatusOfCode(code: int): Status {
    match code
    case 0 => PullOk
    case 1 => PkgLockFixed
    case 3 => Dirty
    case 4 => Timeout
    case 5 => RateLimit
    case _ => Error
  }

  datatype Conclusion = Settled(info: RepoInfo, fatal: bool) | Broken(fatal: bool)

  /** The entry execute_pull leaves for a pull code, and whether the path is skipped from now on. */
  function Conclude(info: RepoInfo, accessible: bool, o: ScanOptions, code: int, authFailed: bool, pr: Probe): (r: Conclusion)
    ensures r.Broken? <==> pr.finishing == OtherError
    ensures r.Settled? ==>
              && Final(r.info.status) && r.info.authFailed == authFailed
              && (r.info.pulled <==> info.pulled || code in {0, 1})
              && (r.info.status == PullOk ==> code == CODE_OK)
              && (r.info.status == PkgLockFixed ==> code == 1)
  {
    var status := StatusOfCode(code);
    var landed := info.(status := status, authFailed := authFailed, pulled := info.pulled || code == 0 || code == 1);
    var fatal := status == Error && GivesUp(o, accessible);
    match pr.finishing
    case NoFault => Settled(landed.(commitTime := pr.timeAfter), fatal)
    case FileError => Settled(landed.(status := Error), fatal || GivesUp(o, accessible))
    case OtherError => Broken(fatal)
  }

  function PullOf(sh: Shared, p: Path, o: ScanOptions, pr: Probe): PullResult {
    PullOutcome(TreeOf(sh, p), o.remote, Target(o, p), ForcePull(o, p), pr.git)
  }

  /** The only change to a repository: try_pull has run, and its code decides the rest. */
  function AfterPull(sh: Shared, p: Path, o: ScanOptions, pr: Probe): Shared {
    var r := PullOf(sh, p, o, pr);
    sh.(trees := sh.trees[p := r.tree],
        pulledOk := if r.code == CODE_OK then sh.pulledOk + {p} else sh.pulledOk)
  }

  predicate AuthFailedIn(p: Path, o: ScanOptions, pr: Probe) {
    CanFetch(Target(o, p), pr.git) && AuthFailure(pr.git.first)
  }

  function PullConclusion(sh: Shared, p: Path, prev: Option<RepoInfo>, info: RepoInfo, o: ScanOptions, pr: Probe): Conclusion {
    Conclude(info, WasAccessible(prev), o, PullOf(sh, p, o, pr).code, AuthFailedIn(p, o, pr), pr)
  }

  /** try_pull never answers 1, so the package-lock branch of execute_pull is dead. */
  lemma PullCode(sh: Shared, p: Path, o: ScanOptions, pr: Probe)
    ensures PullOf(sh, p, o, pr).code in {CODE_OK, CODE_FAILED, CODE_DIRTY, CODE_TIMEOUT, CODE_RATE_LIMIT}
    ensures Moved(TreeOf(sh, p), PullOf(sh, p, o, pr).tree) ==>
              PullOf(sh, p, o, pr).code == CODE_OK && (ForcePull(o, p) || !TreeOf(sh, p).work.dirty)
    ensures PullOf(sh, p, o, pr).code == CODE_OK ==>
              AtGoal(PullOf(sh, p, o, pr).tree, o.remote, Target(o, p), pr.git)
  {
  }

  datatype Processed = Processed(sh: Shared, thrown: bool)

  /** One undisturbed process_repo. */
  function ProcessRepo(sh: Shared, p: Path, o: ScanOptions, pr: Probe): Processed {
    if !sh.running || Blocked(Lookup(sh, p)) then Processed(sh, false)
    else
      var prev := Lookup(sh, p);
      match Judge(p in sh.skip, p, prev, o, pr)
      case Thrown => Processed(sh, true)
      case Publish(info, fatal) => Processed(Announce(Put(MarkFatal(sh, p, fatal), p, info), p, prev, info, o), false)
      case StartPull(info) =>
        var pulling := Put(sh, p, info);
        var pulled := SetProgress(AfterPull(pulling, p, o, pr), p, 100);
        match PullConclusion(pulling, p, prev, info, o, pr)
        case Broken(fatal) => Processed(MarkFatal(pulled, p, fatal), true)
        case Settled(done, fatal) => Processed(Announce(Put(MarkFatal(pulled, p, fatal), p, done), p, prev, done, o), false)
  }

  // ---------------------------------------------------------------- the steps on the shared tables

  class Scanner {
    var repoInfos: map<Path, RepoInfo>
    var skipRepos: set<Path>
    var running: bool
    var trees: map<Path, Tree>
    var updated: multiset<Path>
    ghost var hist: map<Path, seq<Status>>
    ghost var pulledOk: set<Path>
    ghost var crashed: set<Path>

    ghost function View(): Shared
      reads this
    {
      Shared(repoInfos, skipRepos, running, trees, updated, hist, pulledOk, crashed)
    }

    constructor ()
      ensures View() == Shared(map[], {}, true, map[], multiset{}, map[], {}, {})
    {
      repoInfos, skipRepos, running, trees, updated := map[], {}, true, map[], multiset{};
      hist, pulledOk, crashed := map[], {}, {};
    }

    /** `repo_infos[p] = ri` under the lock. */
    method Store(p: Path, ri: RepoInfo)
      modifies this`repoInfos, this`hist
      ensures View() == Put(old(View()), p, ri)
    {
      repoInfos := repoInfos[p := ri];
      hist := hist[p := (if p in hist then hist[p] else []) + [ri.status]];
    }

    method ValidateRepo(p: Path, o: ScanOptions, prevPulled: bool, pr: Probe, blank: RepoInfo)
      returns (ok: bool, ri: RepoInfo)
      modifies this`skipRepos
      ensures var check := Validate(p in old(skipRepos), o, prevPulled, pr);
              && ok == check.Pass?
              && ri == blank.(status := if ok then Checking else check.status)
              && View() == MarkFatal(old(View()), p, check.Stop? && check.fatal)
    {
      ri := blank;
      ok := false;
      if !pr.exists_ {
        ri := ri.(status := Error);
        return;
      }
      if p in skipRepos {
        ri := ri.(status := Skipped);
        return;
      }
      ri := ri.(status := Checking);
      if !pr.isDirectory || !pr.isGit {
        ri := ri.(status := NotGit);
        return;
      }
      if !o.includePrivate {
        if !pr.isGithub {
          ri := ri.(status := Skipped);
          return;
        }
        if !pr.accessible {
          if prevPulled {
            ri := ri.(status := TempFail);
          } else {
            ri := ri.(status := Skipped);
          }
          return;
        }
      }
      var branch := pr.branch.GetOr("");
      if branch == "" || branch == "HEAD" {
        ri := ri.(status := HeadProblem);
        skipRepos := skipRepos + {p};
        return;
      }
      ok := true;
    }

    method DeterminePullAction(p: Path, o: ScanOptions, wasAccessible: bool, pr: Probe, before: RepoInfo)
      returns (doPull: bool, ri: RepoInfo)
      modifies this`skipRepos
      ensures var check := Decide(o, p, wasAccessible, pr);
              var hashed := if o.hashCheck then before.(authFailed := pr.hashAuthFailed) else before;
              && doPull == check.Pass?
              && ri == (if doPull then hashed.(status := Pulling, progress := 0) else hashed.(status := check.status))
              && View() == MarkFatal(old(View()), p, check.Stop? && check.fatal)
    {
      ri := before;
      doPull := false;
      if o.hashCheck {
        ri := ri.(authFailed := pr.hashAuthFailed);
        if pr.localHash == "" || pr.remoteHash == "" {
          ri := ri.(status := Error);
          if (o.skipUnavailable && !wasAccessible) || o.skipAccessibleErrors {
            skipRepos := skipRepos + {p};
          }
          return;
        }
        if pr.localHash == pr.remoteHash {
          ri := ri.(status := UpToDate);
          return;
        }
      }
      if CheckOnly(o, p) {
        ri := ri.(status := RemoteAhead);
        return;
      }
      ri := ri.(status := Pulling, progress := 0);
      doPull := true;
    }

    /** try_pull on the repository at `p`, with its progress callback. */
    method RunPull(p: Path, o: ScanOptions, pr: Probe) returns (code: int, authFailed: bool)
      modifies this`repoInfos, this`trees, this`pulledOk
      ensures code == PullOf(old(View()), p, o, pr).code
      ensures authFailed <==> AuthFailedIn(p, o, pr)
      ensures View() == SetProgress(AfterPull(old(View()), p, o, pr), p, 100)
    {
      var tree := if p in trees then trees[p] else Tree(None, Work(0, false), map[]);
      ghost var before := View();
      assert tree == TreeOf(before, p);
      var repository := new Repository(tree);
      code, authFailed := repository.TryPull(o.remote, Target(o, p), ForcePull(o, p), pr.git);
      ghost var r := PullOf(before, p, o, pr);
      assert r == PullResult(code, repository.Value());
      trees := trees[p := repository.Value()];
      pulledOk := if code == CODE_OK then pulledOk + {p} else pulledOk;
      repoInfos := repoInfos[p := (if p in repoInfos then repoInfos[p] else FRESH).(progress := 100)];
    }

    /** Maps the pull code to the entry; an unexplained failure may put the path on the skip list. */
    method RecordCode(p: Path, o: ScanOptions, wasAccessible: bool, code: int, authFailed: bool, before: RepoInfo)
      returns (ri: RepoInfo)
      modifies this`skipRepos
      ensures ri == before.(status := StatusOfCode(code), authFailed := authFailed,
                            pulled := before.pulled || code == 0 || code == 1)
      ensures View() == MarkFatal(old(View()), p, StatusOfCode(code) == Error && GivesUp(o, wasAccessible))
    {
      ri := before.(authFailed := authFailed);
      if code == 0 {
        ri := ri.(status := PullOk, pulled := true);
      } else if code == 1 {
        ri := ri.(status := PkgLockFixed, pulled := true);
      } else if code == 3 {
        ri := ri.(status := Dirty);
      } else if code == CODE_TIMEOUT {
        ri := ri.(status := Timeout);
      } else if code == CODE_RATE_LIMIT {
        ri := ri.(status := RateLimit);
      } else {
        ri := ri.(status := Error);
        if (o.skipUnavailable && !wasAccessible) || o.skipAccessibleErrors {
          skipRepos := skipRepos + {p};
        }
      }
    }

    /** Everything up to the decision to pull; the answer is what Judge says. */
    method Examine(p: Path, o: ScanOptions, prev: Option<RepoInfo>, pr: Probe) returns (verdict: Verdict)
      modifies this`skipRepos
      ensures verdict == Judge(p in old(skipRepos), p, prev, o, pr)
      ensures View() == MarkFatal(old(View()), p, verdict.Publish? && verdict.fatal)
    {
      var prevPulled := prev.Some? && prev.value.pulled;
      var wasAccessible := prev.Some? && prev.value.status != Error && prev.value.status != Skipped;
      var ri := FRESH.(pulled := prevPulled, status := Checking);
      if pr.validating == OtherError {
        return Thrown;
      }
      if pr.validating == FileError {
        verdict := CatchFileError(p, o, wasAccessible, ri);
        return;
      }
      var ok;
      ok, ri := ValidateRepo(p, o, prevPulled, pr, ri);
      if !ok {
        return Publish(ri, ri.status == HeadProblem);
      }
      verdict := ExamineDue(p, o, wasAccessible, pr, ri.(commitTime := pr.localTime));
    }

    /** From the age filter on, with what its remote calls may throw. */
    method ExamineDue(p: Path, o: ScanOptions, wasAccessible: bool, pr: Probe, dated: RepoInfo) returns (verdict: Verdict)
      modifies this`skipRepos
      ensures verdict == match pr.deciding
                         case FileError => Caught(o, wasAccessible, dated)
                         case OtherError => Thrown
                         case NoFault => JudgeAge(p, wasAccessible, o, pr, dated)
      ensures View() == MarkFatal(old(View()), p, verdict.Publish? && verdict.fatal)
    {
      if pr.deciding == OtherError {
        return Thrown;
      }
      if pr.deciding == FileError {
        verdict := CatchFileError(p, o, wasAccessible, dated);
        return;
      }
      verdict := ExamineAge(p, o, wasAccessible, pr, dated);
    }

    method ExamineAge(p: Path, o: ScanOptions, wasAccessible: bool, pr: Probe, dated: RepoInfo) returns (verdict: Verdict)
      modifies this`skipRepos
      ensures verdict == JudgeAge(p, wasAccessible, o, pr, dated)
      ensures View() == MarkFatal(old(View()), p, verdict.Publish? && verdict.fatal)
    {
      var ri := dated;
      if o.updatedSince > 0 {
        if o.mutantMode {
          ri := ri.(authFailed := pr.mutantAuthFailed);
          if !pr.mutantApproves {
            return Publish(ri.(status := Skipped), false);
          }
          ri := ri.(commitTime := pr.mutantTime);
        } else {
          var ct := pr.remoteTime;
          if ct == 0 {
            ct := pr.localTime;
          }
          if ct == 0 || pr.now - ct > o.updatedSince {
            return Publish(ri.(status := Skipped), false);
          }
        }
      }
      verdict := ExamineAction(p, o, wasAccessible, pr, ri);
    }

    method ExamineAction(p: Path, o: ScanOptions, wasAccessible: bool, pr: Probe, due: RepoInfo) returns (verdict: Verdict)
      modifies this`skipRepos
      ensures verdict == JudgeAction(p, wasAccessible, o, pr, due)
      ensures View() == MarkFatal(old(View()), p, verdict.Publish? && verdict.fatal)
    {
      var doPull, ri := DeterminePullAction(p, o, wasAccessible, pr, due);
      if !doPull {
        return Publish(ri, ri.status == Error && GivesUp(o, wasAccessible));
      }
      if o.dryRun {
        return Publish(ri.(status := RemoteAhead), false);
      }
      verdict := StartPull(ri);
    }

    /** The handler for filesystem_error. */
    method CatchFileError(p: Path, o: ScanOptions, wasAccessible: bool, ri: RepoInfo) returns (verdict: Verdict)
      modifies this`skipRepos
      ensures verdict == Caught(o, wasAccessible, ri)
      ensures View() == MarkFatal(old(View()), p, GivesUp(o, wasAccessible))
    {
      if (o.skipUnavailable && !wasAccessible) || o.skipAccessibleErrors {
        skipRepos := skipRepos + {p};
      }
      verdict := Publish(ri.(status := Error), GivesUp(o, wasAccessible));
    }

    /** execute_pull: publishes PULLING, pulls and maps the code. */
    method ExecutePull(p: Path, o: ScanOptions, prev: Option<RepoInfo>, pr: Probe, ri: RepoInfo)
      returns (conclusion: Conclusion)
      modifies this`repoInfos, this`hist, this`trees, this`pulledOk, this`skipRepos
      ensures var pulling := Put(old(View()), p, ri);
              && conclusion == PullConclusion(pulling, p, prev, ri, o, pr)
              && View() == MarkFatal(SetProgress(AfterPull(pulling, p, o, pr), p, 100), p, conclusion.fatal)
    {
      var wasAccessible := prev.Some? && prev.value.status != Error && prev.value.status != Skipped;
      Store(p, ri);
      var code, authFailed := RunPull(p, o, pr);
      conclusion := Land(p, o, wasAccessible, code, authFailed, pr, ri);
    }

    /** What execute_pull does with the pull code, and what its remaining calls may throw. */
    method Land(p: Path, o: ScanOptions, wasAccessible: bool, code: int, authFailed: bool, pr: Probe, ri: RepoInfo)
      returns (conclusion: Conclusion)
      modifies this`skipRepos
      ensures conclusion == Conclude(ri, wasAccessible, o, code, authFailed, pr)
      ensures View() == MarkFatal(old(View()), p, conclusion.fatal)
    {
      var landed := RecordCode(p, o, wasAccessible, code, authFailed, ri);
      var fatal := landed.status == Error && GivesUp(o, wasAccessible);
      match pr.finishing {
        case NoFault =>
          conclusion := Settled(landed.(commitTime := pr.timeAfter), fatal);
        case OtherError =>
          conclusion := Broken(fatal);
        case FileError =>
          var verdict := CatchFileError(p, o, wasAccessible, landed);
          conclusion := Settled(verdict.info, verdict.fatal);
      }
    }

    /** process_repo; `thrown` when an exception other than filesystem_error leaves it. */
    method Process(p: Path, o: ScanOptions, pr: Probe) returns (thrown: bool)
      modifies this
      ensures Processed(View(), thrown) == ProcessRepo(old(View()), p, o, pr)
    {
      if !running {
        return false;
      }
      if p in repoInfos {
        if repoInfos[p].status == NotGit {
          return false;
        }
        if repoInfos[p].status == Pulling || repoInfos[p].status == Checking {
          return false;
        }
      }
      var prev := if p in repoInfos then Some(repoInfos[p]) else None;
      var verdict := Examine(p, o, prev, pr);
      match verdict {
        case Thrown =>
          thrown := true;
        case Publish(ri, _) =>
          Finish(p, o, prev, ri);
          thrown := false;
        case StartPull(ri) =>
          var conclusion := ExecutePull(p, o, prev, pr, ri);
          thrown := conclusion.Broken?;
          if conclusion.Settled? {
            Finish(p, o, prev, conclusion.info);
          }
      }
    }

    /** The last write of the entry, and the "Updated" line. */
    method Finish(p: Path, o: ScanOptions, prev: Option<RepoInfo>, ri: RepoInfo)
      modifies this`repoInfos, this`hist, this`updated
      ensures View() == Announce(Put(old(View()), p, ri), p, prev, ri, o)
    {
      Store(p, ri);
      if o.printsUpdates && ri.pulled && !(prev.Some? && prev.value.pulled) {
        updated := updated + multiset{p};
      }
    }
  }
}
