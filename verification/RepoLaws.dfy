/**
 * What process_repo answers, exactly: for each published status the condition
 * on the options, the previous entry and the world under which it is published,
 * and what the tables hold afterwards. The conditions are stated outright, not
 * through the decisions of RepoScan.
 */
module RepoLaws {
  import opened Basics
  import opened GitPull
  import opened RepoScan

  // ---------------------------------------------------------------- options

  /** A repository's own setting outranks the global one. */
  lemma OverridesWin(o: ScanOptions, p: Path)
    ensures p !in o.settings ==>
              !Excluded(o, p) && CheckOnly(o, p) == o.checkOnly && ForcePull(o, p) == o.forcePull && Target(o, p) == o.pullRef
    ensures p in o.settings ==>
              var own := o.settings[p];
              && Excluded(o, p) == (own.exclude == Some(true))
              && CheckOnly(o, p) == (if own.checkOnly.Some? then own.checkOnly.value else o.checkOnly)
              && ForcePull(o, p) == (if own.forcePull.Some? then own.forcePull.value else o.forcePull)
              && Target(o, p) == (if own.pullRef.Some? then own.pullRef else o.pullRef)
  {
  }

  // ---------------------------------------------------------------- the conditions

  /** It exists, is not being skipped and is a checkout. */
  predicate Checkout(inSkip: bool, pr: Probe) { pr.exists_ && !inSkip && pr.isDirectory && pr.isGit }

  predicate Reachable(o: ScanOptions, pr: Probe) { o.includePrivate || (pr.isGithub && pr.accessible) }

  predicate OnBranch(pr: Probe) { pr.branch.Some? && pr.branch.value != "" && pr.branch.value != "HEAD" }

  /** validate_repo answers true. */
  predicate Fit(inSkip: bool, o: ScanOptions, pr: Probe) {
    pr.validating == NoFault && Checkout(inSkip, pr) && Reachable(o, pr) && OnBranch(pr)
  }

  predicate Young(o: ScanOptions, pr: Probe) {
    || o.updatedSince <= 0
    || (o.mutantMode && pr.mutantApproves)
    || (!o.mutantMode && pr.remoteTime != 0 && pr.now - pr.remoteTime <= o.updatedSince)
    || (!o.mutantMode && pr.remoteTime == 0 && pr.localTime != 0 && pr.now - pr.localTime <= o.updatedSince)
  }

  /** The decision whether to pull is reached. */
  predicate Due(inSkip: bool, o: ScanOptions, pr: Probe) {
    Fit(inSkip, o, pr) && pr.deciding == NoFault && Young(o, pr)
  }

  predicate HashMissing(pr: Probe) { pr.localHash == "" || pr.remoteHash == "" }

  /** There may be something to pull. */
  predicate MaybeAhead(o: ScanOptions, pr: Probe) {
    !o.hashCheck || (!HashMissing(pr) && pr.localHash != pr.remoteHash)
  }

  predicate GaveUp(prev: Option<RepoInfo>, o: ScanOptions) {
    || o.skipAccessibleErrors
    || (o.skipUnavailable && (prev.None? || prev.value.status == Error || prev.value.status == Skipped))
  }

  predicate CaughtFileError(inSkip: bool, o: ScanOptions, pr: Probe) {
    pr.validating == FileError || (Fit(inSkip, o, pr) && pr.deciding == FileError)
  }

  predicate Hashless(inSkip: bool, o: ScanOptions, pr: Probe) {
    Due(inSkip, o, pr) && o.hashCheck && HashMissing(pr)
  }

  /** process_repo publishes this status without pulling. */
  predicate Published(status: Status, inSkip: bool, p: Path, prev: Option<RepoInfo>, o: ScanOptions, pr: Probe) {
    var sees := pr.validating == NoFault;
    match status
    case NotGit => sees && pr.exists_ && !inSkip && !(pr.isDirectory && pr.isGit)
    case TempFail =>
      sees && Checkout(inSkip, pr) && !o.includePrivate && pr.isGithub && !pr.accessible && prev.Some? && prev.value.pulled
    case HeadProblem => sees && Checkout(inSkip, pr) && Reachable(o, pr) && !OnBranch(pr)
    case Skipped =>
      || (sees && pr.exists_ && inSkip)
      || (sees && Checkout(inSkip, pr) && !o.includePrivate && !pr.isGithub)
      || (sees && Checkout(inSkip, pr) && !o.includePrivate && pr.isGithub && !pr.accessible &&
          !(prev.Some? && prev.value.pulled))
      || (Fit(inSkip, o, pr) && pr.deciding == NoFault && !Young(o, pr))
    case Error => (sees && !pr.exists_) || CaughtFileError(inSkip, o, pr) || Hashless(inSkip, o, pr)
    case UpToDate => Due(inSkip, o, pr) && o.hashCheck && !HashMissing(pr) && pr.localHash == pr.remoteHash
    case RemoteAhead => Due(inSkip, o, pr) && MaybeAhead(o, pr) && (CheckOnly(o, p) || o.dryRun)
    case _ => false
  }

  /** A pull is started. */
  predicate Pulls(inSkip: bool, p: Path, o: ScanOptions, pr: Probe) {
    Due(inSkip, o, pr) && MaybeAhead(o, pr) && !CheckOnly(o, p) && !o.dryRun
  }

  /** Something other than a filesystem_error is thrown before a pull. */
  predicate Throws(inSkip: bool, o: ScanOptions, pr: Probe) {
    pr.validating == OtherError || (Fit(inSkip, o, pr) && pr.deciding == OtherError)
  }

  /** The path is skipped from now on although nothing was pulled. */
  predicate PutAside(inSkip: bool, prev: Option<RepoInfo>, o: ScanOptions, pr: Probe) {
    || (pr.validating == NoFault && Checkout(inSkip, pr) && Reachable(o, pr) && !OnBranch(pr))
    || ((CaughtFileError(inSkip, o, pr) || Hashless(inSkip, o, pr)) && GaveUp(prev, o))
  }

  // ---------------------------------------------------------------- the verdict

  lemma YoungIsNotOld(o: ScanOptions, pr: Probe)
    ensures Young(o, pr) <==> !TooOld(o, pr)
  {
  }

  lemma ActionExactly(p: Path, prev: Option<RepoInfo>, o: ScanOptions, pr: Probe, due: RepoInfo)
    ensures var r := JudgeAction(p, WasAccessible(prev), o, pr, due);
            && !r.Thrown? && (r.StartPull? <==> MaybeAhead(o, pr) && !CheckOnly(o, p) && !o.dryRun)
            && (r.StartPull? ==> r.info.status == Pulling)
            && (r.Publish? ==>
                  && r.info.status in {Error, UpToDate, RemoteAhead}
                  && (r.info.status == Error <==> o.hashCheck && HashMissing(pr))
                  && (r.info.status == UpToDate <==> o.hashCheck && !HashMissing(pr) && pr.localHash == pr.remoteHash)
                  && (r.info.status == RemoteAhead <==> MaybeAhead(o, pr) && (CheckOnly(o, p) || o.dryRun))
                  && (r.fatal <==> o.hashCheck && HashMissing(pr) && GaveUp(prev, o)))
  {
    assert GivesUp(o, WasAccessible(prev)) <==> GaveUp(prev, o);
  }

  /** validate_repo, in terms of the conditions above. */
  lemma ValidateExactly(inSkip: bool, o: ScanOptions, prev: Option<RepoInfo>, pr: Probe)
    ensures var v := Validate(inSkip, o, WasPulled(prev), pr);
            var open := Checkout(inSkip, pr) && Reachable(o, pr);
            var shut := Checkout(inSkip, pr) && !Reachable(o, pr);
            && (v.Pass? <==> open && OnBranch(pr))
            && (v == Stop(HeadProblem, true) <==> open && !OnBranch(pr))
            && (v == Stop(Error, false) <==> !pr.exists_)
            && (v == Stop(NotGit, false) <==> pr.exists_ && !inSkip && !(pr.isDirectory && pr.isGit))
            && (v == Stop(TempFail, false) <==> shut && pr.isGithub && WasPulled(prev))
            && (v == Stop(Skipped, false) <==>
                  (pr.exists_ && inSkip) || (shut && (!pr.isGithub || !WasPulled(prev))))
  {
  }

  /** The verdict is what the conditions say for this status. */
  predicate Exact(inSkip: bool, p: Path, prev: Option<RepoInfo>, o: ScanOptions, pr: Probe, status: Status) {
    var r := Judge(inSkip, p, prev, o, pr);
    && (r.Thrown? <==> Throws(inSkip, o, pr))
    && (r.StartPull? <==> Pulls(inSkip, p, o, pr))
    && (r.Publish? && r.info.status == status <==> Published(status, inSkip, p, prev, o, pr))
    && (r.Publish? && r.fatal <==> PutAside(inSkip, prev, o, pr))
  }

  /** Of a repository that is not fit, the conditions say what validate_repo says. */
  lemma UnfitConditions(inSkip: bool, p: Path, prev: Option<RepoInfo>, o: ScanOptions, pr: Probe, status: Status)
    requires pr.validating == NoFault && !Fit(inSkip, o, pr)
    ensures var v := Validate(inSkip, o, WasPulled(prev), pr);
            && v.Stop? && !Throws(inSkip, o, pr) && !Pulls(inSkip, p, o, pr)
            && (v.status == status <==> Published(status, inSkip, p, prev, o, pr))
            && (v.fatal <==> PutAside(inSkip, prev, o, pr))
  {
    ValidateExactly(inSkip, o, prev, pr);
  }

  lemma UnfitExactly(inSkip: bool, p: Path, prev: Option<RepoInfo>, o: ScanOptions, pr: Probe, status: Status)
    requires pr.validating == NoFault && !Fit(inSkip, o, pr)
    ensures Exact(inSkip, p, prev, o, pr, status)
  {
    UnfitConditions(inSkip, p, prev, o, pr, status);
    UnfitStops(inSkip, p, prev, o, pr);
  }

  /** A fault while validating hides everything else. */
  lemma BlindConditions(inSkip: bool, p: Path, prev: Option<RepoInfo>, o: ScanOptions, pr: Probe, status: Status)
    requires pr.validating != NoFault
    ensures !Pulls(inSkip, p, o, pr) && (Throws(inSkip, o, pr) <==> pr.validating == OtherError)
    ensures Published(status, inSkip, p, prev, o, pr) <==> status == Error && pr.validating == FileError
    ensures PutAside(inSkip, prev, o, pr) <==> pr.validating == FileError && GaveUp(prev, o)
  {
  }

  lemma BlindJudge(inSkip: bool, p: Path, prev: Option<RepoInfo>, o: ScanOptions, pr: Probe)
    requires pr.validating != NoFault
    ensures var r := Judge(inSkip, p, prev, o, pr);
            if pr.validating == OtherError then r == Thrown
            else r.Publish? && r.info.status == Error && r.fatal == GaveUp(prev, o)
  {
    assert GivesUp(o, WasAccessible(prev)) <==> GaveUp(prev, o);
  }

  lemma BlindExactly(inSkip: bool, p: Path, prev: Option<RepoInfo>, o: ScanOptions, pr: Probe, status: Status)
    requires pr.validating != NoFault
    ensures Exact(inSkip, p, prev, o, pr, status)
  {
    BlindConditions(inSkip, p, prev, o, pr, status);
    BlindJudge(inSkip, p, prev, o, pr);
  }

  lemma UnfitStops(inSkip: bool, p: Path, prev: Option<RepoInfo>, o: ScanOptions, pr: Probe)
    requires pr.validating == NoFault && Validate(inSkip, o, WasPulled(prev), pr).Stop?
    ensures var v, r := Validate(inSkip, o, WasPulled(prev), pr), Judge(inSkip, p, prev, o, pr);
            r.Publish? && r.info.status == v.status && r.fatal == v.fatal
  {
  }

  /** Whoever is fit comes to the age filter. */
  lemma FitGoesOn(inSkip: bool, p: Path, prev: Option<RepoInfo>, o: ScanOptions, pr: Probe)
    requires Fit(inSkip, o, pr)
    ensures var dated := FRESH.(pulled := WasPulled(prev), status := Checking).(commitTime := pr.localTime);
            Judge(inSkip, p, prev, o, pr) ==
            match pr.deciding
            case FileError => Caught(o, WasAccessible(prev), dated)
            case OtherError => Thrown
            case NoFault => JudgeAge(p, WasAccessible(prev), o, pr, dated)
  {
    ValidateExactly(inSkip, o, prev, pr);
  }

  lemma FaultExactly(inSkip: bool, p: Path, prev: Option<RepoInfo>, o: ScanOptions, pr: Probe, status: Status)
    requires Fit(inSkip, o, pr) && pr.deciding != NoFault
    ensures Exact(inSkip, p, prev, o, pr, status)
  {
    FitGoesOn(inSkip, p, prev, o, pr);
    assert GivesUp(o, WasAccessible(prev)) <==> GaveUp(prev, o);
  }

  lemma OldExactly(inSkip: bool, p: Path, prev: Option<RepoInfo>, o: ScanOptions, pr: Probe, status: Status)
    requires Fit(inSkip, o, pr) && pr.deciding == NoFault && !Young(o, pr)
    ensures Exact(inSkip, p, prev, o, pr, status)
  {
    FitGoesOn(inSkip, p, prev, o, pr);
    YoungIsNotOld(o, pr);
  }

  function DueInfo(prev: Option<RepoInfo>, o: ScanOptions, pr: Probe): RepoInfo {
    var asks := o.updatedSince > 0 && o.mutantMode;
    var dated := FRESH.(pulled := WasPulled(prev), status := Checking).(commitTime := pr.localTime);
    if asks then dated.(authFailed := pr.mutantAuthFailed).(commitTime := pr.mutantTime) else dated
  }

  lemma DueGoesOn(inSkip: bool, p: Path, prev: Option<RepoInfo>, o: ScanOptions, pr: Probe)
    requires Due(inSkip, o, pr)
    ensures Judge(inSkip, p, prev, o, pr) == JudgeAction(p, WasAccessible(prev), o, pr, DueInfo(prev, o, pr))
  {
    FitGoesOn(inSkip, p, prev, o, pr);
    YoungIsNotOld(o, pr);
  }

  /** Of a repository that is due, only hashes, check-only and dry-run decide. */
  lemma DueConditions(inSkip: bool, p: Path, prev: Option<RepoInfo>, o: ScanOptions, pr: Probe, status: Status)
    requires Due(inSkip, o, pr)
    ensures !Throws(inSkip, o, pr)
    ensures Pulls(inSkip, p, o, pr) <==> MaybeAhead(o, pr) && !CheckOnly(o, p) && !o.dryRun
    ensures Published(status, inSkip, p, prev, o, pr) <==>
              || (status == Error && o.hashCheck && HashMissing(pr))
              || (status == UpToDate && o.hashCheck && !HashMissing(pr) && pr.localHash == pr.remoteHash)
              || (status == RemoteAhead && MaybeAhead(o, pr) && (CheckOnly(o, p) || o.dryRun))
    ensures PutAside(inSkip, prev, o, pr) <==> o.hashCheck && HashMissing(pr) && GaveUp(prev, o)
  {
  }

  lemma DueExactly(inSkip: bool, p: Path, prev: Option<RepoInfo>, o: ScanOptions, pr: Probe, status: Status)
    requires Due(inSkip, o, pr)
    ensures Exact(inSkip, p, prev, o, pr, status)
  {
    DueGoesOn(inSkip, p, prev, o, pr);
    DueConditions(inSkip, p, prev, o, pr, status);
    ActionExactly(p, prev, o, pr, DueInfo(prev, o, pr));
  }

  /** The exact condition of every answer of the part of process_repo before the pull. */
  lemma VerdictExactly(inSkip: bool, p: Path, prev: Option<RepoInfo>, o: ScanOptions, pr: Probe, status: Status)
    ensures var r := Judge(inSkip, p, prev, o, pr);
            && (r.Thrown? <==> Throws(inSkip, o, pr))
            && (r.StartPull? <==> Pulls(inSkip, p, o, pr))
            && (r.Publish? && r.info.status == status <==> Published(status, inSkip, p, prev, o, pr))
            && (r.Publish? && r.fatal <==> PutAside(inSkip, prev, o, pr))
  {
    if pr.validating != NoFault {
      BlindExactly(inSkip, p, prev, o, pr, status);
    } else if !Fit(inSkip, o, pr) {
      UnfitExactly(inSkip, p, prev, o, pr, status);
    } else if pr.deciding != NoFault {
      FaultExactly(inSkip, p, prev, o, pr, status);
    } else if !Young(o, pr) {
      OldExactly(inSkip, p, prev, o, pr, status);
    } else {
      DueExactly(inSkip, p, prev, o, pr, status);
    }
    assert Exact(inSkip, p, prev, o, pr, status);
  }

  // ---------------------------------------------------------------- the tables afterwards

  /** What try_pull leaves of this path's checkout, and its code. */
  function Pull(sh: Shared, p: Path, o: ScanOptions, pr: Probe): PullResult {
    PullOutcome(TreeOf(sh, p), o.remote, Target(o, p), ForcePull(o, p), pr.git)
  }

  /** process_repo publishes this status after a pull. */
  predicate PublishedAfterPull(status: Status, code: int, pr: Probe) {
    || (pr.finishing == FileError && status == Error)
    || (pr.finishing == NoFault &&
        match code
        case 0 => status == PullOk
        case 3 => status == Dirty
        case 4 => status == Timeout
        case 5 => status == RateLimit
        case _ => status == Error)
  }

  predicate Ends(sh: Shared, p: Path) {
    !sh.running || (p in sh.infos && sh.infos[p].status in {NotGit, Pulling, Checking})
  }

  /** A stopped run, a NOT_GIT and a busy entry end process_repo at once. */
  lemma EndsAtOnce(sh: Shared, p: Path, o: ScanOptions, pr: Probe)
    requires Ends(sh, p)
    ensures ProcessRepo(sh, p, o, pr) == Processed(sh, false)
  {
  }

  /** Without a pull: one entry is written, no checkout is touched, nothing is printed. */
  lemma NoPullExactly(sh: Shared, p: Path, o: ScanOptions, pr: Probe, status: Status)
    requires !Ends(sh, p) && !Pulls(p in sh.skip, p, o, pr)
    ensures var r := ProcessRepo(sh, p, o, pr);
            var prev := Lookup(sh, p);
            && (r.thrown <==> Throws(p in sh.skip, o, pr))
            && r.sh.trees == sh.trees && r.sh.updated == sh.updated && r.sh.pulledOk == sh.pulledOk
            && (r.thrown ==> r.sh == sh)
            && (!r.thrown ==>
                  && r.sh.infos.Keys == sh.infos.Keys + {p} && (forall q :: q in sh.infos && q != p ==> r.sh.infos[q] == sh.infos[q])
                  && (r.sh.infos[p].status == status <==> Published(status, p in sh.skip, p, prev, o, pr))
                  && (r.sh.infos[p].pulled <==> prev.Some? && prev.value.pulled)
                  && r.sh.skip == sh.skip + (if PutAside(p in sh.skip, prev, o, pr) then {p} else {})
                  && Hist(r.sh, p) == Hist(sh, p) + [r.sh.infos[p].status])
  {
    VerdictExactly(p in sh.skip, p, Lookup(sh, p), o, pr, status);
    var v := Judge(p in sh.skip, p, Lookup(sh, p), o, pr);
    assert !v.StartPull?;
    if v.Publish? {
      assert v.info.pulled == WasPulled(Lookup(sh, p));
      PublishedTables(sh, p, Lookup(sh, p), v.info, v.fatal, o);
    }
  }

  lemma PublishedTables(sh: Shared, p: Path, prev: Option<RepoInfo>, info: RepoInfo, fatal: bool, o: ScanOptions)
    requires info.pulled == WasPulled(prev)
    ensures var r := Announce(Put(MarkFatal(sh, p, fatal), p, info), p, prev, info, o);
            && r.trees == sh.trees && r.updated == sh.updated && r.pulledOk == sh.pulledOk
            && r.infos == sh.infos[p := info]
            && r.skip == sh.skip + (if fatal then {p} else {})
            && Hist(r, p) == Hist(sh, p) + [info.status]
  {
  }

  /** What a pull leaves of the tables, given the checkout and the code that try_pull answered. */
  predicate LeavesTables(sh: Shared, p: Path, o: ScanOptions, pr: Probe, pull: PullResult, r: Processed) {
    && (r.thrown <==> pr.finishing == OtherError)
    && r.sh.trees == sh.trees[p := pull.tree]
    && r.sh.pulledOk == sh.pulledOk + (if pull.code == 0 then {p} else {})
    && r.sh.infos.Keys == sh.infos.Keys + {p} && (forall q :: q in sh.infos && q != p ==> r.sh.infos[q] == sh.infos[q])
    && r.sh.skip == sh.skip +
         (if (pull.code == 2 || pr.finishing == FileError) && GaveUp(Lookup(sh, p), o) then {p} else {})
  }

  /**
   * The entry after a pull: its status follows the code, the flag is on if it
   * was or the code is 0, and "Updated" is printed exactly when this call
   * turned it on and printing is enabled. An exception leaves PULLING behind.
   */
  predicate LeavesEntry(sh: Shared, p: Path, o: ScanOptions, pr: Probe, code: int, r: Processed, status: Status) {
    var was := p in sh.infos && sh.infos[p].pulled;
    && p in r.sh.infos
    && if r.thrown then
         r.sh.infos[p].status == Pulling && r.sh.updated == sh.updated && Hist(r.sh, p) == Hist(sh, p) + [Pulling]
       else
         && (r.sh.infos[p].status == status <==> PublishedAfterPull(status, code, pr))
         && (r.sh.infos[p].pulled <==> was || code == 0)
         && r.sh.updated == sh.updated + (if o.printsUpdates && !was && code == 0 then multiset{p} else multiset{})
         && Hist(r.sh, p) == Hist(sh, p) + [Pulling, r.sh.infos[p].status]
  }

  /** With a pull: the checkout is what try_pull left, code 0 is remembered, and nobody else's entry changes. */
  lemma PullExactly(sh: Shared, p: Path, o: ScanOptions, pr: Probe, status: Status)
    requires !Ends(sh, p) && Pulls(p in sh.skip, p, o, pr)
    ensures LeavesTables(sh, p, o, pr, Pull(sh, p, o, pr), ProcessRepo(sh, p, o, pr))
    ensures LeavesEntry(sh, p, o, pr, Pull(sh, p, o, pr).code, ProcessRepo(sh, p, o, pr), status)
  {
    var prev := Lookup(sh, p);
    var info := PullStarts(p in sh.skip, p, prev, o, pr);
    var pull := Pull(sh, p, o, pr);
    var auth := AuthFailedIn(p, o, pr);
    PullEnds(sh, p, o, pr, info);
    Assembled(sh, p, info, o, pr, pull, auth, ProcessRepo(sh, p, o, pr), status);
  }

  lemma PullStarts(inSkip: bool, p: Path, prev: Option<RepoInfo>, o: ScanOptions, pr: Probe) returns (info: RepoInfo)
    requires Pulls(inSkip, p, o, pr)
    ensures Judge(inSkip, p, prev, o, pr) == StartPull(info)
    ensures info.status == Pulling && info.pulled == WasPulled(prev)
  {
    VerdictExactly(inSkip, p, prev, o, pr, Pulling);
    info := Judge(inSkip, p, prev, o, pr).info;
  }

  /** The parts of PullEnds, in the words above. */
  lemma Assembled(sh: Shared, p: Path, info: RepoInfo, o: ScanOptions, pr: Probe, pull: PullResult, auth: bool, r: Processed, status: Status)
    requires pull.code in {0, 2, 3, 4, 5} && info.status == Pulling && info.pulled == WasPulled(Lookup(sh, p))
    requires EndsAs(sh, p, info, o, pull, Conclude(info, WasAccessible(Lookup(sh, p)), o, pull.code, auth, pr), r)
    ensures LeavesTables(sh, p, o, pr, pull, r)
    ensures LeavesEntry(sh, p, o, pr, pull.code, r, status)
  {
    ConclusionExactly(Lookup(sh, p), info, o, pull.code, auth, pr);
    if pr.finishing != OtherError { LandedStatus(pull.code, pr, status); }
  }

  /** The tables at the end of a pull with this conclusion. */
  predicate EndsAs(sh: Shared, p: Path, info: RepoInfo, o: ScanOptions, pull: PullResult, c: Conclusion, r: Processed) {
    && (r.thrown <==> c.Broken?)
    && r.sh.trees == sh.trees[p := pull.tree]
    && r.sh.pulledOk == sh.pulledOk + (if pull.code == 0 then {p} else {})
    && r.sh.skip == sh.skip + (if c.fatal then {p} else {})
    && r.sh.infos == sh.infos[p := if c.Broken? then info.(progress := 100) else c.info]
    && r.sh.updated == sh.updated +
         (if c.Settled? && o.printsUpdates && c.info.pulled && !WasPulled(Lookup(sh, p)) then multiset{p} else multiset{})
    && Hist(r.sh, p) == Hist(sh, p) + if c.Broken? then [info.status] else [info.status, c.info.status]
  }

  /** The steps of a pull, one after the other. */
  lemma PullEnds(sh: Shared, p: Path, o: ScanOptions, pr: Probe, info: RepoInfo)
    requires !Ends(sh, p) && Judge(p in sh.skip, p, Lookup(sh, p), o, pr) == StartPull(info)
    ensures var c := Conclude(info, WasAccessible(Lookup(sh, p)), o, Pull(sh, p, o, pr).code, AuthFailedIn(p, o, pr), pr);
            EndsAs(sh, p, info, o, Pull(sh, p, o, pr), c, ProcessRepo(sh, p, o, pr))
  {
    var prev := Lookup(sh, p);
    var c := Conclude(info, WasAccessible(prev), o, Pull(sh, p, o, pr).code, AuthFailedIn(p, o, pr), pr);
    ProcessPulls(sh, p, o, pr, info);
    PulledTables(sh, p, info, o, pr, c.fatal);
    EndTables(sh, p, prev, info, c, o, Pulled(sh, p, info, o, pr, c.fatal));
  }

  /** From the tables when the pull is over to those at the end. */
  lemma EndTables(sh: Shared, p: Path, prev: Option<RepoInfo>, info: RepoInfo, c: Conclusion, o: ScanOptions, pulled: Shared)
    requires pulled.infos == sh.infos[p := info.(progress := 100)] && pulled.updated == sh.updated
    requires Hist(pulled, p) == Hist(sh, p) + [info.status]
    ensures var r := if c.Broken? then pulled else Announce(Put(pulled, p, c.info), p, prev, c.info, o);
            && r.trees == pulled.trees && r.pulledOk == pulled.pulledOk && r.skip == pulled.skip
            && r.infos == sh.infos[p := if c.Broken? then info.(progress := 100) else c.info]
            && r.updated == sh.updated +
                 (if c.Settled? && o.printsUpdates && c.info.pulled && !WasPulled(prev) then multiset{p} else multiset{})
            && Hist(r, p) == Hist(sh, p) + if c.Broken? then [info.status] else [info.status, c.info.status]
  {
    if c.Settled? {
      LandedTables(pulled, p, prev, c.info, o);
      Snoc(Hist(sh, p), info.status, c.info.status);
    }
  }

  lemma Snoc(h: seq<Status>, a: Status, b: Status)
    ensures h + [a] + [b] == h + [a, b]
  {
  }

  /** The tables when the pull is over and its code is mapped. */
  function Pulled(sh: Shared, p: Path, info: RepoInfo, o: ScanOptions, pr: Probe, fatal: bool): Shared {
    MarkFatal(SetProgress(AfterPull(Put(sh, p, info), p, o, pr), p, 100), p, fatal)
  }

  lemma ProcessPulls(sh: Shared, p: Path, o: ScanOptions, pr: Probe, info: RepoInfo)
    requires !Ends(sh, p) && Judge(p in sh.skip, p, Lookup(sh, p), o, pr) == StartPull(info)
    ensures var prev := Lookup(sh, p);
            var c := Conclude(info, WasAccessible(prev), o, Pull(sh, p, o, pr).code, AuthFailedIn(p, o, pr), pr);
            var pulled := Pulled(sh, p, info, o, pr, c.fatal);
            ProcessRepo(sh, p, o, pr) ==
            if c.Broken? then Processed(pulled, true)
            else Processed(Announce(Put(pulled, p, c.info), p, prev, c.info, o), false)
  {
    assert TreeOf(Put(sh, p, info), p) == TreeOf(sh, p);
    assert PullOf(Put(sh, p, info), p, o, pr) == Pull(sh, p, o, pr);
  }

  lemma ConclusionExactly(prev: Option<RepoInfo>, info: RepoInfo, o: ScanOptions, code: int, authFailed: bool, pr: Probe)
    requires code in {0, 2, 3, 4, 5}
    ensures var c := Conclude(info, WasAccessible(prev), o, code, authFailed, pr);
            && (c.Broken? <==> pr.finishing == OtherError)
            && (c.Settled? ==>
                  && c.info.status == (if pr.finishing == FileError then Error else StatusOfCode(code))
                  && (c.info.pulled <==> info.pulled || code == 0))
            && (c.fatal <==> (code == 2 || pr.finishing == FileError) && GaveUp(prev, o))
  {
    CodeExactly(code);
    assert GivesUp(o, WasAccessible(prev)) <==> GaveUp(prev, o);
  }

  lemma LandedStatus(code: int, pr: Probe, status: Status)
    requires code in {0, 2, 3, 4, 5} && pr.finishing != OtherError
    ensures PublishedAfterPull(status, code, pr) <==>
            status == if pr.finishing == FileError then Error else StatusOfCode(code)
  {
    CodeExactly(code);
  }

  lemma CodeExactly(code: int)
    requires code in {0, 2, 3, 4, 5}
    ensures StatusOfCode(code) == if code == 0 then PullOk else if code == 3 then Dirty
                                  else if code == 4 then Timeout else if code == 5 then RateLimit else Error
  {
  }

  lemma PulledTables(sh: Shared, p: Path, info: RepoInfo, o: ScanOptions, pr: Probe, fatal: bool)
    ensures var pulled := Pulled(sh, p, info, o, pr, fatal);
            && pulled.trees == sh.trees[p := Pull(sh, p, o, pr).tree]
            && pulled.pulledOk == sh.pulledOk + (if Pull(sh, p, o, pr).code == 0 then {p} else {})
            && pulled.infos == sh.infos[p := info.(progress := 100)]
            && pulled.skip == sh.skip + (if fatal then {p} else {}) && pulled.updated == sh.updated
            && Hist(pulled, p) == Hist(sh, p) + [info.status]
  {
    assert TreeOf(Put(sh, p, info), p) == TreeOf(sh, p);
    assert PullOf(Put(sh, p, info), p, o, pr) == Pull(sh, p, o, pr);
  }

  lemma LandedTables(sh: Shared, p: Path, prev: Option<RepoInfo>, info: RepoInfo, o: ScanOptions)
    ensures var r := Announce(Put(sh, p, info), p, prev, info, o);
            && r.trees == sh.trees && r.pulledOk == sh.pulledOk && r.skip == sh.skip
            && r.infos == sh.infos[p := info]
            && r.updated == sh.updated + (if o.printsUpdates && info.pulled && !WasPulled(prev) then multiset{p} else multiset{})
            && Hist(r, p) == Hist(sh, p) + [info.status]
  {
  }
}
