/**
 * One scan of src/scanner/scan.cpp: the reset of the status table and the pool
 * of workers that claim repositories through an atomic counter. A worker's
 * program counter stands between two atomic steps; any interleaving of the
 * workers' steps is allowed.
 */
module ScanPool {
  import opened Basics
  import opened GitPull
  import opened RepoScan

  // ---------------------------------------------------------------- the reset

  predicate KeepsOld(o: ScanOptions, skip: set<Path>, p: Path) {
    p in skip && !o.retrySkipped && !o.resetSkipped
  }

  function ResetEntry(o: ScanOptions, skip: set<Path>, p: Path, info: RepoInfo): RepoInfo {
    if KeepsOld(o, skip, p) || info.status == NotGit then info
    else info.(status := Pending, progress := 0)
  }

  function ResetInfos(o: ScanOptions, skip: set<Path>, infos: map<Path, RepoInfo>): map<Path, RepoInfo> {
    map p | p in infos :: ResetEntry(o, skip, p, infos[p])
  }

  function ResetTables(sh: Shared, o: ScanOptions): Shared {
    sh.(infos := ResetInfos(o, sh.skip, sh.infos),
        skip := if o.retrySkipped then {} else sh.skip,
        hist := map[])
  }

  /**
   * What the reset means for one entry: NOT_GIT stays, a skipped entry stays
   * unless skipped ones are retried or reset, any other becomes PENDING; flags
   * and times are never touched, and the skip list is emptied only to retry.
   */
  lemma ResetExactly(sh: Shared, o: ScanOptions, p: Path)
    ensures var r := ResetTables(sh, o);
            && (p in r.infos <==> p in sh.infos)
            && (p in sh.infos ==>
                  var old_, new_ := sh.infos[p], r.infos[p];
                  var stays := old_.status == NotGit || (p in sh.skip && !o.retrySkipped && !o.resetSkipped);
                  new_ == if stays then old_ else RepoInfo(Pending, old_.pulled, old_.authFailed, 0, old_.commitTime))
            && r.skip == (if o.retrySkipped then {} else sh.skip)
            && r.trees == sh.trees && r.running == sh.running && r.updated == sh.updated && Hist(r, p) == []
  {
  }

  /** The reset loop over the status table, entry by entry. */
  method ResetPhase(scanner: Scanner, o: ScanOptions)
    modifies scanner
    ensures scanner.View() == ResetTables(old(scanner.View()), o)
  {
    var todo := scanner.repoInfos.Keys;
    ghost var before := scanner.repoInfos;
    ghost var skip := scanner.skipRepos;
    while todo != {}
      invariant todo <= before.Keys
      invariant scanner.repoInfos.Keys == before.Keys
      invariant forall p :: p in todo ==> scanner.repoInfos[p] == before[p]
      invariant forall p :: p in before && p !in todo ==> scanner.repoInfos[p] == ResetEntry(o, skip, p, before[p])
      invariant scanner.skipRepos == skip && scanner.running == old(scanner.running) && scanner.trees == old(scanner.trees)
      invariant scanner.updated == old(scanner.updated)
      invariant scanner.pulledOk == old(scanner.pulledOk) && scanner.crashed == old(scanner.crashed)
      decreases todo
    {
      var p :| p in todo;
      var info := scanner.repoInfos[p];
      if p in scanner.skipRepos && o.resetSkipped && info.status != NotGit {
        info := info.(status := Pending, progress := 0);
      }
      if !(p in scanner.skipRepos && !o.retrySkipped) && info.status != NotGit {
        info := info.(status := Pending, progress := 0);
      }
      scanner.repoInfos := scanner.repoInfos[p := info];
      todo := todo - {p};
    }
    assert scanner.repoInfos == ResetInfos(o, skip, before);
    if o.retrySkipped {
      scanner.skipRepos := {};
    }
    scanner.hist := map[];
  }

  // ---------------------------------------------------------------- the workers

  datatype Pc =
    | AtLoop                                                       // while (running)
    | AtClaim                                                      // next_index.fetch_add(1)
    | AtSkip(i: nat)                                               // skip_repos.count(p)
    | AtOptions(i: nat)                                            // overrides; an excluded path ends here
    | AtEnter(i: nat)                                              // process_repo tests running
    | AtEntry(i: nat)                                              // first look at the entry
    | AtSnapshot(i: nat)                                           // second look at the entry
    | AtJudge(i: nat, prev: Option<RepoInfo>)
    | AtStart(i: nat, prev: Option<RepoInfo>, info: RepoInfo)      // about to publish PULLING
    | AtPull(i: nat, prev: Option<RepoInfo>, info: RepoInfo, ticks: nat)
    | AtStore(i: nat, prev: Option<RepoInfo>, info: RepoInfo)      // about to publish the final entry
    | AtAnnounce(i: nat, prev: Option<RepoInfo>, info: RepoInfo)
    | AtMemory(i: nat)                                             // memory limit test
    | Exited

  predicate Holds(pc: Pc) { !pc.AtLoop? && !pc.AtClaim? && !pc.Exited? }

  datatype Phase = Resetting | Working | Tail | Ended

  datatype Scan = Scan(
    o: ScanOptions, phase: Phase, next: nat,
    claims: seq<nat>,       // claims[i] is the worker that claimed index i
    workers: seq<Pc>,
    skip0: set<Path>)       // the skip list right after the reset

  /** What the environment decides in one step. */
  datatype Choice = Choice(probe: Probe, ticks: nat, pct: int, overMemory: bool)

  datatype Next = Next(sh: Shared, sc: Scan)

  function MoveTo(sc: Scan, w: nat, pc: Pc): Scan
    requires w < |sc.workers|
  {
    sc.(workers := sc.workers[w := pc])
  }

  /** An exception reached the worker's catch-all handler. */
  function Crash(sh: Shared, sc: Scan, w: nat, p: Path): Next
    requires w < |sc.workers|
  {
    Next(sh.(running := false, crashed := sh.crashed + {p}), MoveTo(sc, w, Exited))
  }

  predicate CanStep(all: seq<Path>, sc: Scan, w: nat) {
    && sc.phase == Working
    && w < |sc.workers|
    && !sc.workers[w].Exited?
    && (Holds(sc.workers[w]) ==> sc.workers[w].i < |all|)
  }

  function WorkerStep(all: seq<Path>, sh: Shared, sc: Scan, w: nat, ch: Choice): Next
    requires CanStep(all, sc, w)
  {
    match sc.workers[w]
    case AtLoop => Next(sh, MoveTo(sc, w, if sh.running then AtClaim else Exited))
    case AtClaim =>
      if sc.next < |all| then
        Next(sh, MoveTo(sc, w, AtSkip(sc.next)).(next := sc.next + 1, claims := sc.claims + [w]))
      else Next(sh, MoveTo(sc, w, Exited).(next := sc.next + 1))
    case AtSkip(i) =>
      Next(sh, MoveTo(sc, w, if !sc.o.retrySkipped && all[i] in sh.skip then AtLoop else AtOptions(i)))
    case AtOptions(i) =>
      if Excluded(sc.o, all[i]) then
        Next(Put(sh, all[i], Lookup(sh, all[i]).GetOr(FRESH).(status := Skipped)), MoveTo(sc, w, AtLoop))
      else Next(sh, MoveTo(sc, w, AtEnter(i)))
    case AtEnter(i) => Next(sh, MoveTo(sc, w, if sh.running then AtEntry(i) else AtMemory(i)))
    case AtEntry(i) => Next(sh, MoveTo(sc, w, if Blocked(Lookup(sh, all[i])) then AtMemory(i) else AtSnapshot(i)))
    case AtSnapshot(i) => Next(sh, MoveTo(sc, w, AtJudge(i, Lookup(sh, all[i]))))
    case AtJudge(i, prev) => (
      match Judge(all[i] in sh.skip, all[i], prev, sc.o, ch.probe)
      case Thrown => Crash(sh, sc, w, all[i])
      case Publish(info, fatal) => Next(MarkFatal(sh, all[i], fatal), MoveTo(sc, w, AtStore(i, prev, info)))
      case StartPull(info) => Next(sh, MoveTo(sc, w, AtStart(i, prev, info))))
    case AtStart(i, prev, info) => Next(Put(sh, all[i], info), MoveTo(sc, w, AtPull(i, prev, info, ch.ticks)))
    case AtPull(i, prev, info, ticks) =>
      if ticks > 0 then Next(SetProgress(sh, all[i], ch.pct), MoveTo(sc, w, AtPull(i, prev, info, ticks - 1)))
      else PullStep(all, sh, sc, w, ch.probe)
    case AtStore(i, prev, info) => Next(Put(sh, all[i], info), MoveTo(sc, w, AtAnnounce(i, prev, info)))
    case AtAnnounce(i, prev, info) => Next(Announce(sh, all[i], prev, info, sc.o), MoveTo(sc, w, AtMemory(i)))
    case AtMemory(i) =>
      if ch.overMemory then Next(sh.(running := false), MoveTo(sc, w, Exited))
      else Next(sh, MoveTo(sc, w, AtLoop))
  }

  /** try_pull runs and its code is mapped; the entry still says PULLING. */
  function PullStep(all: seq<Path>, sh: Shared, sc: Scan, w: nat, pr: Probe): Next
    requires CanStep(all, sc, w) && sc.workers[w].AtPull?
  {
    var AtPull(i, prev, info, _) := sc.workers[w];
    Landing(all, sc, w, AfterPull(sh, all[i], sc.o, pr), PullConclusion(sh, all[i], prev, info, sc.o, pr))
  }

  function Landing(all: seq<Path>, sc: Scan, w: nat, pulled: Shared, c: Conclusion): Next
    requires CanStep(all, sc, w) && sc.workers[w].AtPull?
  {
    var AtPull(i, prev, _, _) := sc.workers[w];
    var after := MarkFatal(pulled, all[i], c.fatal);
    if c.Broken? then Crash(after, sc, w, all[i]) else Next(after, MoveTo(sc, w, AtStore(i, prev, c.info)))
  }

  // ---------------------------------------------------------------- what holds of one path

  /** Where index i of the list stands. */
  datatype Stage = Unclaimed | Held(pc: Pc) | Done

  function StageOf(sc: Scan, i: nat): Stage
    requires i < |sc.claims| ==> sc.claims[i] < |sc.workers|
  {
    if i >= |sc.claims| then Unclaimed
    else if Holds(sc.workers[sc.claims[i]]) && sc.workers[sc.claims[i]].i == i then Held(sc.workers[sc.claims[i]])
    else Done
  }

  /** The flags of a path no worker is in the middle of. */
  predicate Clean(o: ScanOptions, sh: Shared, p: Path) {
    && p in sh.infos
    && sh.infos[p].status != Checking
    && (sh.infos[p].status == NotGit ==> !Excluded(o, p))
    && (sh.infos[p].pulled ==> p in sh.pulledOk)
    && (p !in sh.crashed && p in sh.pulledOk ==> sh.infos[p].pulled)
    && sh.updated[p] <= 1
    && (sh.updated[p] == 1 ==> sh.infos[p].pulled)
  }

  /** Between scans: besides, only a crash leaves PULLING behind. */
  predicate Quiet(o: ScanOptions, sh: Shared, p: Path) {
    Clean(o, sh, p) && (sh.infos[p].status == Pulling ==> p in sh.crashed)
  }

  /**
   * What a scan published for a path it is done with: optionally PULLING and
   * then one final status. It published nothing for a path that was on the skip
   * list or already NOT_GIT, or when the run was stopped or crashed meanwhile.
   */
  predicate Published(sh: Shared, p: Path, skip0: set<Path>)
    requires p in sh.infos
  {
    var h := Hist(sh, p);
    || (h == [] && !Busy(sh.infos[p].status) && (sh.running ==> p in skip0 || sh.infos[p].status == NotGit))
    || (p !in skip0 && (h == [sh.infos[p].status] || h == [Pulling, sh.infos[p].status]) && Final(sh.infos[p].status))
    || (p in sh.crashed && (h == [] || h == [Pulling]))
  }

  /**
   * Not published yet in this scan, and fit to be processed unless it was being
   * skipped; only its own worker can put it on the skip list.
   */
  predicate Untouched(o: ScanOptions, sh: Shared, p: Path, skip0: set<Path>) {
    && Quiet(o, sh, p) && p !in sh.crashed && Hist(sh, p) == []
    && (p in skip0 || sh.infos[p].status in {Pending, NotGit})
    && (p in sh.skip ==> p in skip0)
  }

  predicate Ready(o: ScanOptions, sh: Shared, p: Path, skip0: set<Path>) {
    Untouched(o, sh, p, skip0) && p !in skip0 && !Excluded(o, p)
  }

  predicate MayPull(o: ScanOptions, p: Path) {
    !CheckOnly(o, p) && !o.dryRun && !Excluded(o, p)
  }

  predicate RowInv(o: ScanOptions, sh: Shared, p: Path, stage: Stage, skip0: set<Path>) {
    match stage
    case Unclaimed => Untouched(o, sh, p, skip0)
    case Done =>
      && Clean(o, sh, p) && Published(sh, p, skip0)
      && (Excluded(o, p) && Hist(sh, p) != [] ==> Hist(sh, p) == [Skipped] && sh.infos[p].status == Skipped)
    case Held(pc) =>
      match pc
      case AtSkip(_) => Untouched(o, sh, p, skip0)
      case AtOptions(_) => Untouched(o, sh, p, skip0) && p !in skip0
      case AtEnter(_) => Ready(o, sh, p, skip0)
      case AtEntry(_) => Ready(o, sh, p, skip0)
      case AtSnapshot(_) => Ready(o, sh, p, skip0) && sh.infos[p].status == Pending
      case AtJudge(_, prev) => Ready(o, sh, p, skip0) && sh.infos[p].status == Pending && prev == Some(sh.infos[p])
      case AtStart(_, prev, info) =>
        && Ready(o, sh, p, skip0) && sh.infos[p].status == Pending && prev == Some(sh.infos[p])
        && MayPull(o, p) && info.status == Pulling && info.pulled == prev.value.pulled
      case AtPull(_, prev, info, _) =>
        && Clean(o, sh, p) && p !in sh.crashed && p !in skip0
        && Hist(sh, p) == [Pulling] && sh.infos[p].status == Pulling
        && MayPull(o, p)
        && prev.Some? && prev.value.status == Pending && sh.infos[p].pulled == prev.value.pulled == info.pulled
      case AtStore(_, prev, info) =>
        && p in sh.infos && p !in sh.crashed && p !in skip0 && !Excluded(o, p) && Final(info.status)
        && ((Hist(sh, p) == [] && sh.infos[p].status == Pending) || (Hist(sh, p) == [Pulling] && sh.infos[p].status == Pulling))
        && prev.Some? && sh.infos[p].pulled == prev.value.pulled
        && (info.pulled <==> p in sh.pulledOk) && (prev.value.pulled ==> info.pulled)
        && sh.updated[p] <= 1 && (sh.updated[p] == 1 ==> prev.value.pulled)
      case AtAnnounce(_, prev, info) =>
        && !Excluded(o, p) && Clean(o, sh, p) && Published(sh, p, skip0) && Hist(sh, p) != [] && p !in sh.crashed && p !in skip0 && sh.infos[p] == info
        && prev.Some? && (sh.updated[p] == 1 ==> prev.value.pulled)
      case AtMemory(_) => !Excluded(o, p) && Clean(o, sh, p) && Published(sh, p, skip0) && p !in skip0
      case _ => false
  }

  /** Nothing the proofs say about q differs between the two tables. */
  predicate SameRow(sh: Shared, sh2: Shared, q: Path) {
    && Lookup(sh, q) == Lookup(sh2, q)
    && Hist(sh, q) == Hist(sh2, q)
    && (q in sh.pulledOk <==> q in sh2.pulledOk)
    && (q in sh.crashed <==> q in sh2.crashed)
    && (q in sh.skip <==> q in sh2.skip)
    && sh.updated[q] == sh2.updated[q]
  }

  lemma SameRowKeeps(o: ScanOptions, sh: Shared, sh2: Shared, q: Path, stage: Stage, skip0: set<Path>)
    requires SameRow(sh, sh2, q) && (sh2.running ==> sh.running)
    ensures RowInv(o, sh, q, stage, skip0) ==> RowInv(o, sh2, q, stage, skip0)
    ensures Quiet(o, sh, q) == Quiet(o, sh2, q)
  {
    assert q in sh.infos <==> q in sh2.infos;
    assert q in sh.infos ==> sh.infos[q] == sh2.infos[q];
  }

  // ---------------------------------------------------------------- what holds of the pool

  /** What a program counter alone implies, whether or not a path is listed twice. */
  predicate PcOk(all: seq<Path>, o: ScanOptions, pc: Pc) {
    Holds(pc) ==>
      && pc.i < |all|
      && (!pc.AtSkip? && !pc.AtOptions? ==> !Excluded(o, all[pc.i]))
      && (pc.AtStart? || pc.AtPull? ==> MayPull(o, all[pc.i]))
  }

  /** Whoever is past the skip test holds a path that was not on the skip list when the scan began. */
  predicate PastSkip(all: seq<Path>, skip0: set<Path>, pc: Pc) {
    Holds(pc) && !pc.AtSkip? && pc.i < |all| ==> all[pc.i] !in skip0
  }

  /** Every claimed index is held or finished by exactly the worker that claimed it; the claimed ones are a prefix. */
  ghost predicate ClaimsInv(all: seq<Path>, sh: Shared, sc: Scan) {
    && |sc.claims| == Min(sc.next, |all|)
    && (forall k :: 0 <= k < |sc.claims| ==> sc.claims[k] < |sc.workers|)
    && (forall w :: 0 <= w < |sc.workers| && Holds(sc.workers[w]) ==>
          sc.workers[w].i < |sc.claims| && sc.claims[sc.workers[w].i] == w)
    && (forall w :: 0 <= w < |sc.workers| && sc.workers[w].Exited? ==> !sh.running || |sc.claims| == |all|)
    && (forall w :: 0 <= w < |sc.workers| ==> PcOk(all, sc.o, sc.workers[w]) && PastSkip(all, sc.skip0, sc.workers[w]))
    && (sh.crashed != {} ==> !sh.running)
    && sc.skip0 <= sh.skip
    && (sc.o.retrySkipped ==> sc.skip0 == {})
  }

  ghost predicate RowsInv(all: seq<Path>, sh: Shared, sc: Scan)
    requires ClaimsInv(all, sh, sc)
  {
    && (forall i :: 0 <= i < |all| ==> RowInv(sc.o, sh, all[i], StageOf(sc, i), sc.skip0))
    && (forall p :: p in sh.infos && p !in all ==> Quiet(sc.o, sh, p))
  }

  /** Claims facts hold for any list; per-path facts when no path is listed twice. */
  ghost predicate PoolInv(all: seq<Path>, sh: Shared, sc: Scan) {
    ClaimsInv(all, sh, sc) && (Distinct(all) ==> RowsInv(all, sh, sc))
  }

  /** A worker that holds index i takes a step that touches only its own row. */
  lemma RowStep(all: seq<Path>, sh: Shared, sc: Scan, w: nat, sh2: Shared, pc2: Pc)
    requires PoolInv(all, sh, sc) && Distinct(all)
    requires w < |sc.workers| && Holds(sc.workers[w])
    requires Holds(pc2) ==> pc2.i == sc.workers[w].i
    requires ClaimsInv(all, sh2, MoveTo(sc, w, pc2))
    requires sh2.running ==> sh.running
    requires forall q :: q != all[sc.workers[w].i] ==> SameRow(sh, sh2, q)
    requires RowInv(sc.o, sh2, all[sc.workers[w].i], if Holds(pc2) then Held(pc2) else Done, sc.skip0)
    ensures PoolInv(all, sh2, MoveTo(sc, w, pc2))
  {
    var sc2 := MoveTo(sc, w, pc2);
    var i := sc.workers[w].i;
    forall j | 0 <= j < |all| ensures RowInv(sc2.o, sh2, all[j], StageOf(sc2, j), sc2.skip0) {
      if j == i {
        assert StageOf(sc2, j) == if Holds(pc2) then Held(pc2) else Done;
      } else {
        assert all[j] != all[i];
        assert StageOf(sc2, j) == StageOf(sc, j);
        SameRowKeeps(sc.o, sh, sh2, all[j], StageOf(sc, j), sc.skip0);
      }
    }
    forall q | q in sh2.infos && q !in all ensures Quiet(sc2.o, sh2, q) {
      assert SameRow(sh, sh2, q);
      SameRowKeeps(sc.o, sh, sh2, q, Done, sc.skip0);
    }
  }

  /** The claims facts survive a worker's move that claims nothing. */
  lemma ClaimsStep(all: seq<Path>, sh: Shared, sc: Scan, w: nat, sh2: Shared, pc2: Pc)
    requires ClaimsInv(all, sh, sc) && w < |sc.workers|
    requires Holds(pc2) ==> Holds(sc.workers[w]) && pc2.i == sc.workers[w].i
    requires PcOk(all, sc.o, pc2) && PastSkip(all, sc.skip0, pc2)
    requires pc2.Exited? ==> !sh2.running || |sc.claims| == |all|
    requires sh2.running ==> sh.running
    requires sh2.crashed == sh.crashed || !sh2.running
    requires sh.skip <= sh2.skip
    ensures ClaimsInv(all, sh2, MoveTo(sc, w, pc2))
  {
    var sc2 := MoveTo(sc, w, pc2);
    forall v | 0 <= v < |sc2.workers| && Holds(sc2.workers[v])
      ensures sc2.workers[v].i < |sc2.claims| && sc2.claims[sc2.workers[v].i] == v
    {
      if v != w { assert sc2.workers[v] == sc.workers[v]; }
    }
    forall v | 0 <= v < |sc2.workers| && sc2.workers[v].Exited? ensures !sh2.running || |sc2.claims| == |all| {
      if v != w { assert sc2.workers[v] == sc.workers[v]; }
    }
    forall v | 0 <= v < |sc2.workers| ensures PcOk(all, sc2.o, sc2.workers[v]) && PastSkip(all, sc2.skip0, sc2.workers[v]) {
      if v != w { assert sc2.workers[v] == sc.workers[v]; }
    }
  }

  /** Only an included path passes the overrides, and only a path that may be pulled gets to the pull. */
  lemma PcStep(all: seq<Path>, sh: Shared, sc: Scan, w: nat, ch: Choice)
    requires CanStep(all, sc, w) && Holds(sc.workers[w]) && PcOk(all, sc.o, sc.workers[w])
    ensures w < |WorkerStep(all, sh, sc, w, ch).sc.workers|
    ensures PcOk(all, sc.o, WorkerStep(all, sh, sc, w, ch).sc.workers[w])
  {
  }

  /** The skip list only grows, so the skip test lets no path through that was on it at the start. */
  lemma SkipStep(all: seq<Path>, sh: Shared, sc: Scan, w: nat, ch: Choice)
    requires CanStep(all, sc, w) && Holds(sc.workers[w]) && PastSkip(all, sc.skip0, sc.workers[w])
    requires sc.skip0 <= sh.skip && (sc.o.retrySkipped ==> sc.skip0 == {})
    ensures var workers := WorkerStep(all, sh, sc, w, ch).sc.workers;
            w < |workers| && PastSkip(all, sc.skip0, workers[w])
  {
    StepFrame(all, sh, sc, w, ch);
  }

  /** A step leaves every row but its worker's own alone, and goes where that worker's program goes. */
  ghost predicate FramedStep(sh: Shared, sc: Scan, w: nat, p: Path, n: Next)
    requires w < |sc.workers| && Holds(sc.workers[w])
  {
    && |n.sc.workers| == |sc.workers|
    && var pc2 := n.sc.workers[w];
    && n.sc == MoveTo(sc, w, pc2)
    && (forall q :: q != p ==> SameRow(sh, n.sh, q))
    && (Holds(pc2) ==> pc2.i == sc.workers[w].i)
    && (pc2.Exited? ==> !n.sh.running)
    && (n.sh.running ==> sh.running)
    && (n.sh.crashed == sh.crashed || !n.sh.running)
    && sh.skip <= n.sh.skip <= sh.skip + {p}
  }

  /** try_pull's effect on the tables: the repository itself, and the memory of a success. */
  lemma PullEffect(sh: Shared, p: Path, o: ScanOptions, pr: Probe)
    ensures var after := AfterPull(sh, p, o, pr);
            && after.infos == sh.infos && after.hist == sh.hist && after.updated == sh.updated
            && after.running == sh.running && after.crashed == sh.crashed && after.skip == sh.skip
            && (forall q :: q != p ==> (q in after.pulledOk <==> q in sh.pulledOk))
            && (p in after.pulledOk <==> p in sh.pulledOk || PullOf(sh, p, o, pr).code == CODE_OK)
  {
  }

  /** The writers of the tables touch one row each. */
  lemma PutIsLocal(sh: Shared, p: Path, info: RepoInfo, q: Path)
    requires q != p
    ensures SameRow(sh, Put(sh, p, info), q)
  {
  }

  lemma MarkIsLocal(sh: Shared, p: Path, fatal: bool, q: Path)
    requires q != p
    ensures SameRow(sh, MarkFatal(sh, p, fatal), q)
  {
  }

  lemma AnnounceIsLocal(sh: Shared, p: Path, prev: Option<RepoInfo>, info: RepoInfo, o: ScanOptions, q: Path)
    requires q != p
    ensures SameRow(sh, Announce(sh, p, prev, info, o), q)
  {
  }

  lemma PullIsLocal(sh: Shared, p: Path, o: ScanOptions, pr: Probe, fatal: bool, q: Path)
    requires q != p
    ensures SameRow(sh, MarkFatal(AfterPull(sh, p, o, pr), p, fatal), q)
  {
    PullEffect(sh, p, o, pr);
  }

  lemma PullFrame(all: seq<Path>, sh: Shared, sc: Scan, w: nat, pr: Probe)
    requires CanStep(all, sc, w) && sc.workers[w].AtPull?
    ensures FramedStep(sh, sc, w, all[sc.workers[w].i], PullStep(all, sh, sc, w, pr))
  {
    var AtPull(i, prev, info, _) := sc.workers[w];
    var c := PullConclusion(sh, all[i], prev, info, sc.o, pr);
    var after := MarkFatal(AfterPull(sh, all[i], sc.o, pr), all[i], c.fatal);
    forall q | q != all[i] ensures SameRow(sh, after, q) {
      PullIsLocal(sh, all[i], sc.o, pr, c.fatal, q);
    }
    MarkFatalShape(sh, all[i], sc.o, pr, c.fatal);
    if c.Broken? {
      CrashFrame(sh, sc, w, all[i], after);
    } else {
      MoveFrame(sh, sc, w, all[i], after, AtStore(i, prev, c.info));
    }
  }

  lemma MarkFatalShape(sh: Shared, p: Path, o: ScanOptions, pr: Probe, fatal: bool)
    ensures var after := MarkFatal(AfterPull(sh, p, o, pr), p, fatal);
            after.running == sh.running && after.crashed == sh.crashed && sh.skip <= after.skip <= sh.skip + {p}
  {
    PullEffect(sh, p, o, pr);
  }

  lemma MoveFrame(sh: Shared, sc: Scan, w: nat, p: Path, sh2: Shared, pc2: Pc)
    requires w < |sc.workers| && Holds(sc.workers[w]) && Holds(pc2) && pc2.i == sc.workers[w].i
    requires forall q :: q != p ==> SameRow(sh, sh2, q)
    requires sh2.running == sh.running && sh2.crashed == sh.crashed && sh.skip <= sh2.skip <= sh.skip + {p}
    ensures FramedStep(sh, sc, w, p, Next(sh2, MoveTo(sc, w, pc2)))
  {
  }

  lemma CrashFrame(sh: Shared, sc: Scan, w: nat, p: Path, sh2: Shared)
    requires w < |sc.workers| && Holds(sc.workers[w])
    requires forall q :: q != p ==> SameRow(sh, sh2, q)
    requires sh2.running == sh.running && sh2.crashed == sh.crashed && sh.skip <= sh2.skip <= sh.skip + {p}
    ensures FramedStep(sh, sc, w, p, Crash(sh2, sc, w, p))
  {
    var n := Crash(sh2, sc, w, p);
    forall q | q != p ensures SameRow(sh, n.sh, q) {
      assert SameRow(sh, sh2, q);
    }
  }

  lemma JudgeFrame(all: seq<Path>, sh: Shared, sc: Scan, w: nat, ch: Choice)
    requires CanStep(all, sc, w) && sc.workers[w].AtJudge?
    ensures FramedStep(sh, sc, w, all[sc.workers[w].i], WorkerStep(all, sh, sc, w, ch))
  {
    var AtJudge(i, prev) := sc.workers[w];
    match Judge(all[i] in sh.skip, all[i], prev, sc.o, ch.probe)
    case Thrown =>
      CrashFrame(sh, sc, w, all[i], sh);
    case Publish(info, fatal) =>
      forall q | q != all[i] ensures SameRow(sh, MarkFatal(sh, all[i], fatal), q) {
        MarkIsLocal(sh, all[i], fatal, q);
      }
      MoveFrame(sh, sc, w, all[i], MarkFatal(sh, all[i], fatal), AtStore(i, prev, info));
    case StartPull(info) =>
      MoveFrame(sh, sc, w, all[i], sh, AtStart(i, prev, info));
  }

  lemma PutFrame(all: seq<Path>, sh: Shared, sc: Scan, w: nat, info: RepoInfo, pc2: Pc)
    requires CanStep(all, sc, w) && Holds(sc.workers[w])
    requires Holds(pc2) ==> pc2.i == sc.workers[w].i
    requires !pc2.Exited?
    ensures var p := all[sc.workers[w].i]; FramedStep(sh, sc, w, p, Next(Put(sh, p, info), MoveTo(sc, w, pc2)))
  {
    var p := all[sc.workers[w].i];
    forall q | q != p ensures SameRow(sh, Put(sh, p, info), q) {
      PutIsLocal(sh, p, info, q);
    }
  }

  lemma WriteFrame(all: seq<Path>, sh: Shared, sc: Scan, w: nat, ch: Choice)
    requires CanStep(all, sc, w)
    requires sc.workers[w].AtStart? || sc.workers[w].AtStore? || sc.workers[w].AtAnnounce? || sc.workers[w].AtOptions?
    ensures FramedStep(sh, sc, w, all[sc.workers[w].i], WorkerStep(all, sh, sc, w, ch))
  {
    var p := all[sc.workers[w].i];
    match sc.workers[w]
    case AtStart(i, prev, info) => PutFrame(all, sh, sc, w, info, AtPull(i, prev, info, ch.ticks));
    case AtStore(i, prev, info) => PutFrame(all, sh, sc, w, info, AtAnnounce(i, prev, info));
    case AtAnnounce(i, prev, info) =>
      var sh2 := Announce(sh, p, prev, info, sc.o);
      forall q | q != p ensures SameRow(sh, sh2, q) {
        AnnounceIsLocal(sh, p, prev, info, sc.o, q);
      }
      MoveFrame(sh, sc, w, p, sh2, AtMemory(i));
    case AtOptions(i) =>
      if Excluded(sc.o, p) {
        PutFrame(all, sh, sc, w, Lookup(sh, p).GetOr(FRESH).(status := Skipped), AtLoop);
      } else {
        MoveFrame(sh, sc, w, p, sh, AtEnter(i));
      }
  }

  lemma TickFrame(all: seq<Path>, sh: Shared, sc: Scan, w: nat, ch: Choice)
    requires CanStep(all, sc, w) && sc.workers[w].AtPull? && sc.workers[w].ticks > 0
    ensures FramedStep(sh, sc, w, all[sc.workers[w].i], WorkerStep(all, sh, sc, w, ch))
  {
    var AtPull(i, prev, info, ticks) := sc.workers[w];
    MoveFrame(sh, sc, w, all[i], SetProgress(sh, all[i], ch.pct), AtPull(i, prev, info, ticks - 1));
  }

  lemma TestFrame(all: seq<Path>, sh: Shared, sc: Scan, w: nat, ch: Choice)
    requires CanStep(all, sc, w)
    requires var pc := sc.workers[w]; pc.AtSkip? || pc.AtEnter? || pc.AtEntry? || pc.AtSnapshot? || pc.AtMemory?
    ensures FramedStep(sh, sc, w, all[sc.workers[w].i], WorkerStep(all, sh, sc, w, ch))
  {
  }

  lemma StepFrame(all: seq<Path>, sh: Shared, sc: Scan, w: nat, ch: Choice)
    requires CanStep(all, sc, w) && Holds(sc.workers[w])
    ensures FramedStep(sh, sc, w, all[sc.workers[w].i], WorkerStep(all, sh, sc, w, ch))
  {
    match sc.workers[w]
    case AtPull(_, _, _, ticks) =>
      if ticks == 0 { PullFrame(all, sh, sc, w, ch.probe); } else { TickFrame(all, sh, sc, w, ch); }
    case AtJudge(_, _) => JudgeFrame(all, sh, sc, w, ch);
    case AtStart(_, _, _) => WriteFrame(all, sh, sc, w, ch);
    case AtStore(_, _, _) => WriteFrame(all, sh, sc, w, ch);
    case AtAnnounce(_, _, _) => WriteFrame(all, sh, sc, w, ch);
    case AtOptions(_) => WriteFrame(all, sh, sc, w, ch);
    case _ => TestFrame(all, sh, sc, w, ch);
  }

  /** The row after try_pull: the flag, the code and the entry still to be published agree. */
  lemma RowAfterPull(all: seq<Path>, sh: Shared, sc: Scan, w: nat, pr: Probe)
    requires CanStep(all, sc, w) && sc.workers[w].AtPull?
    requires RowInv(sc.o, sh, all[sc.workers[w].i], Held(sc.workers[w]), sc.skip0)
    ensures var n := PullStep(all, sh, sc, w, pr);
            var pc2 := n.sc.workers[w];
            RowInv(sc.o, n.sh, all[sc.workers[w].i], if Holds(pc2) then Held(pc2) else Done, sc.skip0)
  {
    var AtPull(i, prev, info, _) := sc.workers[w];
    var p := all[i];
    PullCode(sh, p, sc.o, pr);
    PullEffect(sh, p, sc.o, pr);
  }

  lemma RowAfterJudge(all: seq<Path>, sh: Shared, sc: Scan, w: nat, ch: Choice)
    requires CanStep(all, sc, w) && sc.workers[w].AtJudge?
    requires RowInv(sc.o, sh, all[sc.workers[w].i], Held(sc.workers[w]), sc.skip0)
    ensures var n := WorkerStep(all, sh, sc, w, ch);
            var pc2 := n.sc.workers[w];
            RowInv(sc.o, n.sh, all[sc.workers[w].i], if Holds(pc2) then Held(pc2) else Done, sc.skip0)
  {
  }

  /** Publishing the final entry: nothing, or PULLING, came before it. */
  lemma RowAfterStore(sh: Shared, o: ScanOptions, p: Path, pc: Pc, skip0: set<Path>)
    requires pc.AtStore? && RowInv(o, sh, p, Held(pc), skip0)
    ensures RowInv(o, Put(sh, p, pc.info), p, Held(AtAnnounce(pc.i, pc.prev, pc.info)), skip0)
  {
    var h := Hist(sh, p);
    assert Hist(Put(sh, p, pc.info), p) == if h == [] then [pc.info.status] else [Pulling, pc.info.status];
  }

  lemma RowAfterStart(sh: Shared, o: ScanOptions, p: Path, pc: Pc, skip0: set<Path>, ticks: nat)
    requires pc.AtStart? && RowInv(o, sh, p, Held(pc), skip0)
    ensures RowInv(o, Put(sh, p, pc.info), p, Held(AtPull(pc.i, pc.prev, pc.info, ticks)), skip0)
  {
    assert Hist(Put(sh, p, pc.info), p) == [Pulling];
  }

  /** An excluded path is marked SKIPPED and left. */
  lemma RowAfterExclusion(sh: Shared, o: ScanOptions, p: Path, pc: Pc, skip0: set<Path>)
    requires pc.AtOptions? && RowInv(o, sh, p, Held(pc), skip0) && Excluded(o, p)
    ensures RowInv(o, Put(sh, p, Lookup(sh, p).GetOr(FRESH).(status := Skipped)), p, Done, skip0)
  {
    assert Hist(Put(sh, p, Lookup(sh, p).GetOr(FRESH).(status := Skipped)), p) == [Skipped];
  }

  lemma RowAfterAnnounce(sh: Shared, o: ScanOptions, p: Path, pc: Pc, skip0: set<Path>)
    requires pc.AtAnnounce? && RowInv(o, sh, p, Held(pc), skip0)
    ensures RowInv(o, Announce(sh, p, pc.prev, pc.info, o), p, Held(AtMemory(pc.i)), skip0)
  {
  }

  /** The row of the worker's own path is where the next program counter wants it. */
  lemma RowAfter(all: seq<Path>, sh: Shared, sc: Scan, w: nat, ch: Choice)
    requires CanStep(all, sc, w) && Holds(sc.workers[w])
    requires sc.skip0 <= sh.skip && (sc.o.retrySkipped ==> sc.skip0 == {})
    requires RowInv(sc.o, sh, all[sc.workers[w].i], Held(sc.workers[w]), sc.skip0)
    ensures var n := WorkerStep(all, sh, sc, w, ch);
            var pc2 := n.sc.workers[w];
            RowInv(sc.o, n.sh, all[sc.workers[w].i], if Holds(pc2) then Held(pc2) else Done, sc.skip0)
  {
    match sc.workers[w]
    case AtPull(_, _, _, ticks) =>
      if ticks == 0 { RowAfterPull(all, sh, sc, w, ch.probe); } else { RowAfterTick(all, sh, sc, w, ch); }
    case AtJudge(_, _) => RowAfterJudge(all, sh, sc, w, ch);
    case AtStart(_, _, _) => RowAfterWrite(all, sh, sc, w, ch);
    case AtStore(_, _, _) => RowAfterWrite(all, sh, sc, w, ch);
    case AtAnnounce(_, _, _) => RowAfterWrite(all, sh, sc, w, ch);
    case AtOptions(_) => RowAfterWrite(all, sh, sc, w, ch);
    case _ => RowAfterTest(all, sh, sc, w, ch);
  }

  lemma RowAfterWrite(all: seq<Path>, sh: Shared, sc: Scan, w: nat, ch: Choice)
    requires CanStep(all, sc, w)
    requires var pc := sc.workers[w]; pc.AtStart? || pc.AtStore? || pc.AtAnnounce? || pc.AtOptions?
    requires RowInv(sc.o, sh, all[sc.workers[w].i], Held(sc.workers[w]), sc.skip0)
    ensures var n := WorkerStep(all, sh, sc, w, ch);
            var pc2 := n.sc.workers[w];
            RowInv(sc.o, n.sh, all[sc.workers[w].i], if Holds(pc2) then Held(pc2) else Done, sc.skip0)
  {
    var pc := sc.workers[w];
    var p := all[pc.i];
    match pc
    case AtStart(_, _, _) => RowAfterStart(sh, sc.o, p, pc, sc.skip0, ch.ticks);
    case AtStore(_, _, _) => RowAfterStore(sh, sc.o, p, pc, sc.skip0);
    case AtAnnounce(_, _, _) => RowAfterAnnounce(sh, sc.o, p, pc, sc.skip0);
    case AtOptions(_) => if Excluded(sc.o, p) { RowAfterExclusion(sh, sc.o, p, pc, sc.skip0); }
  }

  /** A progress callback moves a percentage and nothing else. */
  lemma RowAfterTick(all: seq<Path>, sh: Shared, sc: Scan, w: nat, ch: Choice)
    requires CanStep(all, sc, w) && sc.workers[w].AtPull? && sc.workers[w].ticks > 0
    requires RowInv(sc.o, sh, all[sc.workers[w].i], Held(sc.workers[w]), sc.skip0)
    ensures var n := WorkerStep(all, sh, sc, w, ch);
            Holds(n.sc.workers[w]) && RowInv(sc.o, n.sh, all[sc.workers[w].i], Held(n.sc.workers[w]), sc.skip0)
  {
  }

  /** The tests write nothing. */
  lemma RowAfterTest(all: seq<Path>, sh: Shared, sc: Scan, w: nat, ch: Choice)
    requires CanStep(all, sc, w)
    requires var pc := sc.workers[w]; pc.AtSkip? || pc.AtEnter? || pc.AtEntry? || pc.AtSnapshot? || pc.AtMemory?
    requires sc.skip0 <= sh.skip && (sc.o.retrySkipped ==> sc.skip0 == {})
    requires RowInv(sc.o, sh, all[sc.workers[w].i], Held(sc.workers[w]), sc.skip0)
    ensures var n := WorkerStep(all, sh, sc, w, ch);
            var pc2 := n.sc.workers[w];
            RowInv(sc.o, n.sh, all[sc.workers[w].i], if Holds(pc2) then Held(pc2) else Done, sc.skip0)
  {
  }

  lemma ClaimStep(all: seq<Path>, sh: Shared, sc: Scan, w: nat, ch: Choice)
    requires PoolInv(all, sh, sc) && CanStep(all, sc, w) && sc.workers[w].AtClaim? && sc.next < |all|
    ensures PoolInv(all, WorkerStep(all, sh, sc, w, ch).sh, WorkerStep(all, sh, sc, w, ch).sc)
  {
    var i := sc.next;
    var n := WorkerStep(all, sh, sc, w, ch);
    assert ClaimsInv(all, n.sh, n.sc) by {
      forall v | 0 <= v < |n.sc.workers| && Holds(n.sc.workers[v])
        ensures n.sc.workers[v].i < |n.sc.claims| && n.sc.claims[n.sc.workers[v].i] == v
      {
        if v != w { assert n.sc.workers[v] == sc.workers[v]; }
      }
      forall v | 0 <= v < |n.sc.workers| && n.sc.workers[v].Exited? ensures !n.sh.running || |n.sc.claims| == |all| {
        assert n.sc.workers[v] == sc.workers[v];
      }
      forall v | 0 <= v < |n.sc.workers| ensures PcOk(all, n.sc.o, n.sc.workers[v]) && PastSkip(all, n.sc.skip0, n.sc.workers[v]) {
        if v != w { assert n.sc.workers[v] == sc.workers[v]; }
      }
    }
    if Distinct(all) {
      forall j | 0 <= j < |all| ensures RowInv(n.sc.o, n.sh, all[j], StageOf(n.sc, j), n.sc.skip0) {
        if j == i {
          assert StageOf(sc, i) == Unclaimed;
          assert StageOf(n.sc, i) == Held(AtSkip(i));
        } else {
          assert StageOf(n.sc, j) == StageOf(sc, j);
        }
      }
    }
  }

  /** A move between AtLoop, AtClaim and Exited changes no stage. */
  lemma IdleStep(all: seq<Path>, sh: Shared, sc: Scan, w: nat, ch: Choice)
    requires PoolInv(all, sh, sc) && CanStep(all, sc, w)
    requires sc.workers[w].AtLoop? || (sc.workers[w].AtClaim? && sc.next >= |all|)
    ensures PoolInv(all, WorkerStep(all, sh, sc, w, ch).sh, WorkerStep(all, sh, sc, w, ch).sc)
  {
    var n := WorkerStep(all, sh, sc, w, ch);
    var pc2 := n.sc.workers[w];
    ClaimsStep(all, sh, sc, w, sh, pc2);
    assert n.sc == MoveTo(sc, w, pc2).(next := n.sc.next);
    assert forall v {:trigger n.sc.workers[v]} :: 0 <= v < |n.sc.workers| ==> n.sc.workers[v] == MoveTo(sc, w, pc2).workers[v];
    assert ClaimsInv(all, n.sh, n.sc);
    if Distinct(all) {
      forall j | 0 <= j < |all| ensures RowInv(n.sc.o, n.sh, all[j], StageOf(n.sc, j), n.sc.skip0) {
        assert StageOf(n.sc, j) == StageOf(sc, j);
      }
    }
  }

  /** Every step of every worker keeps the invariant, whatever the environment answers. */
  lemma WorkerStepKeeps(all: seq<Path>, sh: Shared, sc: Scan, w: nat, ch: Choice)
    requires PoolInv(all, sh, sc) && CanStep(all, sc, w)
    ensures PoolInv(all, WorkerStep(all, sh, sc, w, ch).sh, WorkerStep(all, sh, sc, w, ch).sc)
  {
    if !Holds(sc.workers[w]) {
      if sc.workers[w].AtClaim? && sc.next < |all| {
        ClaimStep(all, sh, sc, w, ch);
      } else {
        IdleStep(all, sh, sc, w, ch);
      }
    } else {
      var n := WorkerStep(all, sh, sc, w, ch);
      var i := sc.workers[w].i;
      StepFrame(all, sh, sc, w, ch);
      PcStep(all, sh, sc, w, ch);
      SkipStep(all, sh, sc, w, ch);
      ClaimsStep(all, sh, sc, w, n.sh, n.sc.workers[w]);
      if Distinct(all) {
        assert StageOf(sc, i) == Held(sc.workers[w]);
        RowAfter(all, sh, sc, w, ch);
        RowStep(all, sh, sc, w, n.sh, n.sc.workers[w]);
      }
    }
  }
}
