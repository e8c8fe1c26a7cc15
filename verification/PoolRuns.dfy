/**
 * What a whole scan promises, over every schedule of its workers: how it starts
 * and ends, that it ends, what process_repo can meet, and when a working tree
 * may move.
 */
module PoolRuns {
  import opened Basics
  import opened GitPull
  import opened RepoScan
  import opened ScanPool

  function WorkerCount(all: seq<Path>, o: ScanOptions): nat {
    Min(if o.concurrency == 0 then 1 else o.concurrency, |all|)
  }

  /** The reset has run and the workers are started. */
  function Started(all: seq<Path>, sh: Shared, o: ScanOptions): Next {
    var sh2 := ResetTables(sh, o);
    Next(sh2, Scan(o, Working, 0, [], seq(WorkerCount(all, o), _ => AtLoop), sh2.skip))
  }

  ghost predicate AllQuiet(o: ScanOptions, sh: Shared) {
    forall p :: p in sh.infos ==> Quiet(o, sh, p)
  }

  lemma ScanStarts(all: seq<Path>, sh: Shared, o: ScanOptions)
    requires forall p :: p in all ==> p in sh.infos
    requires sh.crashed == {}
    requires Distinct(all) ==> AllQuiet(o, sh)
    ensures PoolInv(all, Started(all, sh, o).sh, Started(all, sh, o).sc)
    ensures Started(all, sh, o).sh.infos.Keys == sh.infos.Keys
    // one worker per unit of concurrency, at least one, but no more than there are paths
    ensures var sc := Started(all, sh, o).sc;
            && |sc.workers| == (if |all| == 0 then 0 else if o.concurrency == 0 then 1
                                else if o.concurrency < |all| then o.concurrency else |all|)
            && sc.next == 0 && sc.skip0 == Started(all, sh, o).sh.skip
            && forall w :: 0 <= w < |sc.workers| ==> sc.workers[w] == AtLoop
  {
    var n := Started(all, sh, o);
    if Distinct(all) {
      forall p | p in n.sh.infos ensures Quiet(o, n.sh, p) && Hist(n.sh, p) == [] && Untouched(o, n.sh, p, n.sc.skip0) {
        assert Quiet(o, sh, p);
      }
      forall i | 0 <= i < |all| ensures RowInv(o, n.sh, all[i], StageOf(n.sc, i), n.sc.skip0) {
        assert StageOf(n.sc, i) == Unclaimed;
      }
    }
  }

  ghost predicate AllExited(sc: Scan) {
    forall w :: 0 <= w < |sc.workers| ==> sc.workers[w].Exited?
  }

  /** The scan has given the path a final status, and published it unless it was NOT_GIT all along. */
  predicate Completed(sh: Shared, p: Path) {
    && p in sh.infos && Final(sh.infos[p].status)
    && var h, status := Hist(sh, p), sh.infos[p].status;
    && (h == [status] || h == [Pulling, status] || (h == [] && status == NotGit))
  }

  /**
   * After the join every entry is quiet again: none is CHECKING, none PULLING
   * but after a crash, and every history is PENDING, optionally PULLING, then
   * one final status. A scan that nobody stopped has claimed every index and
   * completed every path, but those that were on the skip list when it began,
   * for which it published nothing.
   */
  lemma ScanEnds(all: seq<Path>, sh: Shared, sc: Scan)
    requires PoolInv(all, sh, sc) && AllExited(sc) && |sc.workers| == WorkerCount(all, sc.o)
    ensures sh.running ==> |sc.claims| == |all| && sh.crashed == {}
    ensures Distinct(all) ==> AllQuiet(sc.o, sh) && forall p :: p in all ==> p in sh.infos && Published(sh, p, sc.skip0)
    ensures Distinct(all) && sh.running ==>
              forall p :: p in all ==>
                if p in sc.skip0 then Hist(sh, p) == []
                else Completed(sh, p) && (Excluded(sc.o, p) ==> Hist(sh, p) == [Skipped] && sh.infos[p].status == Skipped)
  {
    if sh.running && |all| > 0 {
      assert sc.workers[0].Exited?;
    }
    if Distinct(all) {
      forall p | p in all ensures RowDone(sc.o, sh, p, sc.skip0) && Quiet(sc.o, sh, p) {
        var i :| 0 <= i < |all| && all[i] == p;
        assert RowInv(sc.o, sh, all[i], StageOf(sc, i), sc.skip0);
        if i < |sc.claims| {
          assert sc.workers[sc.claims[i]].Exited?;
          assert StageOf(sc, i) == Done;
        }
      }
    }
  }

  predicate RowDone(o: ScanOptions, sh: Shared, p: Path, skip0: set<Path>) {
    && Clean(o, sh, p) && Published(sh, p, skip0)
    && (Excluded(o, p) && Hist(sh, p) != [] ==> Hist(sh, p) == [Skipped] && sh.infos[p].status == Skipped)
  }

  /**
   * What a scan's process_repo can meet: its entry is there and PENDING or
   * NOT_GIT, so the busy branch is dead; past that test it is PENDING, so the
   * back-off for a previous timeout or rate limit is dead too, and the
   * repository always counts as accessible.
   */
  lemma EntryIsFresh(all: seq<Path>, sh: Shared, sc: Scan, w: nat)
    requires PoolInv(all, sh, sc) && Distinct(all) && CanStep(all, sc, w) && Holds(sc.workers[w])
    ensures var pc := sc.workers[w];
            var entry := Lookup(sh, all[pc.i]);
            && (pc.AtEnter? || pc.AtEntry? ==>
                  entry.Some? && entry.value.status in {Pending, NotGit} && all[pc.i] !in sc.skip0)
            && (pc.AtSnapshot? || pc.AtJudge? ==> entry.Some? && entry.value.status == Pending)
            && (pc.AtJudge? ==> pc.prev == entry && WasAccessible(pc.prev))
  {
    assert StageOf(sc, sc.workers[w].i) == Held(sc.workers[w]);
  }

  // ---------------------------------------------------------------- skip_unavailable

  function Flagged(o: ScanOptions, flag: bool): ScanOptions { o.(skipUnavailable := flag) }

  function FlaggedScan(sc: Scan, flag: bool): Scan { sc.(o := Flagged(sc.o, flag)) }

  lemma AccessibleAction(p: Path, o: ScanOptions, pr: Probe, due: RepoInfo, flag: bool)
    ensures JudgeAction(p, true, Flagged(o, flag), pr, due) == JudgeAction(p, true, o, pr, due)
    ensures Caught(Flagged(o, flag), true, due) == Caught(o, true, due)
  {
    assert GivesUp(o, true) == GivesUp(Flagged(o, flag), true);
  }

  lemma AccessibleAge(p: Path, o: ScanOptions, pr: Probe, dated: RepoInfo, flag: bool)
    ensures JudgeAge(p, true, Flagged(o, flag), pr, dated) == JudgeAge(p, true, o, pr, dated)
  {
    var asks := o.updatedSince > 0 && o.mutantMode;
    var asked := if asks then dated.(authFailed := pr.mutantAuthFailed) else dated;
    AccessibleAction(p, o, pr, if asks then asked.(commitTime := pr.mutantTime) else asked, flag);
  }

  lemma AccessibleJudge(inSkip: bool, p: Path, prev: Option<RepoInfo>, o: ScanOptions, pr: Probe, flag: bool)
    requires WasAccessible(prev)
    ensures Judge(inSkip, p, prev, Flagged(o, flag), pr) == Judge(inSkip, p, prev, o, pr)
  {
    var blank := FRESH.(pulled := WasPulled(prev), status := Checking);
    AccessibleAction(p, o, pr, blank, flag);
    AccessibleAction(p, o, pr, blank.(commitTime := pr.localTime), flag);
    AccessibleAge(p, o, pr, blank.(commitTime := pr.localTime), flag);
  }

  lemma AccessiblePull(sh: Shared, p: Path, prev: Option<RepoInfo>, info: RepoInfo, o: ScanOptions, pr: Probe, flag: bool)
    requires WasAccessible(prev)
    ensures PullConclusion(sh, p, prev, info, Flagged(o, flag), pr) == PullConclusion(sh, p, prev, info, o, pr)
    ensures AfterPull(sh, p, Flagged(o, flag), pr) == AfterPull(sh, p, o, pr)
  {
    assert GivesUp(o, true) == GivesUp(Flagged(o, flag), true);
    assert PullOf(sh, p, Flagged(o, flag), pr) == PullOf(sh, p, o, pr);
  }

  /** Whoever decides about a repository in a scan found it PENDING. */
  lemma DecidesOnPending(all: seq<Path>, sh: Shared, sc: Scan, w: nat)
    requires PoolInv(all, sh, sc) && Distinct(all) && CanStep(all, sc, w)
    requires sc.workers[w].AtJudge? || sc.workers[w].AtPull?
    ensures WasAccessible(sc.workers[w].prev)
  {
    var pc := sc.workers[w];
    assert StageOf(sc, pc.i) == Held(pc);
    assert RowInv(sc.o, sh, all[pc.i], Held(pc), sc.skip0);
  }

  lemma JudgeIgnoresFlag(all: seq<Path>, sh: Shared, sc: Scan, w: nat, ch: Choice, flag: bool)
    requires CanStep(all, sc, w) && sc.workers[w].AtJudge? && WasAccessible(sc.workers[w].prev)
    ensures SameEffect(all, sh, sc, w, ch, flag)
  {
    var p := all[sc.workers[w].i];
    AccessibleJudge(p in sh.skip, p, sc.workers[w].prev, sc.o, ch.probe, flag);
  }

  lemma TickIgnoresFlag(all: seq<Path>, sh: Shared, sc: Scan, w: nat, ch: Choice, flag: bool)
    requires CanStep(all, sc, w) && sc.workers[w].AtPull? && sc.workers[w].ticks > 0
    ensures SameEffect(all, sh, sc, w, ch, flag)
  {
  }

  lemma PullIgnoresFlag(all: seq<Path>, sh: Shared, sc: Scan, w: nat, ch: Choice, flag: bool)
    requires CanStep(all, sc, w) && sc.workers[w].AtPull? && WasAccessible(sc.workers[w].prev)
    ensures SameEffect(all, sh, sc, w, ch, flag)
  {
    var AtPull(i, prev, info, ticks) := sc.workers[w];
    if ticks > 0 {
      TickIgnoresFlag(all, sh, sc, w, ch, flag);
    } else {
      AccessiblePull(sh, all[i], prev, info, sc.o, ch.probe, flag);
      LandingIgnoresFlag(all, sc, w, AfterPull(sh, all[i], sc.o, ch.probe),
                         PullConclusion(sh, all[i], prev, info, sc.o, ch.probe), flag);
    }
  }

  lemma LandingIgnoresFlag(all: seq<Path>, sc: Scan, w: nat, pulled: Shared, c: Conclusion, flag: bool)
    requires CanStep(all, sc, w) && sc.workers[w].AtPull?
    ensures var n, m := Landing(all, sc, w, pulled, c), Landing(all, FlaggedScan(sc, flag), w, pulled, c);
            m.sh == n.sh && m.sc == FlaggedScan(n.sc, flag)
  {
  }

  lemma StoresIgnoreFlag(all: seq<Path>, sh: Shared, sc: Scan, w: nat, ch: Choice, flag: bool)
    requires CanStep(all, sc, w) && (sc.workers[w].AtStart? || sc.workers[w].AtStore?)
    ensures SameEffect(all, sh, sc, w, ch, flag)
  {
  }

  lemma NoticesIgnoreFlag(all: seq<Path>, sh: Shared, sc: Scan, w: nat, ch: Choice, flag: bool)
    requires CanStep(all, sc, w) && sc.workers[w].AtAnnounce?
    ensures SameEffect(all, sh, sc, w, ch, flag)
  {
  }

  lemma OptionsIgnoreFlag(all: seq<Path>, sh: Shared, sc: Scan, w: nat, ch: Choice, flag: bool)
    requires CanStep(all, sc, w) && sc.workers[w].AtOptions?
    ensures SameEffect(all, sh, sc, w, ch, flag)
  {
    assert Excluded(Flagged(sc.o, flag), all[sc.workers[w].i]) == Excluded(sc.o, all[sc.workers[w].i]);
  }

  lemma TestsIgnoreFlag(all: seq<Path>, sh: Shared, sc: Scan, w: nat, ch: Choice, flag: bool)
    requires CanStep(all, sc, w)
    requires var pc := sc.workers[w];
             !pc.AtJudge? && !pc.AtPull? && !pc.AtStart? && !pc.AtStore? && !pc.AtAnnounce? && !pc.AtOptions?
    ensures SameEffect(all, sh, sc, w, ch, flag)
  {
  }

  /** With the flag set either way the step leaves the same tables and the same workers. */
  ghost predicate SameEffect(all: seq<Path>, sh: Shared, sc: Scan, w: nat, ch: Choice, flag: bool)
    requires CanStep(all, sc, w)
  {
    var n := WorkerStep(all, sh, sc, w, ch);
    var m := WorkerStep(all, sh, FlaggedScan(sc, flag), w, ch);
    m.sh == n.sh && m.sc == FlaggedScan(n.sc, flag)
  }

  /**
   * In a scan of a list without duplicates no worker's step depends on
   * skip_unavailable, wherever the worker stands: the option has no effect.
   */
  lemma SkipUnavailableIsInert(all: seq<Path>, sh: Shared, sc: Scan, w: nat, ch: Choice, flag: bool)
    requires PoolInv(all, sh, sc) && Distinct(all) && CanStep(all, sc, w)
    ensures SameEffect(all, sh, sc, w, ch, flag)
  {
    if sc.workers[w].AtJudge? {
      DecidesOnPending(all, sh, sc, w);
      JudgeIgnoresFlag(all, sh, sc, w, ch, flag);
    } else if sc.workers[w].AtPull? {
      DecidesOnPending(all, sh, sc, w);
      PullIgnoresFlag(all, sh, sc, w, ch, flag);
    } else if sc.workers[w].AtStart? || sc.workers[w].AtStore? {
      StoresIgnoreFlag(all, sh, sc, w, ch, flag);
    } else if sc.workers[w].AtAnnounce? {
      NoticesIgnoreFlag(all, sh, sc, w, ch, flag);
    } else if sc.workers[w].AtOptions? {
      OptionsIgnoreFlag(all, sh, sc, w, ch, flag);
    } else {
      TestsIgnoreFlag(all, sh, sc, w, ch, flag);
    }
  }

  predicate SameVerdict(inSkip: bool, p: Path, prev: Option<RepoInfo>, o: ScanOptions, pr: Probe) {
    Judge(inSkip, p, prev, Flagged(o, true), pr) == Judge(inSkip, p, prev, Flagged(o, false), pr)
  }

  /** The entry a worker found decides alone whether the option can matter: an ERROR or SKIPPED entry, or none. */
  lemma FlagMattersExactly(prev: Option<RepoInfo>)
    ensures (forall inSkip, p, o, pr :: SameVerdict(inSkip, p, prev, o, pr)) <==> WasAccessible(prev)
  {
    if WasAccessible(prev) {
      forall inSkip, p, o, pr ensures SameVerdict(inSkip, p, prev, o, pr) {
        AccessibleJudge(inSkip, p, prev, o, pr, true);
        AccessibleJudge(inSkip, p, prev, o, pr, false);
      }
    } else {
      var o := ScanOptions(true, "origin", false, false, false, false, true, false, None, 0,
                           false, false, false, false, 1, map[]);
      var git := GitReplies(false, None, false, Fetched(map[]), Fetched(map[]), map[], None, {}, false, Work(0, false));
      var failing := Probe(false, false, false, false, false, None, FileError, NoFault, NoFault,
                           0, 0, 0, false, 0, false, "", "", false, git, 0);
      assert Judge(false, "", prev, Flagged(o, true), failing).fatal;
      assert !Judge(false, "", prev, Flagged(o, false), failing).fatal;
      assert !SameVerdict(false, "", prev, o, failing);
    }
  }

  /** No two workers ever hold the same index. */
  lemma ClaimsAreExclusive(all: seq<Path>, sh: Shared, sc: Scan, v: nat, w: nat)
    requires PoolInv(all, sh, sc) && v < |sc.workers| && w < |sc.workers|
    requires Holds(sc.workers[v]) && Holds(sc.workers[w]) && sc.workers[v].i == sc.workers[w].i
    ensures v == w
  {
    assert sc.claims[sc.workers[v].i] == v;
    assert sc.claims[sc.workers[w].i] == w;
  }

  // ---------------------------------------------------------------- safety of the working trees

  /**
   * The only step that moves a repository is a worker's try_pull for that very
   * path, which hard-resets it: the path is not excluded, neither check-only
   * nor dry-run is in effect, and it had no uncommitted changes unless forced.
   */
  lemma OnlyResetsMoveTrees(all: seq<Path>, sh: Shared, sc: Scan, w: nat, ch: Choice, q: Path)
    requires PoolInv(all, sh, sc) && CanStep(all, sc, w)
    ensures var after := TreeOf(WorkerStep(all, sh, sc, w, ch).sh, q);
            Moved(TreeOf(sh, q), after) ==>
              && sc.workers[w].AtPull? && all[sc.workers[w].i] == q
              && MayPull(sc.o, q)
              && (ForcePull(sc.o, q) || !TreeOf(sh, q).work.dirty)
              && AtGoal(after, sc.o.remote, Target(sc.o, q), ch.probe.git)
  {
    var pc := sc.workers[w];
    if pc.AtPull? && pc.ticks == 0 {
      assert PcOk(all, sc.o, pc);
      PullMovesOne(sh, all[pc.i], sc.o, ch.probe, q);
      TreesAfterPull(all, sh, sc, w, ch);
    } else {
      TreesStay(all, sh, sc, w, ch);
    }
  }

  lemma PullMovesOne(sh: Shared, p: Path, o: ScanOptions, pr: Probe, q: Path)
    ensures var after := AfterPull(sh, p, o, pr);
            Moved(TreeOf(sh, q), TreeOf(after, q)) ==>
              && p == q && (ForcePull(o, q) || !TreeOf(sh, q).work.dirty)
              && AtGoal(TreeOf(after, q), o.remote, Target(o, q), pr.git)
  {
    PullCode(sh, p, o, pr);
    assert TreeOf(AfterPull(sh, p, o, pr), p) == PullOf(sh, p, o, pr).tree;
  }

  lemma TreesAfterPull(all: seq<Path>, sh: Shared, sc: Scan, w: nat, ch: Choice)
    requires CanStep(all, sc, w) && sc.workers[w].AtPull? && sc.workers[w].ticks == 0
    ensures WorkerStep(all, sh, sc, w, ch).sh.trees == AfterPull(sh, all[sc.workers[w].i], sc.o, ch.probe).trees
  {
  }

  lemma TreesStay(all: seq<Path>, sh: Shared, sc: Scan, w: nat, ch: Choice)
    requires CanStep(all, sc, w) && !(sc.workers[w].AtPull? && sc.workers[w].ticks == 0)
    ensures WorkerStep(all, sh, sc, w, ch).sh.trees == sh.trees
  {
  }

  // ---------------------------------------------------------------- every schedule ends

  function StageRank(pc: Pc): nat {
    match pc
    case Exited => 0
    case AtClaim => 1
    case AtLoop => 2
    case AtMemory(_) => 3
    case AtAnnounce(_, _, _) => 4
    case AtStore(_, _, _) => 5
    case AtPull(_, _, _, _) => 6
    case AtStart(_, _, _) => 7
    case AtJudge(_, _) => 8
    case AtSnapshot(_) => 9
    case AtEntry(_) => 10
    case AtEnter(_) => 11
    case AtOptions(_) => 12
    case AtSkip(_) => 13
  }

  function TicksLeft(pc: Pc): nat {
    if pc.AtPull? then pc.ticks else 0
  }

  function TotalRank(workers: seq<Pc>): nat {
    if workers == [] then 0 else StageRank(workers[0]) + TotalRank(workers[1..])
  }

  function TotalTicks(workers: seq<Pc>): nat {
    if workers == [] then 0 else TicksLeft(workers[0]) + TotalTicks(workers[1..])
  }

  lemma {:induction false} UpdateTotals(workers: seq<Pc>, w: nat, pc: Pc)
    requires w < |workers|
    ensures TotalRank(workers[w := pc]) == TotalRank(workers) - StageRank(workers[w]) + StageRank(pc)
    ensures TotalTicks(workers[w := pc]) == TotalTicks(workers) - TicksLeft(workers[w]) + TicksLeft(pc)
  {
    if w == 0 {
      assert workers[w := pc][1..] == workers[1..];
    } else {
      UpdateTotals(workers[1..], w - 1, pc);
      assert workers[w := pc][1..] == workers[1..][w - 1 := pc];
    }
  }

  function Unclaimable(all: seq<Path>, sc: Scan): nat {
    if sc.next < |all| then |all| - sc.next else 0
  }

  lemma JudgeLowers(all: seq<Path>, sh: Shared, sc: Scan, w: nat, ch: Choice)
    requires CanStep(all, sc, w) && sc.workers[w].AtJudge?
    ensures w < |WorkerStep(all, sh, sc, w, ch).sc.workers|
    ensures StageRank(WorkerStep(all, sh, sc, w, ch).sc.workers[w]) < StageRank(sc.workers[w])
  {
  }

  lemma LandingLowers(all: seq<Path>, sc: Scan, w: nat, pulled: Shared, c: Conclusion)
    requires CanStep(all, sc, w) && sc.workers[w].AtPull?
    ensures w < |Landing(all, sc, w, pulled, c).sc.workers|
    ensures StageRank(Landing(all, sc, w, pulled, c).sc.workers[w]) < StageRank(sc.workers[w])
  {
  }

  /** What one step does to the worker's own measure. */
  lemma StepLowers(all: seq<Path>, sh: Shared, sc: Scan, w: nat, ch: Choice)
    requires CanStep(all, sc, w)
    ensures var sc2 := WorkerStep(all, sh, sc, w, ch).sc;
            && |sc2.workers| == |sc.workers|
            && var pc, pc2 := sc.workers[w], sc2.workers[w];
            && sc2.workers == sc.workers[w := pc2]
            && (|| Unclaimable(all, sc2) < Unclaimable(all, sc)
                || (Unclaimable(all, sc2) == Unclaimable(all, sc) && StageRank(pc2) < StageRank(pc))
                || (Unclaimable(all, sc2) == Unclaimable(all, sc) && StageRank(pc2) == StageRank(pc)
                    && TicksLeft(pc2) < TicksLeft(pc)))
  {
    var pc := sc.workers[w];
    if Holds(pc) {
      StepFrame(all, sh, sc, w, ch);
      if pc.AtJudge? {
        JudgeLowers(all, sh, sc, w, ch);
      } else if pc.AtPull? && pc.ticks == 0 {
        LandingLowers(all, sc, w, AfterPull(sh, all[pc.i], sc.o, ch.probe),
                      PullConclusion(sh, all[pc.i], pc.prev, pc.info, sc.o, ch.probe));
      }
    }
  }

  /** A step claims an index, or lowers a stage, or uses up one progress callback. */
  lemma StepsDescend(all: seq<Path>, sh: Shared, sc: Scan, w: nat, ch: Choice)
    requires CanStep(all, sc, w)
    ensures var sc2 := WorkerStep(all, sh, sc, w, ch).sc;
            || Unclaimable(all, sc2) < Unclaimable(all, sc)
            || (Unclaimable(all, sc2) == Unclaimable(all, sc) &&
                (TotalRank(sc2.workers) < TotalRank(sc.workers) ||
                 (TotalRank(sc2.workers) == TotalRank(sc.workers) && TotalTicks(sc2.workers) < TotalTicks(sc.workers))))
  {
    StepLowers(all, sh, sc, w, ch);
    UpdateTotals(sc.workers, w, WorkerStep(all, sh, sc, w, ch).sc.workers[w]);
  }

  /**
   * The schedule takes its j-th step as the pool allows. Between two steps the
   * tables may change in any way: others stop the run, edit checkouts, look on.
   */
  ghost predicate Goes(all: seq<Path>, run: nat -> Next, who: nat -> nat, ch: nat -> Choice, j: nat) {
    CanStep(all, run(j).sc, who(j)) && run(j + 1).sc == WorkerStep(all, run(j).sh, run(j).sc, who(j), ch(j)).sc
  }

  /** No schedule of the workers runs forever: from any point on there is a step it cannot take. */
  lemma {:induction false} NoEndlessSchedule(all: seq<Path>, run: nat -> Next, who: nat -> nat, ch: nat -> Choice, k: nat)
    ensures exists j: nat :: k <= j && !Goes(all, run, who, ch, j)
    decreases Unclaimable(all, run(k).sc), TotalRank(run(k).sc.workers), TotalTicks(run(k).sc.workers)
  {
    if Goes(all, run, who, ch, k) {
      StepsDescend(all, run(k).sh, run(k).sc, who(k), ch(k));
      NoEndlessSchedule(all, run, who, ch, k + 1);
      var j: nat :| k + 1 <= j && !Goes(all, run, who, ch, j);
      assert k <= j;
    }
  }

  /** Until all have exited some worker can step, so a schedule that cannot be prolonged has joined. */
  lemma NeverStuck(all: seq<Path>, sh: Shared, sc: Scan)
    requires PoolInv(all, sh, sc) && sc.phase == Working
    ensures AllExited(sc) <==> !exists w: nat :: CanStep(all, sc, w)
  {
    if !AllExited(sc) {
      var w :| 0 <= w < |sc.workers| && !sc.workers[w].Exited?;
      assert CanStep(all, sc, w);
    }
  }
}
