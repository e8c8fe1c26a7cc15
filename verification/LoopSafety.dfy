/**
 * The scheduler's invariant is kept by every step of every party, so it holds
 * in every state of every run, and what follows from it.
 */
module LoopSafety {
  import opened Basics
  import opened GitPull
  import opened RepoScan
  import opened ScanPool
  import opened PoolRuns
  import opened EventLoop

  // ---------------------------------------------------------------- steps outside the tables

  /** Turning `running` off and editing checkouts changes no row. */
  lemma PoolIgnores(all: seq<Path>, sh: Shared, sc: Scan, run: bool, trees: map<Path, Tree>)
    requires PoolInv(all, sh, sc) && (run ==> sh.running)
    ensures PoolInv(all, sh.(running := run, trees := trees), sc)
  {
    var sh2 := sh.(running := run, trees := trees);
    assert ClaimsInv(all, sh2, sc);
    if Distinct(all) {
      forall i | 0 <= i < |all| ensures RowInv(sc.o, sh2, all[i], StageOf(sc, i), sc.skip0) {
        assert SameRow(sh, sh2, all[i]);
        SameRowKeeps(sc.o, sh, sh2, all[i], StageOf(sc, i), sc.skip0);
      }
      forall p | p in sh2.infos && p !in all ensures Quiet(sc.o, sh2, p) {
        assert SameRow(sh, sh2, p);
        SameRowKeeps(sc.o, sh, sh2, p, Done, sc.skip0);
      }
    }
  }

  lemma QuietIgnores(o: ScanOptions, sh: Shared, run: bool, trees: map<Path, Tree>)
    requires AllQuiet(o, sh)
    ensures AllQuiet(o, sh.(running := run, trees := trees))
  {
    var sh2 := sh.(running := run, trees := trees);
    forall p | p in sh2.infos ensures Quiet(o, sh2, p) {
      assert Quiet(o, sh, p);
    }
  }

  lemma ActiveIgnores(s: State, sc: Scan, run: bool, trees: map<Path, Tree>)
    requires ActiveInv(s, sc) && (run ==> s.sh.running)
    ensures ActiveInv(s.(sh := s.sh.(running := run, trees := trees)), sc)
  {
    if sc.phase == Resetting && Distinct(s.all) { QuietIgnores(s.lo.scan, s.sh, run, trees); }
    if sc.phase == Working { PoolIgnores(s.all, s.sh, sc, run, trees); }
  }

  lemma ScanIgnores(s: State, run: bool, trees: map<Path, Tree>)
    requires ScanInv(s) && (run ==> s.sh.running)
    ensures ScanInv(s.(sh := s.sh.(running := run, trees := trees)))
  {
    var s2 := s.(sh := s.sh.(running := run, trees := trees));
    assert s2.scan == s.scan && s2.threads == s.threads && s2.sh.infos == s.sh.infos;
    if s.scan.None? {
      if Distinct(s.all) { QuietIgnores(s.lo.scan, s.sh, run, trees); }
    } else if s.scan.value in s.threads {
      ActiveIgnores(s, s.threads[s.scan.value], run, trees);
    }
  }

  /** A main step that at most turns `running` off and moves on. */
  lemma PlainStepKeeps(s: State, turn: Turn)
    requires SysInv(s) && (turn.running ==> s.sh.running)
    requires !Launching(turn.pc) || Launching(s.main) || (turn.running && s.sh.running)
    requires !turn.pc.Spawn? && !s.main.Spawn? && !turn.pc.Assign? && !s.main.Assign?
    requires RelyOnQuiet(turn.pc) ==> !s.scanning
    requires turn.pc.Stopped? ==> s.handle.None?
    ensures SysInv(PlainApply(s, turn))
  {
    ScanIgnores(s, turn.running, s.sh.trees);
    var s1 := s.(sh := s.sh.(running := turn.running, trees := s.sh.trees));
    var s2 := PlainApply(s, turn);
    assert s1.sh == s2.sh;
    assert ScanInv(s1);
    assert ThreadsInv(s2);
    assert ScanInv(s2);
  }

  // ---------------------------------------------------------------- the main loop

  lemma ReloadKeeps(s: State, mc: MainChoice)
    requires SysInv(s) && s.main.Reload?
    ensures SysInv(ReloadApply(s, mc))
  {
    var s2 := ReloadApply(s, mc);
    forall p | p in s2.sh.infos ensures Quiet(s2.lo.scan, s2.sh, p) {
    }
  }

  lemma AfterJoinKeeps(s: State, mc: MainChoice)
    requires SysInv(s) && s.main.AfterJoin?
    ensures SysInv(AfterJoinApply(s, mc))
  {
    var s2 := AfterJoinApply(s, mc);
    PermutationMembers(s.all, s2.all);
    PermutationDistinct(s.all, s2.all);
    if Distinct(s.all) {
      QuietIgnores(s.lo.scan, s.sh, s2.sh.running, s.sh.trees);
      assert s2.sh == s.sh.(running := s2.sh.running, trees := s.sh.trees);
    }
  }

  lemma RescanKeeps(s: State, mc: MainChoice)
    requires SysInv(s) && s.main.Rescan?
    ensures SysInv(RescanApply(s, mc))
  {
    var found := if s.lo.keepFirst then AppendMissing(mc.paths, mc.validated) else mc.paths;
    var grown := AppendMissing(s.all, found);
    var s2 := RescanApply(s, mc);
    AppendMissingDistinct(s.all, found);
    PermutationMembers(grown, s2.all);
    PermutationDistinct(grown, s2.all);
    if Distinct(s2.all) {
      forall p | p in s2.sh.infos ensures Quiet(s2.lo.scan, s2.sh, p) {
        if p in s.sh.infos { assert Quiet(s.lo.scan, s.sh, p); }
      }
    }
  }

  /** Nothing is stale at a launch: the clearing loop changes no entry of a duplicate-free list. */
  lemma CalmIsNoOp(s: State)
    requires SysInv(s) && s.main.Calm? && Distinct(s.all)
    ensures CalmInfos(s.sh.infos) == s.sh.infos
  {
    forall p | p in s.sh.infos ensures !Busy(s.sh.infos[p].status) {
      assert Quiet(s.lo.scan, s.sh, p);
    }
  }

  lemma CalmKeeps(s: State, mc: MainChoice)
    requires SysInv(s) && s.main.Calm?
    ensures SysInv(MainApply(s, mc))
  {
    if Distinct(s.all) { CalmIsNoOp(s); }
    var s2 := MainApply(s, mc);
    assert ThreadsInv(s2) && HandleInv(s2);
    assert ScanInv(s2);
  }

  lemma SpawnKeeps(s: State, mc: MainChoice)
    requires SysInv(s) && s.main.Spawn?
    ensures SysInv(MainApply(s, mc))
  {
    var s2 := MainApply(s, mc);
    assert s2.threads[s.nextId].phase == Resetting;
    forall t | t in s2.threads ensures Active(s2.threads[t]) <==> s2.scan == Some(t) {
      if t != s.nextId { assert s2.threads[t] == s.threads[t]; }
    }
    assert ThreadsInv(s2) && HandleInv(s2);
    assert ActiveInv(s2, s2.threads[s.nextId]);
  }

  lemma JoinKeeps(s: State, mc: MainChoice)
    requires SysInv(s) && Enabled(s, MainStep(mc)) && (s.main.Joining? || s.main.LastJoin?)
    ensures SysInv(MainApply(s, mc))
  {
    var s2 := MainApply(s, mc);
    assert ThreadsInv(s2) && HandleInv(s2);
    assert ScanInv(s2);
  }

  lemma HandKeeps(s: State, mc: MainChoice)
    requires SysInv(s) && Enabled(s, MainStep(mc)) && (s.main.Assign? || s.main.SetScanning?)
    ensures SysInv(MainApply(s, mc))
  {
    var s2 := MainApply(s, mc);
    assert ThreadsInv(s2) && HandleInv(s2);
    assert ScanInv(s2);
  }

  lemma PlainKeeps(s: State, mc: MainChoice)
    requires SysInv(s) && Plain(s.main)
    ensures SysInv(MainApply(s, mc))
  {
    PlainStepKeeps(s, PlainTurn(s, mc));
  }

  lemma MainKeeps(s: State, mc: MainChoice)
    requires SysInv(s) && Enabled(s, MainStep(mc))
    ensures SysInv(MainApply(s, mc))
  {
    if Plain(s.main) {
      PlainKeeps(s, mc);
    } else {
      match s.main
      case Reload =>
        if mc.parseFails {
          PlainStepKeeps(s, Turn(s.sh.running, TimeoutTest, s.configChanged));
        } else {
          ReloadKeeps(s, mc);
        }
      case AfterJoin => AfterJoinKeeps(s, mc);
      case Rescan => RescanKeeps(s, mc);
      case Calm => CalmKeeps(s, mc);
      case Spawn => SpawnKeeps(s, mc);
      case Assign(_) => HandKeeps(s, mc);
      case SetScanning => HandKeeps(s, mc);
      case _ => JoinKeeps(s, mc);
    }
  }

  /** No checkout, option, skip list or memory differs, `running` is not turned on, and NOT_GIT entries are the same. */
  ghost predicate SessionKept(s: State, s2: State) {
    && (s2.sh.running ==> s.sh.running)
    && s2.sh.trees == s.sh.trees && s2.lo == s.lo && s2.sh.skip == s.sh.skip && s2.sh.pulledOk == s.sh.pulledOk
    && forall p :: p in s.sh.infos && s.sh.infos[p].status == NotGit ==>
         p in s2.sh.infos && s2.sh.infos[p] == s.sh.infos[p]
  }

  lemma PlainFrame(s: State, turn: Turn)
    requires turn.running ==> s.sh.running
    ensures SessionKept(s, PlainApply(s, turn))
  {
  }

  lemma TableFrame(s: State, mc: MainChoice)
    requires s.main.Rescan? || s.main.Calm?
    ensures SessionKept(s, MainApply(s, mc))
  {
  }

  lemma AfterJoinFrame(s: State, mc: MainChoice)
    ensures SessionKept(s, AfterJoinApply(s, mc))
  {
  }

  /** Apart from a reload, the main loop keeps the session; and even a reload moves no checkout. */
  lemma MainFrame(s: State, mc: MainChoice)
    ensures s.main.Reload? && !mc.parseFails ==>
              && MainApply(s, mc).sh.trees == s.sh.trees && MainApply(s, mc).sh.pulledOk == {}
              && MainApply(s, mc).sh.running == s.sh.running
    ensures !(s.main.Reload? && !mc.parseFails) ==> SessionKept(s, MainApply(s, mc))
  {
    if Plain(s.main) {
      PlainFrame(s, PlainTurn(s, mc));
    } else if s.main.AfterJoin? {
      AfterJoinFrame(s, mc);
    } else if s.main.Rescan? || s.main.Calm? {
      TableFrame(s, mc);
    } else if !s.main.Reload? {
      ThreadFrame(s, mc);
    }
  }

  lemma ThreadFrame(s: State, mc: MainChoice)
    requires !Plain(s.main) && !s.main.AfterJoin? && !s.main.Rescan? && !s.main.Calm? && !s.main.Reload?
    ensures SessionKept(s, MainApply(s, mc))
  {
    if s.main.SetScanning? || s.main.Spawn? { LaunchFrame(s, mc); } else { JoinFrame(s, mc); }
  }

  lemma LaunchFrame(s: State, mc: MainChoice)
    requires s.main.SetScanning? || s.main.Spawn?
    ensures MainApply(s, mc).sh == s.sh && MainApply(s, mc).lo == s.lo
  {
  }

  lemma JoinFrame(s: State, mc: MainChoice)
    requires s.main.Joining? || s.main.Assign? || s.main.LastJoin? || s.main.Stopped?
    ensures MainApply(s, mc).sh == s.sh && MainApply(s, mc).lo == s.lo
  {
  }

  // ---------------------------------------------------------------- the scan threads

  /** Only the active thread's own entry of the thread table changes. */
  lemma ThreadTable(s: State, t: nat, sc2: Scan)
    requires ThreadsInv(s) && HandleInv(s) && t in s.threads
    requires Active(sc2) <==> Active(s.threads[t])
    requires s.threads[t].phase != Ended
    ensures ThreadsInv(s.(threads := s.threads[t := sc2])) && HandleInv(s.(threads := s.threads[t := sc2]))
  {
  }

  lemma InfosGrow(all: seq<Path>, sh: Shared, sc: Scan, w: nat, ch: Choice)
    requires CanStep(all, sc, w) && forall p :: p in all ==> p in sh.infos
    requires forall p :: p !in sh.infos ==> p !in sh.pulledOk && sh.updated[p] == 0
    ensures var sh2 := WorkerStep(all, sh, sc, w, ch).sh;
            && sh2.infos.Keys == sh.infos.Keys
            && forall p :: p !in sh2.infos ==> p !in sh2.pulledOk && sh2.updated[p] == 0
  {
    if Holds(sc.workers[w]) {
      var i := sc.workers[w].i;
      assert all[i] in all;
      StepFrame(all, sh, sc, w, ch);
      var sh2 := WorkerStep(all, sh, sc, w, ch).sh;
      KeysStay(all, sh, sc, w, ch);
      forall p | p !in sh2.infos ensures p !in sh2.pulledOk && sh2.updated[p] == 0 {
        assert SameRow(sh, sh2, p);
      }
    }
  }

  lemma KeysStay(all: seq<Path>, sh: Shared, sc: Scan, w: nat, ch: Choice)
    requires CanStep(all, sc, w) && Holds(sc.workers[w]) && all[sc.workers[w].i] in sh.infos
    ensures WorkerStep(all, sh, sc, w, ch).sh.infos.Keys == sh.infos.Keys
  {
    var p := all[sc.workers[w].i];
    if sc.workers[w].AtPull? && sc.workers[w].ticks == 0 {
      PullEffect(sh, p, sc.o, ch.probe);
    }
  }

  lemma WorkerShape(all: seq<Path>, sh: Shared, sc: Scan, w: nat, ch: Choice)
    requires CanStep(all, sc, w)
    ensures var n := WorkerStep(all, sh, sc, w, ch);
            && n.sc.o == sc.o && n.sc.phase == Working && |n.sc.workers| == |sc.workers| && n.sc.skip0 == sc.skip0
            && (n.sh.running ==> sh.running)
            && (n.sh.crashed == sh.crashed || !n.sh.running)
            && sh.skip <= n.sh.skip
  {
    if Holds(sc.workers[w]) {
      StepFrame(all, sh, sc, w, ch);
    }
  }

  lemma WorkKeeps(s: State, t: nat, w: nat, ch: Choice)
    requires SysInv(s) && t in s.threads && CanStep(s.all, s.threads[t], w)
    ensures SysInv(ThreadApply(s, t, w, ch))
  {
    var sc := s.threads[t];
    var n := WorkerStep(s.all, s.sh, sc, w, ch);
    var s2 := ThreadApply(s, t, w, ch);
    assert s.scan == Some(t) && ActiveInv(s, sc);
    WorkerShape(s.all, s.sh, sc, w, ch);
    WorkerStepKeeps(s.all, s.sh, sc, w, ch);
    InfosGrow(s.all, s.sh, sc, w, ch);
    ThreadTable(s, t, n.sc);
    assert ScanInv(s2) by {
      assert s2.threads[t] == n.sc;
      assert ActiveInv(s2, n.sc);
      assert !Launching(s2.main);
    }
  }

  lemma ResetKeeps(s: State, t: nat, w: nat, ch: Choice)
    requires SysInv(s) && t in s.threads && s.threads[t].phase == Resetting
    ensures SysInv(ThreadApply(s, t, w, ch))
  {
    var sc := s.threads[t];
    assert s.scan == Some(t) && ActiveInv(s, sc);
    ScanStarts(s.all, s.sh, sc.o);
    var n := Started(s.all, s.sh, sc.o);
    ThreadTable(s, t, n.sc);
    var s2 := ThreadApply(s, t, w, ch);
    assert s2.threads[t] == n.sc;
    assert ActiveInv(s2, n.sc);
  }

  lemma FinishKeeps(s: State, t: nat, w: nat, ch: Choice)
    requires SysInv(s) && t in s.threads && s.threads[t].phase == Working
    requires AllExited(s.threads[t])
    ensures SysInv(ThreadApply(s, t, w, ch))
  {
    var sc := s.threads[t];
    assert s.scan == Some(t) && ActiveInv(s, sc);
    ScanEnds(s.all, s.sh, sc);
    var s2 := ThreadApply(s, t, w, ch);
    forall u | u in s2.threads ensures Active(s2.threads[u]) <==> s2.scan == Some(u) {
      if u != t { assert s2.threads[u] == s.threads[u]; }
    }
    assert ThreadsInv(s2) && HandleInv(s2);
    assert ScanInv(s2);
  }

  lemma ThreadKeeps(s: State, t: nat, w: nat, ch: Choice)
    requires SysInv(s) && Enabled(s, ThreadStep(t, w, ch))
    ensures SysInv(ThreadApply(s, t, w, ch))
  {
    var sc := s.threads[t];
    match sc.phase
    case Resetting => ResetKeeps(s, t, w, ch);
    case Working =>
      if CanStep(s.all, sc, w) { WorkKeeps(s, t, w, ch); } else { FinishKeeps(s, t, w, ch); }
    case Tail =>
      var s2 := ThreadApply(s, t, w, ch);
      assert s.scan != Some(t);
      assert ThreadsInv(s2);
      assert HandleInv(s2);
      assert ScanInv(s2);
    case Ended =>
  }

  /** Every step of every party keeps the invariant. */
  lemma StepKeeps(s: State, st: Step)
    requires SysInv(s) && Enabled(s, st)
    ensures SysInv(Apply(s, st))
  {
    match st
    case MainStep(mc) => MainKeeps(s, mc);
    case ThreadStep(t, w, ch) => ThreadKeeps(s, t, w, ch);
    case ConfigEvent =>
    case StopEvent =>
      ScanIgnores(s, false, s.sh.trees);
      assert Apply(s, st).sh == s.sh.(running := false, trees := s.sh.trees);
    case UserEdit(p, tree) =>
      ScanIgnores(s, s.sh.running, s.sh.trees[p := tree]);
      assert Apply(s, st).sh == s.sh.(running := s.sh.running, trees := s.sh.trees[p := tree]);
  }
}
