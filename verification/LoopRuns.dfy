/**
 * The promises of the scan engine over whole runs: any number of scans,
 * rescans and reloads, any interleaving, any answers of the outside world.
 */
module LoopRuns {
  import opened Basics
  import opened GitPull
  import opened RepoScan
  import opened ScanPool
  import opened PoolRuns
  import opened EventLoop
  import opened LoopSafety

  ghost predicate IsRun(states: seq<State>, steps: seq<Step>) {
    && |states| == |steps| + 1
    && Init(states[0])
    && forall k :: 0 <= k < |steps| ==> Follows(states, steps, k)
  }

  ghost predicate Follows(states: seq<State>, steps: seq<Step>, k: nat)
    requires |states| == |steps| + 1 && k < |steps|
  {
    Enabled(states[k], steps[k]) && states[k + 1] == Apply(states[k], steps[k])
  }

  lemma InitHolds(s: State)
    requires Init(s)
    ensures SysInv(s)
  {
    forall p | p in s.sh.infos ensures Quiet(s.lo.scan, s.sh, p) {
    }
    assert ThreadsInv(s) && HandleInv(s) && ScanInv(s);
  }

  lemma {:induction false} RunInv(states: seq<State>, steps: seq<Step>, k: nat)
    requires IsRun(states, steps) && k < |states|
    ensures SysInv(states[k])
  {
    if k == 0 {
      InitHolds(states[0]);
    } else {
      RunInv(states, steps, k - 1);
      assert Follows(states, steps, k - 1);
      StepKeeps(states[k - 1], steps[k - 1]);
    }
  }

  /** The step that leads to a later state of a run, taken in a state that satisfies the invariant. */
  lemma StepOf(states: seq<State>, steps: seq<Step>, k: nat)
    requires IsRun(states, steps) && 0 < k < |states|
    ensures |states| == |steps| + 1
    ensures SysInv(states[k - 1]) && Enabled(states[k - 1], steps[k - 1])
    ensures states[k] == Apply(states[k - 1], steps[k - 1])
  {
    RunInv(states, steps, k - 1);
    assert Follows(states, steps, k - 1);
  }

  // ---------------------------------------------------------------- scheduling

  /** At most one scan is between its launch and its clearing of `scanning`, and the flag says so. */
  lemma AtMostOneScan(states: seq<State>, steps: seq<Step>, k: nat, t: nat, u: nat)
    requires IsRun(states, steps) && k < |states|
    requires t in states[k].threads && Active(states[k].threads[t])
    requires u in states[k].threads && Active(states[k].threads[u])
    ensures t == u && states[k].scanning
  {
    RunInv(states, steps, k);
  }

  lemma ActiveStepFixesList(s: State, st: Step, t: nat)
    requires SysInv(s) && Enabled(s, st) && t in s.threads && Active(s.threads[t])
    ensures Apply(s, st).all == s.all && Apply(s, st).lo == s.lo
  {
    assert s.scan == Some(t) && s.scanning && !RelyOnQuiet(s.main);
  }

  /** From its launch to its clearing of `scanning` a scan sees one and the same list and options. */
  lemma {:induction false} ListIsFixed(states: seq<State>, steps: seq<Step>, j: nat, k: nat, t: nat)
    requires IsRun(states, steps) && j <= k < |states|
    requires forall m :: j <= m <= k ==> t in states[m].threads && Active(states[m].threads[t])
    ensures states[k].all == states[j].all && states[k].lo == states[j].lo
  {
    if j < k {
      StepOf(states, steps, k);
      ListIsFixed(states, steps, j, k - 1, t);
      ActiveStepFixesList(states[k - 1], steps[k - 1], t);
    }
  }

  /** Every listed path has an entry, so no lookup of the sort ever fails. */
  lemma EveryPathHasEntry(states: seq<State>, steps: seq<Step>, k: nat)
    requires IsRun(states, steps) && k < |states|
    ensures !states[k].missed
    ensures forall p :: p in states[k].all ==> p in states[k].sh.infos
  {
    RunInv(states, steps, k);
  }

  /** When the event loop returns, every scan thread it ever launched has ended. */
  lemma StoppedMeansJoined(states: seq<State>, steps: seq<Step>, k: nat)
    requires IsRun(states, steps) && k < |states| && states[k].main.Stopped?
    ensures forall t :: t in states[k].threads ==> states[k].threads[t].phase == Ended
  {
    RunInv(states, steps, k);
  }

  /** No step turns `running` on again. */
  lemma RunningFalls(s: State, st: Step)
    requires Enabled(s, st) && Apply(s, st).sh.running
    ensures s.sh.running
  {
    if IsWork(s, st) {
      WorkerShape(s.all, s.sh, s.threads[st.t], st.w, st.ch);
    } else if st.MainStep? {
      MainFrame(s, st.mc);
    }
  }

  lemma {:induction false} StopIsFinal(states: seq<State>, steps: seq<Step>, j: nat, k: nat)
    requires IsRun(states, steps) && j <= k < |states| && !states[j].sh.running
    ensures !states[k].sh.running
  {
    if j < k {
      StopIsFinal(states, steps, j, k - 1);
      StepOf(states, steps, k);
      if states[k].sh.running { RunningFalls(states[k - 1], steps[k - 1]); }
    }
  }

  /** Where only a running scan sends a worker: to claim an index, and past the entry check of process_repo. */
  predicate Admitted(pc: Pc) { pc.AtClaim? || pc.AtEntry? }

  predicate StandsAt(s: State, t: nat, w: nat, pc: Pc) {
    t in s.threads && w < |s.threads[t].workers| && s.threads[t].workers[w] == pc
  }

  /**
   * Once `running` is off, no worker of any scan goes on to claim another
   * index or passes the entry check of process_repo: whoever stands there
   * stood there before.
   */
  lemma NothingStartsAfterStop(states: seq<State>, steps: seq<Step>, j: nat, k: nat, t: nat, w: nat, pc: Pc)
    requires IsRun(states, steps) && j <= k < |steps| && !states[j].sh.running
    requires Admitted(pc) && StandsAt(states[k + 1], t, w, pc)
    ensures StandsAt(states[k], t, w, pc)
  {
    StopIsFinal(states, steps, j, k);
    StepOf(states, steps, k + 1);
    var s, st := states[k], steps[k];
    if IsWork(s, st) {
      WorkerAlone(s.all, s.sh, s.threads[st.t], st.w, st.ch, w, pc);
    } else {
      OthersAdmitNobody(s, st, t, w, pc);
    }
  }

  /** A worker's step moves no other worker, and without `running` admits not even itself. */
  lemma WorkerAlone(all: seq<Path>, sh: Shared, sc: Scan, v: nat, ch: Choice, w: nat, pc: Pc)
    requires CanStep(all, sc, v) && !sh.running && Admitted(pc)
    ensures var sc2 := WorkerStep(all, sh, sc, v, ch).sc;
            w < |sc2.workers| && sc2.workers[w] == pc ==> w < |sc.workers| && sc.workers[w] == pc
  {
    StepLowers(all, sh, sc, v, ch);
    AdmissionNeedsRunning(all, sh, sc, v, ch);
  }

  lemma AdmissionNeedsRunning(all: seq<Path>, sh: Shared, sc: Scan, v: nat, ch: Choice)
    requires CanStep(all, sc, v) && !sh.running
    ensures var sc2 := WorkerStep(all, sh, sc, v, ch).sc; v < |sc2.workers| && !Admitted(sc2.workers[v])
  {
  }

  lemma OthersAdmitNobody(s: State, st: Step, t: nat, w: nat, pc: Pc)
    requires SysInv(s) && Enabled(s, st) && !IsWork(s, st) && Admitted(pc) && StandsAt(Apply(s, st), t, w, pc)
    ensures StandsAt(s, t, w, pc)
  {
  }

  // ---------------------------------------------------------------- checkouts

  /** The path cannot be moved under these options while its checkout looks like this. */
  predicate Protected(o: ScanOptions, p: Path, tree: Tree) {
    !MayPull(o, p) || (!ForcePull(o, p) && tree.work.dirty)
  }

  /** A step that is not the user's moves a checkout only as the hard reset of an unprotected path to its goal. */
  lemma StepMovesTree(s: State, st: Step, p: Path)
    requires SysInv(s) && Enabled(s, st) && !(st.UserEdit? && st.p == p)
    ensures var after := TreeOf(Apply(s, st).sh, p);
            Moved(TreeOf(s.sh, p), after) ==>
              && st.ThreadStep? && !Protected(s.lo.scan, p, TreeOf(s.sh, p))
              && AtGoal(after, s.lo.scan.remote, Target(s.lo.scan, p), st.ch.probe.git)
  {
    if !IsWork(s, st) {
      OtherStepsKeepTree(s, st, p);
    } else {
      var sc := s.threads[st.t];
      assert s.scan == Some(st.t) && ActiveInv(s, sc);
      OnlyResetsMoveTrees(s.all, s.sh, sc, st.w, st.ch, p);
    }
  }

  /** The step is one worker's. */
  predicate IsWork(s: State, st: Step) {
    st.ThreadStep? && st.t in s.threads && CanStep(s.all, s.threads[st.t], st.w)
  }

  lemma OtherStepsKeepTree(s: State, st: Step, p: Path)
    requires Enabled(s, st) && !IsWork(s, st) && !(st.UserEdit? && st.p == p)
    ensures TreeOf(Apply(s, st).sh, p) == TreeOf(s.sh, p)
  {
    if st.MainStep? { MainFrame(s, st.mc); }
  }

  /** The same, read against an earlier look at the checkout. */
  lemma ProtectedStep(s: State, st: Step, p: Path, tree: Tree)
    requires SysInv(s) && Enabled(s, st) && !(st.UserEdit? && st.p == p)
    requires Protected(s.lo.scan, p, tree) && !Moved(tree, TreeOf(s.sh, p))
    ensures !Moved(tree, TreeOf(Apply(s, st).sh, p))
  {
    StepMovesTree(s, st, p);
  }

  /**
   * Over any stretch of any run in which nobody else edits the checkout of p:
   * if p is excluded, check-only, dry-run, or dirty with force-pull off, then
   * HEAD and the working tree of p are untouched at the end.
   */
  lemma {:induction false} ProtectedTreesStay(states: seq<State>, steps: seq<Step>, j: nat, k: nat, p: Path)
    requires IsRun(states, steps) && j <= k < |states|
    requires forall m :: j <= m < k ==> Protected(states[m].lo.scan, p, TreeOf(states[j].sh, p))
    requires forall m :: j <= m < k ==> !(steps[m].UserEdit? && steps[m].p == p)
    ensures !Moved(TreeOf(states[j].sh, p), TreeOf(states[k].sh, p))
  {
    if j < k {
      StepOf(states, steps, k);
      ProtectedTreesStay(states, steps, j, k - 1, p);
      ProtectedStep(states[k - 1], steps[k - 1], p, TreeOf(states[j].sh, p));
    }
  }

  // ---------------------------------------------------------------- the session flags

  /** The step that forgets a session. */
  predicate Reloads(s: State, st: Step) {
    st.MainStep? && s.main.Reload? && !st.mc.parseFails
  }

  /** The step in which a try_pull on p returns 0. */
  ghost predicate PullsOk(s: State, st: Step, p: Path) {
    && IsWork(s, st)
    && var sc := s.threads[st.t];
    && sc.workers[st.w].AtPull? && sc.workers[st.w].ticks == 0 && s.all[sc.workers[st.w].i] == p
    && PullOf(s.sh, p, sc.o, st.ch.probe).code == CODE_OK
  }

  lemma MemoryOfStep(s: State, st: Step, p: Path)
    requires Enabled(s, st)
    ensures p in Apply(s, st).sh.pulledOk <==> !Reloads(s, st) && (p in s.sh.pulledOk || PullsOk(s, st, p))
  {
    if IsWork(s, st) {
      MemoryOfWork(s, st.t, st.w, st.ch, p);
    } else if st.MainStep? {
      MainFrame(s, st.mc);
    }
  }

  lemma MemoryOfWork(s: State, t: nat, w: nat, ch: Choice, p: Path)
    requires t in s.threads && CanStep(s.all, s.threads[t], w)
    ensures p in WorkerStep(s.all, s.sh, s.threads[t], w, ch).sh.pulledOk <==>
            p in s.sh.pulledOk || PullsOk(s, ThreadStep(t, w, ch), p)
  {
    var sc := s.threads[t];
    if sc.workers[w].AtPull? && sc.workers[w].ticks == 0 {
      PullEffect(s.sh, s.all[sc.workers[w].i], sc.o, ch.probe);
    } else {
      OtherStepsForget(s.all, s.sh, sc, w, ch);
    }
  }

  lemma OtherStepsForget(all: seq<Path>, sh: Shared, sc: Scan, w: nat, ch: Choice)
    requires CanStep(all, sc, w) && !(sc.workers[w].AtPull? && sc.workers[w].ticks == 0)
    ensures WorkerStep(all, sh, sc, w, ch).sh.pulledOk == sh.pulledOk
  {
  }

  /** An earlier try_pull on p returned 0 at step j, and nothing was reloaded since. */
  ghost predicate PulledSince(states: seq<State>, steps: seq<Step>, k: nat, p: Path, j: nat)
    requires k <= |steps| && |steps| <= |states|
  {
    j < k && PullsOk(states[j], steps[j], p) && forall m :: j <= m < k ==> !Reloads(states[m], steps[m])
  }

  ghost predicate EverPulled(states: seq<State>, steps: seq<Step>, k: nat, p: Path)
    requires k <= |steps| && |steps| <= |states|
  {
    exists j: nat :: PulledSince(states, steps, k, p, j)
  }

  lemma PulledSinceGrows(states: seq<State>, steps: seq<Step>, k: nat, p: Path)
    requires 0 < k <= |steps| && |steps| <= |states|
    ensures EverPulled(states, steps, k, p) <==>
            !Reloads(states[k - 1], steps[k - 1]) &&
            (PullsOk(states[k - 1], steps[k - 1], p) || EverPulled(states, steps, k - 1, p))
  {
    var i := k - 1;
    if EverPulled(states, steps, k, p) {
      var j: nat :| PulledSince(states, steps, k, p, j);
      assert j < i ==> PulledSince(states, steps, i, p, j);
    }
    if !Reloads(states[i], steps[i]) {
      if PullsOk(states[i], steps[i], p) {
        assert PulledSince(states, steps, k, p, i);
      } else if EverPulled(states, steps, i, p) {
        var j: nat :| PulledSince(states, steps, i, p, j);
        assert PulledSince(states, steps, k, p, j);
      }
    }
  }

  lemma {:induction false} MemoryIsHistory(states: seq<State>, steps: seq<Step>, k: nat, p: Path)
    requires IsRun(states, steps) && k < |states|
    ensures p in states[k].sh.pulledOk <==> EverPulled(states, steps, k, p)
  {
    if k == 0 {
      assert Init(states[0]);
    } else {
      StepOf(states, steps, k);
      MemoryIsHistory(states, steps, k - 1, p);
      PulledSinceGrows(states, steps, k, p);
      MemoryOfStep(states[k - 1], steps[k - 1], p);
    }
  }

  /**
   * For a list without duplicates, whenever no scan is under way: the sticky
   * flag of p is on exactly when a try_pull on p has returned 0 since the last
   * reload; no entry is CHECKING, and none PULLING, unless its worker crashed.
   */
  lemma PulledMeansPulled(states: seq<State>, steps: seq<Step>, k: nat, p: Path)
    requires IsRun(states, steps) && k < |states|
    requires states[k].scan.None? && Distinct(states[k].all) && p in states[k].sh.infos
    ensures states[k].sh.infos[p].pulled ==> EverPulled(states, steps, k, p)
    ensures p !in states[k].sh.crashed ==>
              (states[k].sh.infos[p].pulled <==> EverPulled(states, steps, k, p))
    ensures states[k].sh.infos[p].status != Checking
    ensures p !in states[k].sh.crashed ==> states[k].sh.infos[p].status != Pulling
  {
    RunInv(states, steps, k);
    MemoryIsHistory(states, steps, k, p);
    assert Quiet(states[k].lo.scan, states[k].sh, p);
  }

  /** At any moment: at most one "Updated" line per path and session, and never one without a successful pull. */
  lemma UpdatedAtMostOnce(states: seq<State>, steps: seq<Step>, k: nat, p: Path)
    requires IsRun(states, steps) && k < |states| && Distinct(states[k].all)
    ensures states[k].sh.updated[p] <= 1
    ensures states[k].sh.updated[p] == 1 ==> EverPulled(states, steps, k, p)
    ensures p in states[k].sh.infos ==> states[k].sh.infos[p].status != Checking
  {
    RunInv(states, steps, k);
    MemoryIsHistory(states, steps, k, p);
    RowNow(states[k], p);
  }

  /** What the invariant says of one path at any moment. */
  lemma RowNow(s: State, p: Path)
    requires SysInv(s) && Distinct(s.all)
    ensures s.sh.updated[p] <= 1 && (s.sh.updated[p] == 1 ==> p in s.sh.pulledOk)
    ensures p in s.sh.infos ==> s.sh.infos[p].status != Checking
  {
    if p in s.sh.infos {
      if s.scan.Some? && s.threads[s.scan.value].phase == Working {
        var sc := s.threads[s.scan.value];
        assert ActiveInv(s, sc);
        if p in s.all {
          var i :| 0 <= i < |s.all| && s.all[i] == p;
          assert RowInv(sc.o, s.sh, p, StageOf(sc, i), sc.skip0);
        } else {
          assert Quiet(sc.o, s.sh, p);
        }
      } else {
        assert s.scan.Some? ==> ActiveInv(s, s.threads[s.scan.value]);
        assert Quiet(s.lo.scan, s.sh, p);
      }
    }
  }

  // ---------------------------------------------------------------- NOT_GIT and the skip list

  predicate IsNotGit(s: State, p: Path) { p in s.sh.infos && s.sh.infos[p].status == NotGit }

  lemma NotGitStep(s: State, st: Step, p: Path)
    requires SysInv(s) && Enabled(s, st) && Distinct(s.all) && !Reloads(s, st) && IsNotGit(s, p)
    ensures IsNotGit(Apply(s, st), p)
  {
    if IsWork(s, st) {
      var sc := s.threads[st.t];
      assert s.scan == Some(st.t) && ActiveInv(s, sc);
      NotGitInPool(s.all, s.sh, sc, st.w, st.ch, p);
    } else if st.MainStep? {
      MainFrame(s, st.mc);
    }
  }

  /** Only a reload can bring duplicates into the list. */
  lemma DistinctStep(s: State, st: Step)
    requires Enabled(s, st) && !Reloads(s, st) && Distinct(s.all)
    ensures Distinct(Apply(s, st).all)
  {
    if st.MainStep? {
      if s.main.AfterJoin? {
        PermutationDistinct(s.all, Apply(s, st).all);
      } else if s.main.Rescan? {
        RescanDistinct(s, st.mc);
      }
    }
  }

  lemma RescanDistinct(s: State, mc: MainChoice)
    requires Distinct(s.all)
    ensures Distinct(RescanApply(s, mc).all)
  {
    var found := if s.lo.keepFirst then AppendMissing(mc.paths, mc.validated) else mc.paths;
    AppendMissingDistinct(s.all, found);
    PermutationDistinct(AppendMissing(s.all, found), RescanApply(s, mc).all);
  }

  /** An entry that says NOT_GIT says so over any stretch of any run without a reload. */
  lemma {:induction false} NotGitAbsorbs(states: seq<State>, steps: seq<Step>, j: nat, k: nat, p: Path)
    requires IsRun(states, steps) && j <= k < |states|
    requires Distinct(states[j].all) && IsNotGit(states[j], p)
    requires forall m :: j <= m < k ==> !Reloads(states[m], steps[m])
    ensures Distinct(states[k].all) && IsNotGit(states[k], p)
  {
    if j < k {
      NotGitAbsorbs(states, steps, j, k - 1, p);
      StepOf(states, steps, k);
      NotGitStep(states[k - 1], steps[k - 1], p);
      DistinctStep(states[k - 1], steps[k - 1]);
    }
  }

  lemma NotGitInPool(all: seq<Path>, sh: Shared, sc: Scan, w: nat, ch: Choice, p: Path)
    requires PoolInv(all, sh, sc) && Distinct(all) && CanStep(all, sc, w)
    requires p in sh.infos && sh.infos[p].status == NotGit
    ensures var sh2 := WorkerStep(all, sh, sc, w, ch).sh;
            p in sh2.infos && sh2.infos[p].status == NotGit
  {
    if Holds(sc.workers[w]) {
      var pc := sc.workers[w];
      StepFrame(all, sh, sc, w, ch);
      if all[pc.i] == p {
        assert StageOf(sc, pc.i) == Held(pc);
        assert RowInv(sc.o, sh, p, Held(pc), sc.skip0);
        assert !pc.AtStart? && !pc.AtPull? && !pc.AtStore? && !pc.AtJudge?;
      } else {
        assert SameRow(sh, WorkerStep(all, sh, sc, w, ch).sh, p);
      }
    }
  }

  lemma SkipListStep(s: State, st: Step)
    requires SysInv(s) && Enabled(s, st) && !Reloads(s, st) && !s.lo.scan.retrySkipped
    ensures s.sh.skip <= Apply(s, st).sh.skip && Apply(s, st).lo == s.lo
  {
    match st
    case ThreadStep(t, w, ch) =>
      var sc := s.threads[t];
      if sc.phase == Resetting {
        assert ActiveInv(s, sc);
      } else if sc.phase == Working && CanStep(s.all, sc, w) {
        WorkerShape(s.all, s.sh, sc, w, ch);
      }
    case MainStep(mc) => MainFrame(s, mc);
    case _ =>
  }

  /** Without retry_skipped the skip list only grows over any stretch of any run without a reload. */
  lemma {:induction false} SkipListGrows(states: seq<State>, steps: seq<Step>, j: nat, k: nat)
    requires IsRun(states, steps) && j <= k < |states| && !states[j].lo.scan.retrySkipped
    requires forall m :: j <= m < k ==> !Reloads(states[m], steps[m])
    ensures states[j].sh.skip <= states[k].sh.skip && states[k].lo == states[j].lo
  {
    if j < k {
      SkipListGrows(states, steps, j, k - 1);
      StepOf(states, steps, k);
      SkipListStep(states[k - 1], steps[k - 1]);
    }
  }

  /** p is on the skip list, and any scan under way found it there at its reset. */
  ghost predicate SkippedFor(s: State, p: Path) {
    && p in s.sh.skip
    && (s.scan.Some? && s.scan.value in s.threads && s.threads[s.scan.value].phase == Working ==>
          p in s.threads[s.scan.value].skip0)
  }

  lemma SkippedStays(s: State, st: Step, p: Path)
    requires SysInv(s) && Enabled(s, st) && !Reloads(s, st) && !s.lo.scan.retrySkipped && SkippedFor(s, p)
    ensures SkippedFor(Apply(s, st), p)
  {
    SkipListStep(s, st);
    var s2 := Apply(s, st);
    if s2.scan.Some? && s2.scan.value in s2.threads && s2.threads[s2.scan.value].phase == Working {
      var t := s2.scan.value;
      match st
      case ThreadStep(u, w, ch) =>
        var sc := s.threads[u];
        if sc.phase == Resetting {
          assert ActiveInv(s, sc);
          assert s.scan == Some(u);
        } else if sc.phase == Working && CanStep(s.all, sc, w) {
          WorkerShape(s.all, s.sh, sc, w, ch);
        }
      case _ =>
    }
  }

  /**
   * Once a path is skipped with no scan under way, and until a reload, no
   * worker of any later scan takes it past the skip test: process_repo is
   * never entered for it again.
   */
  lemma SkippedIsNeverProcessed(states: seq<State>, steps: seq<Step>, j: nat, k: nat, p: Path, t: nat, w: nat)
    requires IsRun(states, steps) && j <= k < |states|
    requires states[j].scan.None? && p in states[j].sh.skip && !states[j].lo.scan.retrySkipped
    requires forall m :: j <= m < k ==> !Reloads(states[m], steps[m])
    requires t in states[k].threads && CanStep(states[k].all, states[k].threads[t], w)
    requires Holds(states[k].threads[t].workers[w]) && states[k].all[states[k].threads[t].workers[w].i] == p
    ensures states[k].threads[t].workers[w].AtSkip?
  {
    StaysSkipped(states, steps, j, k, p);
    RunInv(states, steps, k);
    var s := states[k];
    var sc := s.threads[t];
    assert s.scan == Some(t) && ActiveInv(s, sc);
    assert PastSkip(s.all, sc.skip0, sc.workers[w]);
  }

  lemma {:induction false} StaysSkipped(states: seq<State>, steps: seq<Step>, j: nat, k: nat, p: Path)
    requires IsRun(states, steps) && j <= k < |states|
    requires states[j].scan.None? && p in states[j].sh.skip && !states[j].lo.scan.retrySkipped
    requires forall m :: j <= m < k ==> !Reloads(states[m], steps[m])
    ensures SkippedFor(states[k], p) && !states[k].lo.scan.retrySkipped
  {
    if j < k {
      StepOf(states, steps, k);
      StaysSkipped(states, steps, j, k - 1, p);
      SkippedStays(states[k - 1], steps[k - 1], p);
      SkipListStep(states[k - 1], steps[k - 1]);
    }
  }

  // ---------------------------------------------------------------- skip_unavailable

  /**
   * When all workers of a scan have exited and nobody has stopped the run, the
   * scan has completed every path but those it was skipping.
   */
  lemma FinishedScanIsComplete(states: seq<State>, steps: seq<Step>, k: nat, t: nat, p: Path)
    requires IsRun(states, steps) && k < |states| && Distinct(states[k].all) && states[k].sh.running
    requires t in states[k].threads && states[k].threads[t].phase == Working && AllExited(states[k].threads[t])
    requires p in states[k].all
    ensures if p in states[k].threads[t].skip0 then Hist(states[k].sh, p) == [] else Completed(states[k].sh, p)
    ensures p !in states[k].threads[t].skip0 && Excluded(states[k].lo.scan, p) ==> states[k].sh.infos[p].status == Skipped
  {
    RunInv(states, steps, k);
    var s := states[k];
    assert s.scan == Some(t) && ActiveInv(s, s.threads[t]);
    ScanEnds(s.all, s.sh, s.threads[t]);
  }

  /** In no state of any run does a worker's step depend on skip_unavailable, as long as no path is listed twice. */
  lemma SkipUnavailableNeverMatters(states: seq<State>, steps: seq<Step>, k: nat, flag: bool)
    requires IsRun(states, steps) && k < |steps| && Distinct(states[k].all) && IsWork(states[k], steps[k])
    ensures SameEffect(states[k].all, states[k].sh, states[k].threads[steps[k].t], steps[k].w, steps[k].ch, flag)
  {
    StepOf(states, steps, k + 1);
    var s := states[k];
    assert s.scan == Some(steps[k].t) && ActiveInv(s, s.threads[steps[k].t]);
    SkipUnavailableIsInert(s.all, s.sh, s.threads[steps[k].t], steps[k].w, steps[k].ch, flag);
  }
}
