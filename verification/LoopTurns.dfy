/**
 * What a turn of the main loop does, over whole runs: when a scan is launched
 * and with what, when the configuration is reloaded and the directories are
 * rescanned, what joining a scan does, and everything that ends a run.
 */
module LoopTurns {
  import opened Basics
  import opened GitPull
  import opened RepoScan
  import opened ScanPool
  import opened PoolRuns
  import opened EventLoop
  import opened LoopSafety
  import opened LoopRuns
  import RepoLaws

  // ---------------------------------------------------------------- launching

  /** A scan with these options that has not done anything yet. */
  function NewScan(o: ScanOptions): Scan { Scan(o, Resetting, 0, [], [], {}) }

  /** From the decision to launch, taken in s0, to the end of the turn. */
  ghost predicate OnTheWay(s0: State, s: State) {
    if s.main.Assign? || s.main.Bottom? then
      && s.nextId == s0.nextId + 1
      && s0.nextId in s.threads && s.threads[s0.nextId].o == s0.lo.scan
      && (if s.main.Assign? then s.main.id == s0.nextId else s.handle == Some(s0.nextId))
    else Launching(s.main) && s.nextId == s0.nextId && s.lo == s0.lo
  }

  lemma ThreadKeepsOptions(s: State, t: nat, w: nat, ch: Choice, id: nat)
    requires Enabled(s, ThreadStep(t, w, ch)) && id in s.threads
    ensures id in ThreadApply(s, t, w, ch).threads && ThreadApply(s, t, w, ch).threads[id].o == s.threads[id].o
  {
    if s.threads[t].phase == Working && CanStep(s.all, s.threads[t], w) {
      WorkerShape(s.all, s.sh, s.threads[t], w, ch);
    }
  }

  lemma ThreadKeepsMain(s: State, t: nat, w: nat, ch: Choice)
    requires Enabled(s, ThreadStep(t, w, ch))
    ensures var s2 := ThreadApply(s, t, w, ch);
            s2.main == s.main && s2.nextId == s.nextId && s2.lo == s.lo && s2.handle == s.handle
  {
  }

  /** Whether this step creates the thread that OnTheWay waits for. */
  predicate Spawns(s: State, st: Step) { st.MainStep? && s.main.Spawn? }

  lemma MainOnTheWay(s0: State, s: State, mc: MainChoice)
    requires SysInv(s) && OnTheWay(s0, s) && !s.main.Bottom? && Enabled(s, MainStep(mc))
    ensures var s2 := MainApply(s, mc);
            && OnTheWay(s0, s2)
            && (s.main.Spawn? ==> s0.nextId !in s.threads && s2.threads[s0.nextId] == NewScan(s0.lo.scan) && s2.scanning)
            && (s2.main.Assign? ==> s.main.Spawn?)
  {
  }

  lemma StaysOnTheWay(s0: State, s: State, st: Step)
    requires SysInv(s) && OnTheWay(s0, s) && !s.main.Bottom? && Enabled(s, st)
    ensures OnTheWay(s0, Apply(s, st))
    ensures Spawns(s, st) ==> s0.nextId !in s.threads && Apply(s, st).threads[s0.nextId] == NewScan(s0.lo.scan)
    ensures (Apply(s, st).main.Assign? || Apply(s, st).main.Bottom?) ==> s.main.Assign? || Spawns(s, st)
  {
    match st
    case MainStep(mc) => MainOnTheWay(s0, s, mc);
    case ThreadStep(t, w, ch) =>
      ThreadKeepsMain(s, t, w, ch);
      if s.main.Assign? { ThreadKeepsOptions(s, t, w, ch, s0.nextId); }
    case _ =>
  }

  /** The thread appears in step m, with these options and nothing done. */
  ghost predicate BornAt(states: seq<State>, id: nat, o: ScanOptions, m: nat) {
    && m + 1 < |states| && id !in states[m].threads
    && id in states[m + 1].threads && states[m + 1].threads[id] == NewScan(o)
  }

  /** The turn that begins at the launch test in state j ends in state k. */
  ghost predicate IsLaunchTurn(states: seq<State>, steps: seq<Step>, j: nat, k: nat) {
    && IsRun(states, steps) && j < k < |states|
    && states[j].main.LaunchTest? && steps[j].MainStep? && states[k].main.Bottom?
    && forall m :: j < m < k ==> !states[m].main.Bottom?
  }

  /** Every launch that is due happens: running, the countdown over, and no scan under way. */
  predicate LaunchDue(s: State, mc: MainChoice) { s.sh.running && mc.due && !s.scanning }

  /** The launch test sends the main loop on a launch, with or without a rescan, or straight to the bottom. */
  predicate Decided(s: State, s2: State, mc: MainChoice) {
    if LaunchDue(s, mc) then
      && s2.main == (if s.lo.rescanNew && mc.rescanDue then Rescan else Calm)
      && s2.nextId == s.nextId && s2.lo == s.lo
    else s2.main.Bottom? && s2.threads == s.threads && s2.nextId == s.nextId && s2.handle == s.handle
  }

  lemma LaunchDecides(s: State, mc: MainChoice)
    requires s.main.LaunchTest?
    ensures Decided(s, Apply(s, MainStep(mc)), mc)
  {
  }

  lemma SetsOut(s: State, s2: State, mc: MainChoice)
    requires Decided(s, s2, mc) && LaunchDue(s, mc)
    ensures OnTheWay(s, s2)
  {
  }

  lemma TurnBegins(states: seq<State>, steps: seq<Step>, j: nat, k: nat)
    requires IsLaunchTurn(states, steps, j, k)
    ensures Decided(states[j], states[j + 1], steps[j].mc)
    ensures LaunchDue(states[j], steps[j].mc) ==> OnTheWay(states[j], states[j + 1])
  {
    StepOf(states, steps, j + 1);
    LaunchDecides(states[j], steps[j].mc);
    if LaunchDue(states[j], steps[j].mc) { SetsOut(states[j], states[j + 1], steps[j].mc); }
  }

  /**
   * A turn of the loop that finds the countdown over, the run on and no scan
   * under way ends with exactly one new scan thread: it carries the options of
   * that moment, starts with nothing done, and is the one scan_thread joins.
   * Any other turn launches nothing.
   */
  lemma LaunchesExactlyWhenDue(states: seq<State>, steps: seq<Step>, j: nat, k: nat)
    requires IsLaunchTurn(states, steps, j, k)
    ensures LaunchDue(states[j], steps[j].mc) ==>
              && states[k].nextId == states[j].nextId + 1
              && states[k].handle == Some(states[j].nextId)
              && states[j].nextId in states[k].threads
              && exists m: nat :: j < m < k && BornAt(states, states[j].nextId, states[j].lo.scan, m)
    ensures !LaunchDue(states[j], steps[j].mc) ==>
              states[k].nextId == states[j].nextId && states[k].threads == states[j].threads && states[k].handle == states[j].handle
  {
    TurnBegins(states, steps, j, k);
    if LaunchDue(states[j], steps[j].mc) {
      var m, born := j + 1, j;
      while m < k
        invariant j < m <= k && WayPoint(states, j, m, born)
      {
        born := WayGoesOn(states, steps, j, m, born);
        m := m + 1;
      }
    }
  }

  /** State m is on the way from j, and past the spawn the thread was born at `born`. */
  ghost predicate WayPoint(states: seq<State>, j: nat, m: nat, born: nat)
    requires j < |states| && m < |states|
  {
    && OnTheWay(states[j], states[m])
    && (states[m].main.Assign? || states[m].main.Bottom? ==>
          j < born < m && BornAt(states, states[j].nextId, states[j].lo.scan, born))
  }

  lemma WayGoesOn(states: seq<State>, steps: seq<Step>, j: nat, m: nat, born: nat) returns (next: nat)
    requires IsRun(states, steps) && j < m < |steps| && WayPoint(states, j, m, born) && !states[m].main.Bottom?
    ensures WayPoint(states, j, m + 1, next)
  {
    StepOf(states, steps, m + 1);
    StaysOnTheWay(states[j], states[m], steps[m]);
    next := if Spawns(states[m], steps[m]) then m else born;
  }

  /** The launch test decides whether this launch rescans the directories first. */
  lemma RescansExactlyWhenDue(states: seq<State>, steps: seq<Step>, j: nat, k: nat)
    requires IsLaunchTurn(states, steps, j, k)
    ensures states[j + 1].main.Rescan? <==>
            LaunchDue(states[j], steps[j].mc) && states[j].lo.rescanNew && steps[j].mc.rescanDue
  {
    TurnBegins(states, steps, j, k);
  }

  /** A rescan adds exactly the found paths and, if asked, the first-validated ones; known entries stay. */
  lemma RescanExactly(s: State, mc: MainChoice, p: Path)
    requires s.main.Rescan? && Enabled(s, MainStep(mc))
    ensures var s2 := Apply(s, MainStep(mc));
            var found := p in mc.paths || (s.lo.keepFirst && p in s.firstValidated);
            && (p in s2.all <==> p in s.all || found)
            && (p in s2.sh.infos <==> p in s.sh.infos || found)
            && (p in s.sh.infos ==> s2.sh.infos[p] == s.sh.infos[p])
            && (p !in s.sh.infos && found ==> s2.sh.infos[p] == RepoInfo(Pending, false, false, 0, 0))
            && s2.main == Calm && s2.sh == s.sh.(infos := s2.sh.infos)
  {
    var found := if s.lo.keepFirst then AppendMissing(mc.paths, mc.validated) else mc.paths;
    PermutationMembers(AppendMissing(s.all, found), RescanApply(s, mc).all);
  }

  /** Every launch first turns PULLING and CHECKING, whatever left them behind, into PENDING, and nothing else. */
  lemma CalmExactly(s: State, mc: MainChoice, p: Path)
    requires s.main.Calm?
    ensures var s2 := Apply(s, MainStep(mc));
            && (p in s2.sh.infos <==> p in s.sh.infos)
            && (p in s.sh.infos ==>
                  s2.sh.infos[p] == if s.sh.infos[p].status == Pulling || s.sh.infos[p].status == Checking
                                    then s.sh.infos[p].(status := Pending) else s.sh.infos[p])
            && s2 == s.(sh := s.sh.(infos := s2.sh.infos), main := SetScanning)
  {
  }

  // ---------------------------------------------------------------- reloading

  /**
   * The notice of a configuration change is consumed at the top of every turn;
   * it leads to a reload exactly when reloading is on and no scan is under way,
   * and is dropped otherwise.
   */
  lemma ReloadsExactlyWhenQuiet(states: seq<State>, steps: seq<Step>, j: nat)
    requires IsRun(states, steps) && j < |steps| && states[j].main.ReloadTest? && steps[j].MainStep?
    ensures !states[j + 1].configChanged && states[j + 1].lo == states[j].lo && states[j + 1].all == states[j].all
    ensures states[j + 1].main.Reload? <==> states[j].configChanged && states[j].lo.autoReload && !states[j].scanning
  {
    StepOf(states, steps, j + 1);
  }

  /** The watcher has reported a change between states j and k. */
  ghost predicate Reported(steps: seq<Step>, j: nat, k: nat)
    requires j <= k <= |steps|
  {
    exists m :: j <= m < k && steps[m].ConfigEvent?
  }

  /** The step is the test that consumes the notice. */
  predicate Consumes(s: State, st: Step) { st.MainStep? && s.main.ReloadTest? }

  lemma NoticeStep(s: State, st: Step)
    requires Enabled(s, st) && !Consumes(s, st)
    ensures Apply(s, st).configChanged <==> s.configChanged || st.ConfigEvent?
  {
    match st
    case MainStep(mc) => MainKeepsNotice(s, mc);
    case _ =>
  }

  lemma PlainKeepsNotice(s: State, mc: MainChoice)
    requires Plain(s.main) && !s.main.ReloadTest?
    ensures PlainTurn(s, mc).configChanged == s.configChanged
  {
  }

  lemma OthersKeepNotice(s: State, mc: MainChoice)
    requires !Plain(s.main)
    ensures MainApply(s, mc).configChanged == s.configChanged
  {
  }

  lemma MainKeepsNotice(s: State, mc: MainChoice)
    requires !s.main.ReloadTest?
    ensures MainApply(s, mc).configChanged == s.configChanged
  {
    if Plain(s.main) { PlainKeepsNotice(s, mc); } else { OthersKeepNotice(s, mc); }
  }

  /** Between two of these tests the notice stands exactly when it stood before or the watcher has reported since. */
  lemma {:induction false} NoticeExactly(states: seq<State>, steps: seq<Step>, j: nat, k: nat)
    requires IsRun(states, steps) && j <= k < |states|
    requires forall m :: j <= m < k ==> !Consumes(states[m], steps[m])
    ensures |states| == |steps| + 1
    ensures states[k].configChanged <==> states[j].configChanged || Reported(steps, j, k)
  {
    if j < k {
      NoticeExactly(states, steps, j, k - 1);
      StepOf(states, steps, k);
      NoticeStep(states[k - 1], steps[k - 1]);
      assert Reported(steps, j, k) <==> Reported(steps, j, k - 1) || steps[k - 1].ConfigEvent?;
    }
  }

  /** A reload that parses forgets the session and starts from the new paths and options; one that fails changes nothing. */
  lemma ReloadExactly(s: State, mc: MainChoice, p: Path)
    requires s.main.Reload?
    ensures var s2 := Apply(s, MainStep(mc));
            && s2.main == TimeoutTest && s2.threads == s.threads && s2.sh.trees == s.sh.trees && s2.sh.running == s.sh.running
            && if mc.parseFails then s2 == s.(main := TimeoutTest)
               else
                 && s2.lo == mc.lo && s2.all == mc.paths && s2.sh.skip == {} && s2.firstValidated == {} && s2.firstCycle
                 && (p in s2.sh.infos <==> p in mc.paths)
                 && (p in mc.paths ==> s2.sh.infos[p] == RepoInfo(Pending, false, false, 0, 0))
  {
  }

  // ---------------------------------------------------------------- joining

  /**
   * After a join: in the first cycle, if asked, exactly the entries that are
   * neither SKIPPED nor ERROR nor NOT_GIT become first-validated; the list keeps
   * its paths and changes its order only when sorting by time is on; a single
   * run ends.
   */
  lemma AfterJoinExactly(s: State, mc: MainChoice, p: Path)
    requires s.main.AfterJoin?
    ensures var s2 := Apply(s, MainStep(mc));
            && (p in s2.firstValidated <==>
                  || p in s.firstValidated
                  || (s.firstCycle && s.lo.keepFirst && p in s.sh.infos && s.sh.infos[p].status != Skipped
                      && s.sh.infos[p].status != Error && s.sh.infos[p].status != NotGit))
            && !s2.firstCycle && multiset(s2.all) == multiset(s.all) && (!s.lo.sortUpdated ==> s2.all == s.all)
            && (s2.sh.running <==> s.sh.running && !s.lo.singleRun)
            && s2.sh.infos == s.sh.infos && s2.main == LaunchTest
  {
  }

  /** A scan thread is joined exactly when it has cleared `scanning` and has not been joined yet. */
  lemma JoinsExactlyWhenOver(states: seq<State>, steps: seq<Step>, j: nat)
    requires IsRun(states, steps) && j < |steps| && states[j].main.JoinTest? && steps[j].MainStep?
    ensures states[j + 1].main.Joining? <==> !states[j].scanning && states[j].handle.Some?
    ensures !states[j + 1].main.Joining? ==> states[j + 1].main.LaunchTest?
  {
    StepOf(states, steps, j + 1);
  }

  /** `scanning` goes on just before a launch, and off exactly when all workers of the scan have exited. */
  lemma ScanningExactly(s: State, st: Step)
    requires SysInv(s) && Enabled(s, st)
    ensures !s.scanning ==> (Apply(s, st).scanning <==> st.MainStep? && s.main.SetScanning?)
    ensures s.scanning ==>
              (!Apply(s, st).scanning <==> st.ThreadStep? && s.threads[st.t].phase == Working && AllExited(s.threads[st.t])
                                           && !CanStep(s.all, s.threads[st.t], st.w))
  {
  }

  // ---------------------------------------------------------------- ending

  /** The worker's step ends the run: the memory limit, or an exception nobody in process_repo catches. */
  predicate WorkerStops(s: State, st: Step)
    requires IsWork(s, st)
  {
    var sc := s.threads[st.t];
    var pc := sc.workers[st.w];
    || (pc.AtMemory? && st.ch.overMemory)
    || (pc.AtJudge? && RepoLaws.Throws(s.all[pc.i] in s.sh.skip, sc.o, st.ch.probe))
    || (pc.AtPull? && pc.ticks == 0 && st.ch.probe.finishing == OtherError)
  }

  /** The main loop's step ends the run. */
  predicate MainStops(s: State, mc: MainChoice) {
    || (s.main.TimeoutTest? && s.scanning && mc.timedOut)
    || (s.main.PauseTest? && !(mc.longPause && s.lo.killOnSleep) && mc.runtimeOver)
    || (s.main.AfterJoin? && s.lo.singleRun)
    || s.main.Exiting?
  }

  lemma WorkerStopsExactly(s: State, st: Step)
    requires IsWork(s, st) && s.sh.running
    ensures !WorkerStep(s.all, s.sh, s.threads[st.t], st.w, st.ch).sh.running <==> WorkerStops(s, st)
  {
    var sc := s.threads[st.t];
    var pc := sc.workers[st.w];
    if pc.AtJudge? {
      RepoLaws.VerdictExactly(s.all[pc.i] in s.sh.skip, s.all[pc.i], pc.prev, sc.o, st.ch.probe, Error);
      JudgeStops(s.all, s.sh, sc, st.w, st.ch);
    } else if pc.AtPull? && pc.ticks == 0 {
      PullStops(s.all, s.sh, sc, st.w, st.ch);
    } else {
      OthersStop(s.all, s.sh, sc, st.w, st.ch);
    }
  }

  lemma JudgeStops(all: seq<Path>, sh: Shared, sc: Scan, w: nat, ch: Choice)
    requires CanStep(all, sc, w) && sc.workers[w].AtJudge? && sh.running
    ensures var p := all[sc.workers[w].i];
            !WorkerStep(all, sh, sc, w, ch).sh.running <==> Judge(p in sh.skip, p, sc.workers[w].prev, sc.o, ch.probe).Thrown?
  {
  }

  lemma PullStops(all: seq<Path>, sh: Shared, sc: Scan, w: nat, ch: Choice)
    requires CanStep(all, sc, w) && sc.workers[w].AtPull? && sc.workers[w].ticks == 0 && sh.running
    ensures !WorkerStep(all, sh, sc, w, ch).sh.running <==> ch.probe.finishing == OtherError
  {
    PullEffect(sh, all[sc.workers[w].i], sc.o, ch.probe);
  }

  lemma OthersStop(all: seq<Path>, sh: Shared, sc: Scan, w: nat, ch: Choice)
    requires CanStep(all, sc, w) && !sc.workers[w].AtJudge? && sh.running
    requires !(sc.workers[w].AtPull? && sc.workers[w].ticks == 0)
    ensures !WorkerStep(all, sh, sc, w, ch).sh.running <==> sc.workers[w].AtMemory? && ch.overMemory
  {
  }

  lemma PlainStops(s: State, mc: MainChoice)
    requires Plain(s.main) && s.sh.running
    ensures !PlainTurn(s, mc).running <==> MainStops(s, mc)
  {
  }

  lemma TablesKeepRunning(s: State, mc: MainChoice)
    requires s.main.Reload? || s.main.Rescan? || s.main.Calm?
    ensures MainApply(s, mc).sh.running == s.sh.running
  {
  }

  lemma MainStopsExactly(s: State, mc: MainChoice)
    requires Enabled(s, MainStep(mc)) && s.sh.running
    ensures !MainApply(s, mc).sh.running <==> MainStops(s, mc)
  {
    if Plain(s.main) {
      PlainStops(s, mc);
    } else if s.main.AfterJoin? {
      AfterJoinExactly(s, mc, "");
    } else if s.main.Reload? || s.main.Rescan? || s.main.Calm? {
      TablesKeepRunning(s, mc);
    } else if s.main.SetScanning? || s.main.Spawn? {
      LaunchFrame(s, mc);
    } else {
      JoinFrame(s, mc);
    }
  }

  /**
   * Everything that ends a run, and nothing else does: a signal, the polling
   * timeout during a scan, the runtime limit, a finished single run, leaving
   * the loop, the memory limit, and an exception that escapes process_repo.
   */
  lemma RunEndsExactly(s: State, st: Step)
    requires Enabled(s, st) && s.sh.running
    ensures !Apply(s, st).sh.running <==>
            match st
            case StopEvent => true
            case MainStep(mc) => MainStops(s, mc)
            case ThreadStep(_, _, _) => IsWork(s, st) && WorkerStops(s, st)
            case _ => false
  {
    match st
    case MainStep(mc) => MainStopsExactly(s, mc);
    case ThreadStep(_, _, _) => if IsWork(s, st) { WorkerStopsExactly(s, st); }
    case _ =>
  }
}
