/**
 * The scheduler of src/ui_loop.cpp (run_event_loop, prepare_repos): a main loop
 * that reloads, rescans, sorts and launches scan threads, interleaved with
 * those threads, the signal handler, the configuration watcher and the user.
 */
module EventLoop {
  import opened Basics
  import opened GitPull
  import opened RepoScan
  import opened ScanPool
  import opened PoolRuns

  // ---------------------------------------------------------------- the repository table

  function FreshInfos(paths: seq<Path>): map<Path, RepoInfo> {
    map p | p in paths :: FRESH
  }

  /** `push_back` of every path not found yet, in order. */
  function AppendMissing(all: seq<Path>, more: seq<Path>): (r: seq<Path>)
    ensures forall p :: p in r <==> p in all || p in more
    decreases |more|
  {
    if more == [] then all
    else AppendMissing(if more[0] in all then all else all + [more[0]], more[1..])
  }

  lemma {:induction false} AppendMissingDistinct(all: seq<Path>, more: seq<Path>)
    ensures Distinct(AppendMissing(all, more)) <==> Distinct(all)
    ensures all <= AppendMissing(all, more)
    decreases |more|
  {
    if more != [] {
      var all' := if more[0] in all then all else all + [more[0]];
      AppendMissingDistinct(all', more[1..]);
      if Distinct(all) && more[0] !in all {
        forall i, j | 0 <= i < j < |all'| ensures all'[i] != all'[j] {
          if j == |all| { assert all'[i] == all[i] && all[i] in all; }
        }
      }
      if Distinct(all') {
        forall i, j | 0 <= i < j < |all| ensures all[i] != all[j] {
          assert all[i] == all'[i] && all[j] == all'[j];
        }
      }
    }
  }

  function AddFresh(infos: map<Path, RepoInfo>, paths: seq<Path>): map<Path, RepoInfo> {
    map p | p in infos.Keys + (set q | q in paths) :: if p in infos then infos[p] else FRESH
  }

  function CalmInfos(infos: map<Path, RepoInfo>): map<Path, RepoInfo> {
    map p | p in infos :: if Busy(infos[p].status) then infos[p].(status := Pending) else infos[p]
  }

  /** The two containers the main thread rebuilds, with its loops over them. */
  class RepoTable {
    var allRepos: seq<Path>
    var repoInfos: map<Path, RepoInfo>

    constructor ()
      ensures allRepos == [] && repoInfos == map[]
    {
      allRepos, repoInfos := [], map[];
    }

    method PrepareRepos(paths: seq<Path>)
      modifies this
      ensures allRepos == paths && repoInfos == old(repoInfos) + FreshInfos(paths)
    {
      allRepos := paths;
      for i := 0 to |paths|
        invariant allRepos == paths
        invariant repoInfos == old(repoInfos) + FreshInfos(paths[..i])
      {
        assert paths[..i + 1] == paths[..i] + [paths[i]];
        assert FreshInfos(paths[..i + 1]) == FreshInfos(paths[..i])[paths[i] := FRESH];
        repoInfos := repoInfos[paths[i] := FRESH];
      }
      assert paths[..|paths|] == paths;
    }

    /** The rescan: new paths get a fresh entry, and join the list unless they are on it. */
    method AddNew(paths: seq<Path>)
      modifies this
      ensures repoInfos == AddFresh(old(repoInfos), paths)
      ensures allRepos == AppendMissing(old(allRepos), paths)
    {
      for i := 0 to |paths|
        invariant allRepos == old(allRepos)
        invariant repoInfos == AddFresh(old(repoInfos), paths[..i])
      {
        assert paths[..i + 1] == paths[..i] + [paths[i]];
        assert AddFresh(old(repoInfos), paths[..i + 1]) ==
               if paths[i] in repoInfos then repoInfos else repoInfos[paths[i] := FRESH];
        if paths[i] !in repoInfos {
          repoInfos := repoInfos[paths[i] := FRESH];
        }
      }
      assert paths[..|paths|] == paths;
      for i := 0 to |paths|
        invariant repoInfos == AddFresh(old(repoInfos), paths)
        invariant AppendMissing(allRepos, paths[i..]) == AppendMissing(old(allRepos), paths)
      {
        if paths[i] !in allRepos {
          allRepos := allRepos + [paths[i]];
        }
      }
    }

    /** The loop that clears a stale busy state before a launch. */
    method ClearBusy()
      modifies this`repoInfos
      ensures repoInfos == CalmInfos(old(repoInfos))
    {
      var todo := repoInfos.Keys;
      ghost var before := repoInfos;
      while todo != {}
        invariant todo <= before.Keys && repoInfos.Keys == before.Keys
        invariant forall p :: p in todo ==> repoInfos[p] == before[p]
        invariant forall p :: p in before && p !in todo ==> repoInfos[p] == CalmInfos(before)[p]
        decreases todo
      {
        var p :| p in todo;
        if repoInfos[p].status == Pulling || repoInfos[p].status == Checking {
          repoInfos := repoInfos[p := repoInfos[p].(status := Pending)];
        }
        todo := todo - {p};
      }
    }
  }

  // ---------------------------------------------------------------- the system

  datatype LoopOptions = LoopOptions(
    scan: ScanOptions, autoReload: bool, rescanNew: bool, keepFirst: bool, singleRun: bool, sortUpdated: bool,
    killOnSleep: bool)

  datatype MainPc =
    | Top             // while (running)
    | ReloadTest      // config_changed.exchange(false)
    | Reload
    | TimeoutTest
    | PauseTest
    | JoinTest        // !scanning && joinable
    | Joining
    | AfterJoin
    | LaunchTest      // running && due && !scanning
    | Rescan
    | Calm            // clear stale busy states
    | SetScanning
    | Spawn
    | Assign(id: nat) // the move assignment joins the previous thread
    | Bottom
    | Exiting
    | LastJoin
    | Stopped

  datatype State = State(
    all: seq<Path>,
    sh: Shared,
    scanning: bool,
    lo: LoopOptions,
    main: MainPc,
    threads: map<nat, Scan>,
    handle: Option<nat>,        // scan_thread, when joinable
    nextId: nat,
    configChanged: bool,
    firstValidated: set<Path>,
    firstCycle: bool,
    missed: bool,               // a repo_infos.at has thrown
    scan: Option<nat>)          // the thread launched last, until it clears `scanning`

  /** What clocks, the file system and the parser decide for one step of the main loop. */
  datatype MainChoice = MainChoice(
    paths: seq<Path>, order: seq<Path>, validated: seq<Path>, lo: LoopOptions, parseFails: bool,
    timedOut: bool, longPause: bool, runtimeOver: bool, due: bool, rescanDue: bool)

  datatype Step =
    | MainStep(mc: MainChoice)
    | ThreadStep(t: nat, w: nat, ch: Choice)
    | ConfigEvent
    | StopEvent                          // a signal or the quit key
    | UserEdit(p: Path, tree: Tree)      // somebody else works in the checkout

  predicate Active(sc: Scan) { sc.phase == Resetting || sc.phase == Working }

  function Reordered(s: seq<Path>, order: seq<Path>): seq<Path> {
    if multiset(order) == multiset(s) then order else s
  }

  predicate Ended_(s: State, h: Option<nat>) {
    h.None? || (h.value in s.threads && s.threads[h.value].phase == Ended)
  }

  ghost predicate Enabled(s: State, st: Step) {
    match st
    case MainStep(mc) =>
      (match s.main
       case Joining => Ended_(s, s.handle)
       case Assign(_) => Ended_(s, s.handle)
       case LastJoin => Ended_(s, s.handle)
       case Stopped => false
       case Rescan => forall p :: p in mc.validated <==> p in s.firstValidated
       case _ => true)
    case ThreadStep(t, w, _) =>
      && t in s.threads
      && (match s.threads[t].phase
          case Working => CanStep(s.all, s.threads[t], w) || AllExited(s.threads[t])
          case Ended => false
          case _ => true)
    case _ => true
  }

  /** Where a step goes that at most turns `running` off and takes note of a configuration change. */
  datatype Turn = Turn(running: bool, pc: MainPc, configChanged: bool)

  predicate Plain(pc: MainPc) {
    || pc.Top? || pc.ReloadTest? || pc.TimeoutTest? || pc.PauseTest? || pc.JoinTest? || pc.LaunchTest? || pc.Bottom?
    || pc.Exiting?
  }

  function PlainTurn(s: State, mc: MainChoice): Turn
    requires Plain(s.main)
  {
    var run := s.sh.running;
    match s.main
    case Top => Turn(run, if run then ReloadTest else Exiting, s.configChanged)
    case ReloadTest =>
      Turn(run, if s.configChanged && s.lo.autoReload && !s.scanning then Reload else TimeoutTest, false)
    case TimeoutTest =>
      if s.scanning && mc.timedOut then Turn(false, Exiting, s.configChanged)
      else Turn(run, PauseTest, s.configChanged)
    case PauseTest =>
      if mc.longPause && s.lo.killOnSleep then Turn(run, Exiting, s.configChanged)
      else Turn(run && !mc.runtimeOver, JoinTest, s.configChanged)
    case JoinTest => Turn(run, if !s.scanning && s.handle.Some? then Joining else LaunchTest, s.configChanged)
    case LaunchTest =>
      Turn(run, if run && mc.due && !s.scanning then if s.lo.rescanNew && mc.rescanDue then Rescan else Calm else Bottom,
           s.configChanged)
    case Bottom => Turn(run, Top, s.configChanged)
    case Exiting => Turn(false, if s.handle.Some? then LastJoin else Stopped, s.configChanged)
  }

  function PlainApply(s: State, turn: Turn): State {
    s.(sh := s.sh.(running := turn.running), main := turn.pc, configChanged := turn.configChanged)
  }

  ghost function MainApply(s: State, mc: MainChoice): State {
    if Plain(s.main) then PlainApply(s, PlainTurn(s, mc))
    else
      match s.main
      case Reload => if mc.parseFails then s.(main := TimeoutTest) else ReloadApply(s, mc)
      case Joining => s.(handle := None, main := AfterJoin)
      case AfterJoin => AfterJoinApply(s, mc)
      case Rescan => RescanApply(s, mc)
      case Calm => s.(sh := s.sh.(infos := CalmInfos(s.sh.infos)), main := SetScanning)
      case SetScanning => s.(scanning := true, main := Spawn)
      case Spawn =>
        s.(threads := s.threads[s.nextId := Scan(s.lo.scan, Resetting, 0, [], [], {})],
           scan := Some(s.nextId), nextId := s.nextId + 1, main := Assign(s.nextId))
      case Assign(id) => s.(handle := Some(id), main := Bottom)
      case LastJoin => s.(handle := None, main := Stopped)
      case Stopped => s
  }

  function ReloadApply(s: State, mc: MainChoice): State {
    s.(lo := mc.lo, all := mc.paths,
       sh := s.sh.(infos := FreshInfos(mc.paths), skip := {}, hist := map[], pulledOk := {}, updated := multiset{}),
       firstValidated := {}, firstCycle := true, main := TimeoutTest)
  }

  ghost function AfterJoinApply(s: State, mc: MainChoice): State {
    s.(firstValidated :=
         if s.firstCycle && s.lo.keepFirst then
           s.firstValidated + set p | p in s.sh.infos && s.sh.infos[p].status !in {Skipped, Error, NotGit}
         else s.firstValidated,
       firstCycle := false,
       missed := s.missed || (s.lo.sortUpdated && exists p :: p in s.all && p !in s.sh.infos),
       all := if s.lo.sortUpdated then Reordered(s.all, mc.order) else s.all,
       sh := s.sh.(running := s.sh.running && !s.lo.singleRun),
       main := LaunchTest)
  }

  function RescanApply(s: State, mc: MainChoice): State {
    var found := if s.lo.keepFirst then AppendMissing(mc.paths, mc.validated) else mc.paths;
    s.(sh := s.sh.(infos := AddFresh(s.sh.infos, found)),
       all := Reordered(AppendMissing(s.all, found), mc.order),
       main := Calm)
  }

  ghost function ThreadApply(s: State, t: nat, w: nat, ch: Choice): State
    requires Enabled(s, ThreadStep(t, w, ch))
  {
    var sc := s.threads[t];
    match sc.phase
    case Resetting =>
      var n := Started(s.all, s.sh, sc.o);
      s.(sh := n.sh, threads := s.threads[t := n.sc])
    case Working =>
      if CanStep(s.all, sc, w) then
        var n := WorkerStep(s.all, s.sh, sc, w, ch);
        s.(sh := n.sh, threads := s.threads[t := n.sc])
      else
        s.(scanning := false, threads := s.threads[t := sc.(phase := Tail)],
           scan := if s.scan == Some(t) then None else s.scan)
    case Tail => s.(threads := s.threads[t := sc.(phase := Ended)])
    case Ended => s
  }

  ghost function Apply(s: State, st: Step): State
    requires Enabled(s, st)
  {
    match st
    case MainStep(mc) => MainApply(s, mc)
    case ThreadStep(t, w, ch) => ThreadApply(s, t, w, ch)
    case ConfigEvent => s.(configChanged := true)
    case StopEvent => s.(sh := s.sh.(running := false))
    case UserEdit(p, tree) => s.(sh := s.sh.(trees := s.sh.trees[p := tree]))
  }

  /** The loop has just been entered: the table is filled and nothing has happened yet. */
  ghost predicate Init(s: State) {
    && (forall p :: p in s.all ==> p in s.sh.infos)
    && (forall p :: p in s.sh.infos ==> s.sh.infos[p] == FRESH)
    && s.sh.running && s.sh.skip == {} && s.sh.updated == multiset{} && s.sh.pulledOk == {} && s.sh.crashed == {}
    && !s.scanning && s.main.Top? && s.threads == map[] && s.handle.None? && s.scan.None? && !s.missed
  }

  // ---------------------------------------------------------------- the invariant

  /** The main loop has seen `!scanning` and relies on it. */
  predicate RelyOnQuiet(pc: MainPc) {
    pc.Reload? || pc.Joining? || pc.AfterJoin? || pc.Rescan? || pc.Calm? || pc.SetScanning?
  }

  predicate Launching(pc: MainPc) {
    pc.Rescan? || pc.Calm? || pc.SetScanning? || pc.Spawn?
  }

  /** At most one thread is between its launch and its clearing of `scanning`. */
  ghost predicate ThreadsInv(s: State) {
    && (forall t :: t in s.threads ==> t < s.nextId)
    && (forall t :: t in s.threads ==> (Active(s.threads[t]) <==> s.scan == Some(t)))
    && (s.scan.Some? ==> s.scan.value in s.threads)
    && (s.scanning <==> s.main.Spawn? || s.scan.Some?)
    && (s.main.Spawn? ==> s.scan.None?)
    && (RelyOnQuiet(s.main) ==> !s.scanning)
  }

  /** Every thread that has not ended is joinable through scan_thread, or is about to be. */
  ghost predicate HandleInv(s: State) {
    && (s.handle.Some? ==> s.handle.value in s.threads)
    && (s.main.Assign? ==> s.main.id in s.threads)
    && (forall t :: t in s.threads && s.threads[t].phase != Ended ==>
          s.handle == Some(t) || (s.main.Assign? && s.main.id == t))
    && (s.main.Stopped? ==> s.handle.None?)
  }

  ghost predicate ScanInv(s: State) {
    && (forall p :: p in s.all ==> p in s.sh.infos)
    && (forall p :: p !in s.sh.infos ==> p !in s.sh.pulledOk && s.sh.updated[p] == 0)
    && (s.sh.crashed != {} ==> !s.sh.running)
    && (Launching(s.main) ==> s.sh.crashed == {})
    && (s.scan.None? ==> Distinct(s.all) ==> AllQuiet(s.lo.scan, s.sh))
    && (s.scan.Some? && s.scan.value in s.threads ==> ActiveInv(s, s.threads[s.scan.value]))
  }

  ghost predicate ActiveInv(s: State, sc: Scan) {
    && sc.o == s.lo.scan
    && (sc.phase == Resetting ==> s.sh.crashed == {} && (Distinct(s.all) ==> AllQuiet(s.lo.scan, s.sh)))
    && (sc.phase == Working ==> PoolInv(s.all, s.sh, sc) && |sc.workers| == WorkerCount(s.all, sc.o))
  }

  ghost predicate SysInv(s: State) {
    ThreadsInv(s) && HandleInv(s) && ScanInv(s) && !s.missed
  }
}
