/**
 * The engine goes on: the main loop waits only where it joins a thread, and
 * that thread can always step; every turn comes round; and once `running` is
 * off the loop returns after a bounded number of its own steps.
 */
module LoopProgress {
  import opened Basics
  import opened RepoScan
  import opened ScanPool
  import opened PoolRuns
  import opened EventLoop
  import opened LoopSafety
  import opened LoopRuns
  import opened LoopTurns

  // ---------------------------------------------------------------- nobody waits forever

  /** Some step of this thread is possible. */
  ghost predicate CanGo(s: State, t: nat, ch: Choice) {
    exists w: nat :: Enabled(s, ThreadStep(t, w, ch))
  }

  lemma ThreadCanGo(s: State, t: nat, ch: Choice)
    requires SysInv(s) && t in s.threads && s.threads[t].phase != Ended
    ensures CanGo(s, t, ch)
  {
    var sc := s.threads[t];
    if sc.phase == Working && !AllExited(sc) {
      assert Active(sc) && s.scan == Some(t);
      NeverStuck(s.all, s.sh, sc);
      var w: nat :| CanStep(s.all, sc, w);
      assert Enabled(s, ThreadStep(t, w, ch));
    } else {
      assert Enabled(s, ThreadStep(t, 0, ch));
    }
  }

  predicate Joins(pc: MainPc) { pc.Joining? || pc.Assign? || pc.LastJoin? }

  /** Until it has returned, the main loop can step unless it joins a thread, which can step itself. */
  lemma OnlyJoinsWait(states: seq<State>, steps: seq<Step>, k: nat, mc: MainChoice, ch: Choice)
    requires IsRun(states, steps) && k < |states| && !states[k].main.Stopped?
    requires states[k].main.Rescan? ==> forall p :: p in mc.validated <==> p in states[k].firstValidated
    ensures Enabled(states[k], MainStep(mc)) ||
            (Joins(states[k].main) && states[k].handle.Some? && CanGo(states[k], states[k].handle.value, ch))
  {
    RunInv(states, steps, k);
    var s := states[k];
    if !Enabled(s, MainStep(mc)) {
      ThreadCanGo(s, s.handle.value, ch);
    }
  }

  function PhaseLeft(phase: Phase): nat {
    match phase
    case Resetting => 3
    case Working => 2
    case Tail => 1
    case Ended => 0
  }

  /** A thread's step brings it to a later phase, or is a step of its pool, which goes down as well. */
  lemma ThreadGoesOn(s: State, t: nat, w: nat, ch: Choice)
    requires Enabled(s, ThreadStep(t, w, ch))
    ensures t in ThreadApply(s, t, w, ch).threads
    ensures var sc, sc2 := s.threads[t], ThreadApply(s, t, w, ch).threads[t];
            || PhaseLeft(sc2.phase) < PhaseLeft(sc.phase)
            || Unclaimable(s.all, sc2) < Unclaimable(s.all, sc)
            || (Unclaimable(s.all, sc2) == Unclaimable(s.all, sc) &&
                (TotalRank(sc2.workers) < TotalRank(sc.workers) ||
                 (TotalRank(sc2.workers) == TotalRank(sc.workers) && TotalTicks(sc2.workers) < TotalTicks(sc.workers))))
  {
    var sc := s.threads[t];
    if sc.phase == Working && CanStep(s.all, sc, w) {
      StepsDescend(s.all, s.sh, sc, w, ch);
    }
  }

  // ---------------------------------------------------------------- the turns of the main loop

  /** An upper bound on the main loop's steps before it is back at the top or has returned. */
  function TurnLeft(pc: MainPc): nat {
    match pc
    case Top => 17
    case ReloadTest => 16
    case Reload => 15
    case TimeoutTest => 14
    case PauseTest => 13
    case JoinTest => 12
    case Joining => 11
    case AfterJoin => 10
    case LaunchTest => 9
    case Rescan => 8
    case Calm => 7
    case SetScanning => 6
    case Spawn => 5
    case Assign(_) => 4
    case Bottom => 3
    case Exiting => 2
    case LastJoin => 1
    case Stopped => 0
  }

  /** The same before it has returned, once `running` is off. */
  function StopLeft(pc: MainPc): nat {
    if pc.Top? then 3 else if TurnLeft(pc) >= 3 then TurnLeft(pc) + 1 else TurnLeft(pc)
  }

  predicate GoesOn(pc: MainPc, next: MainPc, running: bool) {
    && (if pc.Bottom? then next.Top? else TurnLeft(next) < TurnLeft(pc))
    && (!running ==> StopLeft(next) < StopLeft(pc))
  }

  lemma PlainGoesOn(s: State, mc: MainChoice)
    requires Plain(s.main)
    ensures GoesOn(s.main, PlainTurn(s, mc).pc, s.sh.running)
  {
  }

  /** Where the main loop goes from the other program counters. */
  lemma OthersGoOn(s: State, mc: MainChoice)
    requires !Plain(s.main) && !s.main.Stopped?
    ensures MainApply(s, mc).main ==
            match s.main
            case Reload => TimeoutTest
            case Joining => AfterJoin
            case AfterJoin => LaunchTest
            case Rescan => Calm
            case Calm => SetScanning
            case SetScanning => Spawn
            case Spawn => Assign(s.nextId)
            case Assign(_) => Bottom
            case _ => MainPc.Stopped
  {
  }

  lemma MainGoesOn(s: State, mc: MainChoice)
    requires Enabled(s, MainStep(mc))
    ensures GoesOn(s.main, Apply(s, MainStep(mc)).main, s.sh.running)
  {
    if Plain(s.main) { PlainGoesOn(s, mc); } else { OthersGoOn(s, mc); }
  }

  lemma OthersKeepMain(s: State, st: Step)
    requires Enabled(s, st) && !st.MainStep?
    ensures Apply(s, st).main == s.main
  {
    if st.ThreadStep? { ThreadKeepsMain(s, st.t, st.w, st.ch); }
  }

  /** One step of a run, as far as the main loop's program counter is concerned. */
  lemma RunGoesOn(states: seq<State>, steps: seq<Step>, k: nat)
    requires IsRun(states, steps) && 0 < k < |states|
    ensures |states| == |steps| + 1
    ensures if steps[k - 1].MainStep? then GoesOn(states[k - 1].main, states[k].main, states[k - 1].sh.running)
            else states[k].main == states[k - 1].main
  {
    StepOf(states, steps, k);
    var s, st := states[k - 1], steps[k - 1];
    if st.MainStep? { MainGoesOn(s, st.mc); } else { OthersKeepMain(s, st); }
  }

  function MainSteps(steps: seq<Step>, j: nat, k: nat): nat
    requires j <= k <= |steps|
  {
    if j == k then 0 else MainSteps(steps, j, k - 1) + if steps[k - 1].MainStep? then 1 else 0
  }

  /** The main loop comes back to its top, or returns, within 17 of its own steps. */
  lemma {:induction false} TurnComesRound(states: seq<State>, steps: seq<Step>, j: nat, k: nat)
    requires IsRun(states, steps) && j <= k < |states|
    requires forall m :: j < m <= k ==> !states[m].main.Top?
    ensures |states| == |steps| + 1
    ensures MainSteps(steps, j, k) + TurnLeft(states[k].main) <= TurnLeft(states[j].main) <= 17
  {
    if j < k {
      TurnComesRound(states, steps, j, k - 1);
      RunGoesOn(states, steps, k);
    }
  }

  /** Once `running` is off the main loop takes at most 17 more steps, and has returned after the last. */
  lemma {:induction false} StopEndsLoop(states: seq<State>, steps: seq<Step>, j: nat, k: nat)
    requires IsRun(states, steps) && j <= k < |states| && !states[j].sh.running
    ensures |states| == |steps| + 1
    ensures MainSteps(steps, j, k) + StopLeft(states[k].main) <= StopLeft(states[j].main) <= 17
    ensures StopLeft(states[k].main) == 0 <==> states[k].main.Stopped?
  {
    if j < k {
      StopEndsLoop(states, steps, j, k - 1);
      StopIsFinal(states, steps, j, k - 1);
      RunGoesOn(states, steps, k);
    }
  }
}
