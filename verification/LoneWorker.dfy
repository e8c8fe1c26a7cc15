/**
 * One worker that nobody disturbs: its atomic steps of ScanPool compute exactly
 * what process_repo computes as a whole.
 */
module LoneWorker {
  import opened Basics
  import opened GitPull
  import opened RepoScan
  import opened ScanPool
  import opened PoolRuns

  /** The worker is inside process_repo. */
  predicate Inside(pc: Pc) {
    Holds(pc) && !pc.AtSkip? && !pc.AtOptions? && !pc.AtMemory?
  }

  /**
   * What the world answers during one process_repo: the probes, and how many
   * progress callbacks the pull makes with which percentages, counted from the
   * last one. try_pull calls back at least once, and its last call says 100
   * (src/git_utils.cpp:571-576).
   */
  datatype Answers = Answers(probe: Probe, ticks: nat, pct: nat -> int)

  predicate Sound(a: Answers) { a.ticks > 0 && a.pct(1) == 100 }

  function ChoiceAt(a: Answers, pc: Pc): Choice { Choice(a.probe, a.ticks, a.pct(TicksLeft(pc)), false) }

  /** Runs worker w until it has left process_repo. */
  function RunAlone(all: seq<Path>, n: Next, w: nat, a: Answers): (r: Next)
    requires w < |n.sc.workers| && PcOk(all, n.sc.o, n.sc.workers[w]) && n.sc.phase == Working
    ensures |r.sc.workers| == |n.sc.workers| && !Inside(r.sc.workers[w])
    decreases StageRank(n.sc.workers[w]), TicksLeft(n.sc.workers[w])
  {
    if !Inside(n.sc.workers[w]) then n
    else
      StepInside(all, n, w, ChoiceAt(a, n.sc.workers[w]));
      RunAlone(all, WorkerStep(all, n.sh, n.sc, w, ChoiceAt(a, n.sc.workers[w])), w, a)
  }

  lemma StepInside(all: seq<Path>, n: Next, w: nat, ch: Choice)
    requires CanStep(all, n.sc, w) && Inside(n.sc.workers[w]) && PcOk(all, n.sc.o, n.sc.workers[w])
    ensures var n2 := WorkerStep(all, n.sh, n.sc, w, ch);
            && |n2.sc.workers| == |n.sc.workers| && n2.sc.phase == Working && n2.sc.o == n.sc.o
            && var pc, pc2 := n.sc.workers[w], n2.sc.workers[w];
            && PcOk(all, n.sc.o, pc2) && (Inside(pc2) || pc2.AtMemory? || pc2.Exited?)
            && (Holds(pc2) ==> pc2.i == pc.i)
            && (StageRank(pc2) < StageRank(pc) || (StageRank(pc2) == StageRank(pc) && TicksLeft(pc2) < TicksLeft(pc)))
  {
    StepLowers(all, n.sh, n.sc, w, ch);
    PcStep(all, n.sh, n.sc, w, ch);
    StepFrame(all, n.sh, n.sc, w, ch);
  }

  /** The tables and the program counter a worker comes to. */
  datatype Halt = Halt(sh: Shared, pc: Pc)

  /** Where process_repo is left: normally before the memory test, or with an exception that the worker's handler caught. */
  function Left(done: Processed, p: Path, i: nat): Halt {
    if done.thrown then Halt(done.sh.(running := false, crashed := done.sh.crashed + {p}), Exited)
    else Halt(done.sh, AtMemory(i))
  }

  /** The rest of process_repo once a pull is concluded. */
  function Landed(pulled: Shared, p: Path, prev: Option<RepoInfo>, c: Conclusion, o: ScanOptions): Processed {
    if c.Broken? then Processed(MarkFatal(pulled, p, c.fatal), true)
    else Processed(Announce(Put(MarkFatal(pulled, p, c.fatal), p, c.info), p, prev, c.info, o), false)
  }

  /** The rest of process_repo from a published PULLING entry on, with a last progress callback still to come. */
  function Pulling(sh: Shared, p: Path, prev: Option<RepoInfo>, info: RepoInfo, o: ScanOptions, pr: Probe): Processed {
    Landed(SetProgress(AfterPull(sh, p, o, pr), p, 100), p, prev, PullConclusion(sh, p, prev, info, o, pr), o)
  }

  /** The same with the number of callbacks still to come. */
  function InPull(sh: Shared, p: Path, prev: Option<RepoInfo>, info: RepoInfo, ticks: nat, o: ScanOptions, pr: Probe): Processed {
    if ticks > 0 then Pulling(sh, p, prev, info, o, pr)
    else Landed(AfterPull(sh, p, o, pr), p, prev, PullConclusion(sh, p, prev, info, o, pr), o)
  }

  function Judged(sh: Shared, p: Path, prev: Option<RepoInfo>, v: Verdict, o: ScanOptions, pr: Probe): Processed {
    match v
    case Thrown => Processed(sh, true)
    case Publish(info, fatal) => Processed(Announce(Put(MarkFatal(sh, p, fatal), p, info), p, prev, info, o), false)
    case StartPull(info) => Pulling(Put(sh, p, info), p, prev, info, o, pr)
  }

  function Judging(sh: Shared, p: Path, prev: Option<RepoInfo>, o: ScanOptions, pr: Probe): Processed {
    Judged(sh, p, prev, Judge(p in sh.skip, p, prev, o, pr), o, pr)
  }

  /** Where a worker that stands at pc leaves process_repo, if nobody else steps. */
  function Outcome(all: seq<Path>, o: ScanOptions, sh: Shared, pc: Pc, pr: Probe): Halt
    requires PcOk(all, o, pc)
  {
    match pc
    case AtEnter(i) => Left(ProcessRepo(sh, all[i], o, pr), all[i], i)
    case AtEntry(i) =>
      if Blocked(Lookup(sh, all[i])) then Halt(sh, AtMemory(i))
      else Left(Judging(sh, all[i], Lookup(sh, all[i]), o, pr), all[i], i)
    case AtSnapshot(i) => Left(Judging(sh, all[i], Lookup(sh, all[i]), o, pr), all[i], i)
    case AtJudge(i, prev) => Left(Judging(sh, all[i], prev, o, pr), all[i], i)
    case AtStart(i, prev, info) => Left(Pulling(Put(sh, all[i], info), all[i], prev, info, o, pr), all[i], i)
    case AtPull(i, prev, info, ticks) => Left(InPull(sh, all[i], prev, info, ticks, o, pr), all[i], i)
    case AtStore(i, prev, info) => Halt(Announce(Put(sh, all[i], info), all[i], prev, info, o), AtMemory(i))
    case AtAnnounce(i, prev, info) => Halt(Announce(sh, all[i], prev, info, o), AtMemory(i))
    case _ => Halt(sh, pc)
  }

  lemma EnterIsJudging(sh: Shared, p: Path, o: ScanOptions, pr: Probe)
    requires sh.running && !Blocked(Lookup(sh, p))
    ensures ProcessRepo(sh, p, o, pr) == Judging(sh, p, Lookup(sh, p), o, pr)
  {
  }

  /** A callback and the pull touch different tables. */
  lemma TickAndPull(sh: Shared, p: Path, prev: Option<RepoInfo>, info: RepoInfo, pct: int, o: ScanOptions, pr: Probe)
    ensures AfterPull(SetProgress(sh, p, pct), p, o, pr) == SetProgress(AfterPull(sh, p, o, pr), p, pct)
    ensures PullConclusion(SetProgress(sh, p, pct), p, prev, info, o, pr) == PullConclusion(sh, p, prev, info, o, pr)
  {
    var ticked := SetProgress(sh, p, pct);
    assert TreeOf(ticked, p) == TreeOf(sh, p);
    assert PullOf(ticked, p, o, pr) == PullOf(sh, p, o, pr);
  }

  lemma LastProgressCounts(sh: Shared, p: Path, pct: int, last: int)
    ensures SetProgress(SetProgress(sh, p, pct), p, last) == SetProgress(sh, p, last)
  {
    var info := if p in sh.infos then sh.infos[p] else FRESH;
    assert sh.infos[p := info.(progress := pct)][p := info.(progress := last)] == sh.infos[p := info.(progress := last)];
  }

  /** No callback but the last leaves a trace. */
  lemma TickIsOverwritten(sh: Shared, p: Path, prev: Option<RepoInfo>, info: RepoInfo, ticks: nat, pct: int, o: ScanOptions, pr: Probe)
    requires ticks > 0 && (ticks == 1 ==> pct == 100)
    ensures InPull(SetProgress(sh, p, pct), p, prev, info, ticks - 1, o, pr) == InPull(sh, p, prev, info, ticks, o, pr)
  {
    TickAndPull(sh, p, prev, info, pct, o, pr);
    LastProgressCounts(AfterPull(sh, p, o, pr), p, pct, 100);
  }

  function AfterVerdict(sh: Shared, p: Path, i: nat, prev: Option<RepoInfo>, v: Verdict): Halt {
    match v
    case Thrown => Halt(sh.(running := false, crashed := sh.crashed + {p}), Exited)
    case Publish(info, fatal) => Halt(MarkFatal(sh, p, fatal), AtStore(i, prev, info))
    case StartPull(info) => Halt(sh, AtStart(i, prev, info))
  }

  function AfterCode(pulled: Shared, p: Path, i: nat, prev: Option<RepoInfo>, c: Conclusion): Halt {
    var marked := MarkFatal(pulled, p, c.fatal);
    if c.Broken? then Halt(marked.(running := false, crashed := marked.crashed + {p}), Exited)
    else Halt(marked, AtStore(i, prev, c.info))
  }

  function HaltOf(all: seq<Path>, o: ScanOptions, sh: Shared, pc: Pc, ch: Choice): Halt
    requires PcOk(all, o, pc) && Inside(pc)
  {
    match pc
    case AtEnter(i) => Halt(sh, if sh.running then AtEntry(i) else AtMemory(i))
    case AtEntry(i) => Halt(sh, if Blocked(Lookup(sh, all[i])) then AtMemory(i) else AtSnapshot(i))
    case AtSnapshot(i) => Halt(sh, AtJudge(i, Lookup(sh, all[i])))
    case AtJudge(i, prev) =>
      AfterVerdict(sh, all[i], i, prev, Judge(all[i] in sh.skip, all[i], prev, o, ch.probe))
    case AtStart(i, prev, info) => Halt(Put(sh, all[i], info), AtPull(i, prev, info, ch.ticks))
    case AtPull(i, prev, info, ticks) =>
      if ticks > 0 then Halt(SetProgress(sh, all[i], ch.pct), AtPull(i, prev, info, ticks - 1))
      else
        AfterCode(AfterPull(sh, all[i], o, ch.probe), all[i], i, prev, PullConclusion(sh, all[i], prev, info, o, ch.probe))
    case AtStore(i, prev, info) => Halt(Put(sh, all[i], info), AtAnnounce(i, prev, info))
    case AtAnnounce(i, prev, info) => Halt(Announce(sh, all[i], prev, info, o), AtMemory(i))
  }

  lemma StepHalts(all: seq<Path>, n: Next, w: nat, ch: Choice)
    requires CanStep(all, n.sc, w) && PcOk(all, n.sc.o, n.sc.workers[w]) && Inside(n.sc.workers[w])
    ensures var n2 := WorkerStep(all, n.sh, n.sc, w, ch);
            var halt := HaltOf(all, n.sc.o, n.sh, n.sc.workers[w], ch);
            |n2.sc.workers| == |n.sc.workers| && n2.sh == halt.sh && n2.sc.workers[w] == halt.pc
  {
  }

  predicate LastSays100(pc: Pc, ch: Choice) { TicksLeft(pc) == 1 ==> ch.pct == 100 }

  /** The step from pc leads to a program counter with the same outcome. */
  ghost predicate SameOutcome(all: seq<Path>, o: ScanOptions, sh: Shared, pc: Pc, ch: Choice)
    requires PcOk(all, o, pc) && Inside(pc)
  {
    var halt := HaltOf(all, o, sh, pc, ch);
    PcOk(all, o, halt.pc) && Outcome(all, o, halt.sh, halt.pc, ch.probe) == Outcome(all, o, sh, pc, ch.probe)
  }

  lemma JudgeOutcome(all: seq<Path>, o: ScanOptions, sh: Shared, pc: Pc, ch: Choice)
    requires PcOk(all, o, pc) && pc.AtJudge?
    ensures SameOutcome(all, o, sh, pc, ch)
  {
    var v := Judge(all[pc.i] in sh.skip, all[pc.i], pc.prev, o, ch.probe);
    VerdictOutcome(all, o, sh, pc.i, pc.prev, v, ch.probe);
  }

  lemma VerdictOutcome(all: seq<Path>, o: ScanOptions, sh: Shared, i: nat, prev: Option<RepoInfo>, v: Verdict, pr: Probe)
    requires i < |all| && !Excluded(o, all[i]) && (v.StartPull? ==> MayPull(o, all[i]))
    ensures var halt := AfterVerdict(sh, all[i], i, prev, v);
            PcOk(all, o, halt.pc) &&
            Outcome(all, o, halt.sh, halt.pc, pr) == Left(Judged(sh, all[i], prev, v, o, pr), all[i], i)
  {
    match v
    case Thrown =>
    case Publish(info, fatal) => StoreOutcome(all, o, MarkFatal(sh, all[i], fatal), AtStore(i, prev, info), pr);
    case StartPull(info) => StartOutcome(all, o, sh, AtStart(i, prev, info), pr);
  }

  lemma StoreOutcome(all: seq<Path>, o: ScanOptions, sh: Shared, pc: Pc, pr: Probe)
    requires PcOk(all, o, pc) && pc.AtStore?
    ensures Outcome(all, o, sh, pc, pr) == Halt(Announce(Put(sh, all[pc.i], pc.info), all[pc.i], pc.prev, pc.info, o), AtMemory(pc.i))
  {
  }

  lemma StartOutcome(all: seq<Path>, o: ScanOptions, sh: Shared, pc: Pc, pr: Probe)
    requires PcOk(all, o, pc) && pc.AtStart?
    ensures Outcome(all, o, sh, pc, pr) == Left(Pulling(Put(sh, all[pc.i], pc.info), all[pc.i], pc.prev, pc.info, o, pr), all[pc.i], pc.i)
  {
  }

  lemma CodeOutcome(all: seq<Path>, o: ScanOptions, pulled: Shared, i: nat, prev: Option<RepoInfo>, c: Conclusion, pr: Probe)
    requires i < |all| && !Excluded(o, all[i])
    ensures var halt := AfterCode(pulled, all[i], i, prev, c);
            PcOk(all, o, halt.pc) &&
            Outcome(all, o, halt.sh, halt.pc, pr) == Left(Landed(pulled, all[i], prev, c, o), all[i], i)
  {
  }

  lemma CallbackOutcome(all: seq<Path>, o: ScanOptions, sh: Shared, pc: Pc, ch: Choice)
    requires PcOk(all, o, pc) && pc.AtPull? && LastSays100(pc, ch)
    ensures SameOutcome(all, o, sh, pc, ch)
  {
    var AtPull(i, prev, info, ticks) := pc;
    if ticks > 0 {
      TickIsOverwritten(sh, all[i], prev, info, ticks, ch.pct, o, ch.probe);
    } else {
      var c := PullConclusion(sh, all[i], prev, info, o, ch.probe);
      CodeOutcome(all, o, AfterPull(sh, all[i], o, ch.probe), i, prev, c, ch.probe);
    }
  }

  lemma EnterOutcome(all: seq<Path>, o: ScanOptions, sh: Shared, pc: Pc, ch: Choice)
    requires PcOk(all, o, pc) && pc.AtEnter?
    ensures SameOutcome(all, o, sh, pc, ch)
  {
    var p := all[pc.i];
    if sh.running && !Blocked(Lookup(sh, p)) { EnterIsJudging(sh, p, o, ch.probe); }
  }

  lemma LookOutcome(all: seq<Path>, o: ScanOptions, sh: Shared, pc: Pc, ch: Choice)
    requires PcOk(all, o, pc) && (pc.AtEntry? || pc.AtSnapshot?)
    ensures SameOutcome(all, o, sh, pc, ch)
  {
  }

  lemma WriteOutcome(all: seq<Path>, o: ScanOptions, sh: Shared, pc: Pc, ch: Choice)
    requires PcOk(all, o, pc) && (pc.AtStore? || pc.AtAnnounce?)
    ensures SameOutcome(all, o, sh, pc, ch)
  {
  }

  lemma CallbacksToCome(sh: Shared, p: Path, prev: Option<RepoInfo>, info: RepoInfo, ticks: nat, o: ScanOptions, pr: Probe)
    requires ticks > 0
    ensures InPull(sh, p, prev, info, ticks, o, pr) == Pulling(sh, p, prev, info, o, pr)
  {
  }

  lemma AtPullOutcome(all: seq<Path>, o: ScanOptions, sh: Shared, pc: Pc, pr: Probe)
    requires PcOk(all, o, pc) && pc.AtPull?
    ensures Outcome(all, o, sh, pc, pr) == Left(InPull(sh, all[pc.i], pc.prev, pc.info, pc.ticks, o, pr), all[pc.i], pc.i)
  {
  }

  lemma BegunOutcome(all: seq<Path>, o: ScanOptions, sh: Shared, pc: Pc, pr: Probe)
    requires PcOk(all, o, pc) && pc.AtPull? && pc.ticks > 0
    ensures Outcome(all, o, sh, pc, pr) == Left(Pulling(sh, all[pc.i], pc.prev, pc.info, o, pr), all[pc.i], pc.i)
  {
    CallbacksToCome(sh, all[pc.i], pc.prev, pc.info, pc.ticks, o, pr);
    AtPullOutcome(all, o, sh, pc, pr);
  }

  lemma BeginOutcome(all: seq<Path>, o: ScanOptions, sh: Shared, pc: Pc, ch: Choice)
    requires PcOk(all, o, pc) && pc.AtStart? && ch.ticks > 0
    ensures SameOutcome(all, o, sh, pc, ch)
  {
    StartOutcome(all, o, sh, pc, ch.probe);
    BegunOutcome(all, o, Put(sh, all[pc.i], pc.info), AtPull(pc.i, pc.prev, pc.info, ch.ticks), ch.probe);
  }

  /** A step inside process_repo does not change where it will end. */
  lemma OutcomeStays(all: seq<Path>, o: ScanOptions, sh: Shared, pc: Pc, ch: Choice)
    requires PcOk(all, o, pc) && Inside(pc) && ch.ticks > 0 && LastSays100(pc, ch)
    ensures SameOutcome(all, o, sh, pc, ch)
  {
    match pc
    case AtEnter(_) => EnterOutcome(all, o, sh, pc, ch);
    case AtJudge(_, _) => JudgeOutcome(all, o, sh, pc, ch);
    case AtPull(_, _, _, _) => CallbackOutcome(all, o, sh, pc, ch);
    case AtStart(_, _, _) => BeginOutcome(all, o, sh, pc, ch);
    case AtStore(_, _, _) => WriteOutcome(all, o, sh, pc, ch);
    case AtAnnounce(_, _, _) => WriteOutcome(all, o, sh, pc, ch);
    case _ => LookOutcome(all, o, sh, pc, ch);
  }

  /**
   * Undisturbed, the worker's steps from its entry into process_repo compute
   * exactly ProcessRepo; an exception that leaves it ends the worker.
   */
  lemma StepsRefineProcess(all: seq<Path>, sh: Shared, sc: Scan, w: nat, a: Answers)
    requires CanStep(all, sc, w) && PcOk(all, sc.o, sc.workers[w]) && sc.workers[w].AtEnter? && Sound(a)
    ensures var i := sc.workers[w].i;
            var r := RunAlone(all, Next(sh, sc), w, a);
            Halt(r.sh, r.sc.workers[w]) == Left(ProcessRepo(sh, all[i], sc.o, a.probe), all[i], i)
  {
    RunKeepsOutcome(all, Next(sh, sc), w, a);
  }

  lemma {:induction false} RunKeepsOutcome(all: seq<Path>, n: Next, w: nat, a: Answers)
    requires w < |n.sc.workers| && n.sc.phase == Working && PcOk(all, n.sc.o, n.sc.workers[w]) && Sound(a)
    requires Inside(n.sc.workers[w]) || n.sc.workers[w].AtMemory? || n.sc.workers[w].Exited?
    ensures var r := RunAlone(all, n, w, a);
            Halt(r.sh, r.sc.workers[w]) == Outcome(all, n.sc.o, n.sh, n.sc.workers[w], a.probe)
    decreases StageRank(n.sc.workers[w]), TicksLeft(n.sc.workers[w])
  {
    if Inside(n.sc.workers[w]) {
      var ch := ChoiceAt(a, n.sc.workers[w]);
      StepInside(all, n, w, ch);
      StepHalts(all, n, w, ch);
      OutcomeStays(all, n.sc.o, n.sh, n.sc.workers[w], ch);
      RunKeepsOutcome(all, WorkerStep(all, n.sh, n.sc, w, ch), w, a);
    }
  }
}
