/**
 * The asynchronous logger of src/logger.cpp: producers enqueue under the queue
 * mutex, one worker thread takes batches of at most 16 and writes them, and
 * init_logger and shutdown_logger (which exclude each other) stop and restart
 * that worker. Each step below is one critical section or one write.
 */
module LogQueue {
  import opened Basics

  type Message = string

  const BATCH := 16

  datatype Worker =
    | NoWorker              // never started, or joined
    | Waiting               // at the condition variable
    | Writing(done: nat)    // `done` messages of the batch are written
    | Finished              // the thread function has returned

  /** The thread inside init_logger or shutdown_logger, which hold g_init_mtx throughout. */
  datatype Admin = Idle | InitStop | InitJoin | InitOpen | ShutStop | ShutJoin | ShutDrain

  datatype State = State(
    queue: seq<Message>,
    batch: seq<Message>,
    running: bool,
    worker: Worker,
    admin: Admin,
    written: seq<Message>,      // handed to write_log_entry, in order
    kept: seq<Message>,         // accepted and not thrown away by a shutdown, in order
    discarded: seq<Message>,    // thrown away by shutdowns
    orphans: seq<Message>)      // accepted since the last moment a worker was alive

  datatype Step = Enqueue(m: Message) | WorkerStep | BeginInit | BeginShutdown | AdminStep

  predicate Alive(w: Worker) { w.Waiting? || w.Writing? }

  predicate Init(s: State) {
    s == State([], [], false, NoWorker, Idle, [], [], [], [])
  }

  predicate Enabled(s: State, st: Step) {
    match st
    case Enqueue(_) => true
    case WorkerStep => (s.worker.Waiting? && (s.queue != [] || !s.running)) || s.worker.Writing?
    case BeginInit => s.admin.Idle?
    case BeginShutdown => s.admin.Idle?
    case AdminStep => !s.admin.Idle? && (s.admin.InitJoin? || s.admin.ShutJoin? ==> !Alive(s.worker))
  }

  function WorkerApply(s: State): State {
    match s.worker
    case Waiting =>
      if !s.running && s.queue == [] then s.(worker := Finished, orphans := [])
      else
        var n := Min(BATCH, |s.queue|);
        s.(batch := s.queue[..n], queue := s.queue[n..], worker := Writing(0))
    case Writing(done) =>
      if done < |s.batch| then s.(written := s.written + [s.batch[done]], worker := Writing(done + 1))
      else s.(batch := [], worker := Waiting)
    case _ => s
  }

  function AdminApply(s: State): State {
    match s.admin
    case Idle => s
    case InitStop => s.(running := false, admin := InitJoin)
    case InitJoin => s.(worker := NoWorker, admin := InitOpen)
    case InitOpen => s.(running := true, worker := Waiting, orphans := [], admin := Idle)
    case ShutStop => s.(running := false, admin := ShutJoin)
    case ShutJoin => s.(worker := NoWorker, admin := ShutDrain)
    case ShutDrain =>
      s.(discarded := s.discarded + s.queue, kept := s.kept[..Drop(|s.kept|, |s.queue|)], queue := [],
         orphans := [], admin := Idle)
  }

  /** n - m, or 0. */
  function Drop(n: nat, m: nat): nat { if m <= n then n - m else 0 }

  function Apply(s: State, st: Step): State {
    match st
    case Enqueue(m) =>
      s.(queue := s.queue + [m], kept := s.kept + [m],
         orphans := if Alive(s.worker) then s.orphans else s.orphans + [m])
    case WorkerStep => WorkerApply(s)
    case BeginInit => s.(admin := InitStop)
    case BeginShutdown => s.(admin := ShutStop)
    case AdminStep => AdminApply(s)
  }

  /** Popped from the queue and not yet written. */
  function InFlight(s: State): seq<Message> {
    if s.worker.Writing? && s.worker.done <= |s.batch| then s.batch[s.worker.done..] else []
  }

  predicate Inv(s: State) {
    // nothing lost, duplicated or reordered
    && s.written + InFlight(s) + s.queue == s.kept
    && |s.batch| <= BATCH
    && (s.worker.Writing? ==> s.worker.done <= |s.batch|)
    && (!s.worker.Writing? ==> s.batch == [])
    // what waits while no worker is alive came after the last one had emptied the queue
    && (!Alive(s.worker) ==> s.queue == s.orphans)
    && (s.admin.InitOpen? || s.admin.ShutDrain? ==> s.worker.NoWorker?)
    && (Alive(s.worker) && !s.running ==> s.admin.InitJoin? || s.admin.ShutJoin?)
    && (s.running ==> Alive(s.worker))
    && (s.admin.InitJoin? || s.admin.ShutJoin? || s.admin.InitOpen? || s.admin.ShutDrain? ==> !s.running)
  }

  lemma TakeKeeps(s: State)
    requires Inv(s) && s.worker.Waiting? && (s.queue != [] || s.running)
    ensures Inv(WorkerApply(s))
  {
    var n := Min(BATCH, |s.queue|);
    assert s.queue == s.queue[..n] + s.queue[n..];
    assert (s.written + []) + (s.queue[..n] + s.queue[n..]) == (s.written + s.queue[..n]) + s.queue[n..];
  }

  lemma WriteKeeps(s: State)
    requires Inv(s) && s.worker.Writing?
    ensures Inv(WorkerApply(s))
  {
    if s.worker.done < |s.batch| {
      var rest := s.batch[s.worker.done + 1..];
      assert s.batch[s.worker.done..] == [s.batch[s.worker.done]] + rest;
      assert s.written + ([s.batch[s.worker.done]] + rest) == (s.written + [s.batch[s.worker.done]]) + rest;
    }
  }

  lemma DrainKeeps(s: State)
    requires Inv(s) && s.admin.ShutDrain?
    ensures Inv(AdminApply(s))
  {
    assert s.kept == s.written + s.queue;
    assert s.kept[..|s.kept| - |s.queue|] == s.written;
  }

  lemma StepKeeps(s: State, st: Step)
    requires Inv(s) && Enabled(s, st)
    ensures Inv(Apply(s, st))
  {
    match st
    case Enqueue(m) =>
      assert (s.written + InFlight(s)) + (s.queue + [m]) == (s.written + InFlight(s) + s.queue) + [m];
    case WorkerStep =>
      if s.worker.Writing? { WriteKeeps(s); }
      else if s.queue != [] || s.running { TakeKeeps(s); }
    case AdminStep =>
      if s.admin.ShutDrain? { DrainKeeps(s); }
    case _ =>
  }

  // ---------------------------------------------------------------- whole runs

  ghost predicate IsRun(states: seq<State>, steps: seq<Step>) {
    && |states| == |steps| + 1
    && Init(states[0])
    && forall k :: 0 <= k < |steps| ==> Enabled(states[k], steps[k]) && states[k + 1] == Apply(states[k], steps[k])
  }

  /**
   * In every interleaving of producers, worker, re-initialisation and
   * shutdown: what was written, then the batch in flight (at most 16), then
   * the queue are the accepted messages in order, less what shutdowns threw
   * away. A batch of fewer than 16 has emptied the queue.
   */
  lemma {:induction false} Conservation(states: seq<State>, steps: seq<Step>, k: nat)
    requires IsRun(states, steps) && k < |states|
    ensures Inv(states[k])
    ensures var s := states[k]; s.written + InFlight(s) + s.queue == s.kept && |InFlight(s)| <= 16
    ensures states[k].queue == [] ==> |states[k].kept| - |states[k].written| <= 16
    ensures k > 0 && states[k - 1].worker.Waiting? && states[k].worker.Writing? ==>
              |states[k].batch| == 16 || states[k].queue == []
  {
    if k > 0 {
      Conservation(states, steps, k - 1);
      StepKeeps(states[k - 1], steps[k - 1]);
    }
  }

  /** The messages of the Enqueue steps, in order. */
  function Accepted(steps: seq<Step>): seq<Message> {
    if steps == [] then []
    else
      var last := steps[|steps| - 1];
      Accepted(steps[..|steps| - 1]) + if last.Enqueue? then [last.m] else []
  }

  /** A run without a shutdown keeps everything: any number of re-initialisations loses nothing. */
  lemma {:induction false} ReinitLosesNothing(states: seq<State>, steps: seq<Step>, k: nat)
    requires IsRun(states, steps) && k < |states|
    requires forall j :: 0 <= j < k ==> !steps[j].BeginShutdown?
    ensures states[k].kept == Accepted(steps[..k]) && states[k].discarded == []
    ensures !states[k].admin.ShutStop? && !states[k].admin.ShutJoin? && !states[k].admin.ShutDrain?
  {
    if k > 0 {
      ReinitLosesNothing(states, steps, k - 1);
      assert steps[..k][..k - 1] == steps[..k - 1];
    }
  }

  /**
   * What a shutdown throws away was accepted after the worker had exited; at
   * that point everything else has been written, and so has everything that
   * will be kept. The worker exits only with queue and batch both empty.
   */
  lemma ShutdownDiscards(states: seq<State>, steps: seq<Step>, k: nat)
    requires IsRun(states, steps) && k < |steps|
    ensures steps[k].AdminStep? && states[k].admin.ShutDrain? ==>
              && states[k + 1].discarded == states[k].discarded + states[k].orphans
              && states[k + 1].written == states[k + 1].kept && states[k + 1].queue == []
    ensures !(steps[k].AdminStep? && states[k].admin.ShutDrain?) ==> states[k + 1].discarded == states[k].discarded
    ensures Alive(states[k].worker) && !Alive(states[k + 1].worker) ==>
              && states[k].queue == [] && states[k].batch == []
              && states[k + 1].orphans == [] && states[k].written == states[k].kept
  {
    Conservation(states, steps, k);
    var s := states[k];
    if steps[k].AdminStep? && s.admin.ShutDrain? {
      assert s.kept == s.written + s.queue;
      assert s.kept[..|s.kept| - |s.queue|] == s.written;
    }
  }

  /** What is left for a stopped worker to do. */
  function Work(s: State): nat {
    4 * |s.queue| + 2 * |InFlight(s)| +
    match s.worker
    case Writing(_) => 2
    case Waiting => 1
    case _ => 0
  }

  /** A worker told to stop can always step, and each of its steps gets it closer to its exit. */
  lemma StopIsReached(s: State)
    requires Inv(s) && Alive(s.worker) && !s.running
    ensures Enabled(s, WorkerStep) && Work(WorkerApply(s)) < Work(s)
    ensures Work(WorkerApply(s)) == 0 ==> !Alive(WorkerApply(s).worker)
  {
  }

  lemma WorkGoesDown(s: State)
    requires Inv(s) && Enabled(s, WorkerStep)
    ensures Work(WorkerApply(s)) < Work(s) && WorkerApply(s).kept == s.kept
    ensures !Alive(WorkerApply(s).worker) ==> s.queue == [] && WorkerApply(s).queue == []
  {
  }

  /** A worker left to itself stops stepping, and then everything accepted before has been written. */
  lemma {:induction false} QueueIsWritten(states: seq<State>, steps: seq<Step>, j: nat, k: nat)
    requires IsRun(states, steps) && j <= k < |states| && Alive(states[j].worker)
    requires forall m :: j <= m < k ==> steps[m].WorkerStep?
    ensures k - j + Work(states[k]) <= Work(states[j])
    ensures states[k].kept == states[j].kept && (!Alive(states[k].worker) ==> states[k].queue == [])
    ensures !Enabled(states[k], WorkerStep) ==> states[k].written == states[j].kept
  {
    if j < k {
      QueueIsWritten(states, steps, j, k - 1);
      Conservation(states, steps, k - 1);
      WorkGoesDown(states[k - 1]);
    }
    Conservation(states, steps, k);
    var s := states[k];
    if !Enabled(s, WorkerStep) {
      assert s.queue == [] && InFlight(s) == [];
      assert s.written + [] + [] == s.written;
    }
  }

  /** The init or shutdown that was begun last. */
  function LastBegun(steps: seq<Step>): Option<Step> {
    if steps == [] then None
    else
      var last := steps[|steps| - 1];
      if last.BeginInit? || last.BeginShutdown? then Some(last) else LastBegun(steps[..|steps| - 1])
  }

  lemma BegunSnoc(steps: seq<Step>, k: nat)
    requires k < |steps|
    ensures LastBegun(steps[..k + 1]) ==
            if steps[k].BeginInit? || steps[k].BeginShutdown? then Some(steps[k]) else LastBegun(steps[..k])
  {
    assert steps[..k + 1][..k] == steps[..k];
  }

  /** Outside init and shutdown a worker is there, and running, exactly when the last of the two was an init. */
  predicate RunsAfterInit(s: State, last: Option<Step>) {
    match s.admin
    case Idle => (s.running <==> last == Some(BeginInit)) && (Alive(s.worker) <==> last == Some(BeginInit))
    case InitStop | InitJoin | InitOpen => last == Some(BeginInit)
    case ShutStop | ShutJoin | ShutDrain => last == Some(BeginShutdown)
  }

  lemma RunsAfterStep(s: State, st: Step, last: Option<Step>)
    requires Inv(s) && Enabled(s, st) && RunsAfterInit(s, last)
    ensures RunsAfterInit(Apply(s, st), if st.BeginInit? || st.BeginShutdown? then Some(st) else last)
  {
    StepKeeps(s, st);
  }

  /** So it is in every state of every run. */
  lemma {:induction false} RunsExactlyAfterInit(states: seq<State>, steps: seq<Step>, k: nat)
    requires IsRun(states, steps) && k < |states|
    ensures RunsAfterInit(states[k], LastBegun(steps[..k]))
  {
    if k > 0 {
      RunsExactlyAfterInit(states, steps, k - 1);
      BegunSnoc(steps, k - 1);
      Conservation(states, steps, k - 1);
      RunsAfterStep(states[k - 1], steps[k - 1], LastBegun(steps[..k - 1]));
    }
  }

  function WorkerSteps(steps: seq<Step>, j: nat, k: nat): nat
    requires j <= k <= |steps|
  {
    if j == k then 0 else WorkerSteps(steps, j, k - 1) + if steps[k - 1].WorkerStep? then 1 else 0
  }

  function Enqueues(steps: seq<Step>, j: nat, k: nat): nat
    requires j <= k <= |steps|
  {
    if j == k then 0 else Enqueues(steps, j, k - 1) + if steps[k - 1].Enqueue? then 1 else 0
  }

  /** While a stopped worker is still alive, only producers and the worker itself step, and the work goes down. */
  lemma StoppedStep(s: State, st: Step)
    requires Inv(s) && Enabled(s, st) && Alive(s.worker) && !s.running
    ensures st.Enqueue? || st.WorkerStep?
    ensures Work(Apply(s, st)) + (if st.WorkerStep? then 1 else 0) <= Work(s) + if st.Enqueue? then 4 else 0
  {
    if st.WorkerStep? { StopIsReached(s); }
  }

  /**
   * The join of a stopped worker takes no more steps than there is work, plus
   * four for every message that producers still add while it drains: it
   * returns unless they never stop.
   */
  lemma {:induction false} JoinIsBounded(states: seq<State>, steps: seq<Step>, j: nat, k: nat)
    requires IsRun(states, steps) && j <= k < |states|
    requires forall m :: j <= m < k ==> Alive(states[m].worker) && !states[m].running
    ensures WorkerSteps(steps, j, k) + Work(states[k]) <= Work(states[j]) + 4 * Enqueues(steps, j, k)
  {
    if j < k {
      JoinIsBounded(states, steps, j, k - 1);
      Conservation(states, steps, k - 1);
      StoppedStep(states[k - 1], steps[k - 1]);
    }
  }

  // ---------------------------------------------------------------- the loops

  class Logger {
    var queue: seq<Message>
    var batch: seq<Message>
    var written: seq<Message>

    constructor ()
      ensures queue == batch == written == []
    {
      queue, batch, written := [], [], [];
    }

    method EnqueueMessage(m: Message)
      modifies this`queue
      ensures queue == old(queue) + [m]
    {
      queue := queue + [m];
    }

    /** The inner loop of log_worker: fills the batch from the front of the queue. */
    method TakeBatch()
      requires batch == []
      modifies this`queue, this`batch
      ensures batch == old(queue)[..Min(16, |old(queue)|)]
      ensures queue == old(queue)[Min(16, |old(queue)|)..]
    {
      while queue != [] && |batch| < BATCH
        invariant |batch| <= BATCH && |batch| <= |old(queue)|
        invariant batch == old(queue)[..|batch|] && queue == old(queue)[|batch|..]
        decreases |queue|
      {
        batch := batch + [queue[0]];
        queue := queue[1..];
      }
    }

    /** The write loop over one batch. */
    method WriteBatch()
      modifies this`batch, this`written
      ensures batch == [] && written == old(written) + old(batch)
    {
      for i := 0 to |batch|
        invariant batch == old(batch) && written == old(written) + batch[..i]
      {
        written := written + [batch[i]];
      }
      batch := [];
    }

    /** log_worker once it has been told to stop: it drains the queue before it returns. */
    method Drain()
      requires batch == []
      modifies this
      ensures queue == [] && batch == []
      ensures written == old(written) + old(queue)
    {
      while queue != []
        invariant batch == []
        invariant written + queue == old(written) + old(queue)
        decreases |queue|
      {
        ghost var q, w := queue, written;
        TakeBatch();
        WriteBatch();
        assert written + queue == w + (q[..Min(BATCH, |q|)] + q[Min(BATCH, |q|)..]);
      }
    }
  }
}
