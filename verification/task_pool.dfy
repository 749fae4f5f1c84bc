/** The bookkeeping of crnlib's `task_pool`, as a single-threaded state
    machine: the pool record, the transitions `init`, `deinit`, `queue_task`,
    `process_task` and the draining half of `join`, and the counter
    accounting that `join` relies on. Worker threads appear only as a trace
    system in which a worker may take a task off the stack and finish it
    later; interleavings below that level are not modelled. */
module TaskPool {

  import opened Options

  /** `cMaxThreads`: the largest number of worker threads a pool starts. */
  const MaxThreads: nat := 16

  /** `cTaskFlagObject`: the bit of `task::m_flags` marking an object task. */
  const TaskFlagObject: bv32 := 1

  /** C `uint64`: the opaque data word handed to every task. */
  type uint64 = x: int | 0 <= x < 0x1_0000_0000_0000_0000

  /** An opaque address: a callback function, an `executable_task` object or
      the `pData_ptr` argument. The pool never looks behind one. */
  type Handle = nat

  /** A queued task record: a callback or an object, each with its data word
      and data pointer. */
  datatype Task =
    | CallbackTask(callback: Handle, data: uint64, dataPtr: Handle)
    | ObjectTask(obj: Handle, data: uint64, dataPtr: Handle)
  {
    /** The `m_flags` word the record is stored with. */
    function Flags(): bv32 {
      if CallbackTask? then 0 else TaskFlagObject
    }
  }

  /** The call `process_task` makes: `callback(data, ptr)` or
      `obj->execute_task(data, ptr)`. */
  datatype Invocation =
    | CallCallback(callback: Handle, data: uint64, dataPtr: Handle)
    | ExecuteObject(obj: Handle, data: uint64, dataPtr: Handle)

  /** The call a task is meant to make, read off its variant: the reference
      against which the flag-based dispatch is checked. */
  function Intended(t: Task): Invocation {
    match t
    case CallbackTask(f, d, p) => CallCallback(f, d, p)
    case ObjectTask(o, d, p) => ExecuteObject(o, d, p)
  }

  /** The pool state. `stack` is the bounded task stack, top at the end;
      `cap` is its fixed capacity. */
  datatype Pool = Pool(
    numThreads: nat,
    submitted: nat,
    completed: nat,
    exitFlag: bool,
    stack: seq<Task>,
    cap: nat)

  /** The state of a freshly constructed pool, and of every pool after
      `deinit`. */
  function Idle(cap: nat): Pool {
    Pool(0, 0, 0, false, [], cap)
  }

  /** Counter accounting: every completion is of a submitted task, and tasks
      still on the stack are submitted and not complete. */
  predicate Accounted(p: Pool) {
    p.completed + |p.stack| <= p.submitted && |p.stack| <= p.cap
  }

  /** Accounting with no task in flight: every submitted task is either on
      the stack or complete. */
  predicate Quiescent(p: Pool) {
    p.completed + |p.stack| == p.submitted && |p.stack| <= p.cap
  }

  // ---------------------------------------------------------------------------
  // queue_task

  /** The outcome of `queue_task`: the new pool and the returned flag. */
  datatype Queued = Queued(pool: Pool, ok: bool)

  /** Shared body of both `queue_task` overloads: count the submission, try
      to push, and count a failed push as completed. */
  function QueueTask(p: Pool, t: Task): (r: Queued)
    ensures r.pool.submitted == p.submitted + 1
    ensures r.pool.numThreads == p.numThreads && r.pool.exitFlag == p.exitFlag && r.pool.cap == p.cap
    ensures r.ok <==> |p.stack| < p.cap
    ensures r.ok ==> r.pool.stack == p.stack + [t] && r.pool.completed == p.completed
    ensures !r.ok ==> r.pool.stack == p.stack && r.pool.completed == p.completed + 1
    ensures Accounted(p) ==> Accounted(r.pool)
    ensures Quiescent(p) ==> Quiescent(r.pool)
  {
    var counted := p.(submitted := p.submitted + 1);
    if |counted.stack| < counted.cap then
      Queued(counted.(stack := counted.stack + [t]), true)
    else
      Queued(counted.(completed := counted.completed + 1), false)
  }

  /** `queue_task(pFunc, data, pData_ptr)`: queues a callback with flags 0. */
  function QueueCallback(p: Pool, callback: Handle, data: uint64, dataPtr: Handle): (r: Queued)
    ensures r.ok ==> |r.pool.stack| == |p.stack| + 1 && r.pool.stack[..|p.stack|] == p.stack
    ensures r.ok ==> var top := r.pool.stack[|p.stack|];
      top.Flags() == 0 && Intended(top) == CallCallback(callback, data, dataPtr)
    ensures r.ok <==> |p.stack| < p.cap
    ensures r.ok ==> r.pool == p.(submitted := p.submitted + 1, stack := r.pool.stack)
    ensures !r.ok ==> r.pool == p.(submitted := p.submitted + 1, completed := p.completed + 1)
  {
    QueueTask(p, CallbackTask(callback, data, dataPtr))
  }

  /** `queue_task(pObj, data, pData_ptr)`: queues an object with
      `cTaskFlagObject` set. */
  function QueueObject(p: Pool, obj: Handle, data: uint64, dataPtr: Handle): (r: Queued)
    ensures r.ok ==> |r.pool.stack| == |p.stack| + 1 && r.pool.stack[..|p.stack|] == p.stack
    ensures r.ok ==> var top := r.pool.stack[|p.stack|];
      top.Flags() == TaskFlagObject && Intended(top) == ExecuteObject(obj, data, dataPtr)
    ensures r.ok <==> |p.stack| < p.cap
    ensures r.ok ==> r.pool == p.(submitted := p.submitted + 1, stack := r.pool.stack)
    ensures !r.ok ==> r.pool == p.(submitted := p.submitted + 1, completed := p.completed + 1)
  {
    QueueTask(p, ObjectTask(obj, data, dataPtr))
  }

  // ---------------------------------------------------------------------------
  // pop and process_task

  /** A task taken off the stack, with the pool it leaves behind. */
  datatype Popped = Popped(task: Task, pool: Pool)

  /** The task stack's `pop`: the top task, or nothing when empty. */
  function PopTask(p: Pool): (r: Option<Popped>)
    ensures r.None? <==> p.stack == []
    ensures r.Some? ==> p.stack == r.value.pool.stack + [r.value.task]
    ensures r.Some? ==> r.value.pool == p.(stack := r.value.pool.stack)
  {
    if p.stack == [] then None
    else Some(Popped(p.stack[|p.stack| - 1], p.(stack := p.stack[..|p.stack| - 1])))
  }

  /** The outcome of `process_task`: the new pool, the call made, and whether
      the all-complete semaphore is signalled. */
  datatype Processed = Processed(pool: Pool, call: Invocation, signalled: bool)

  /** `process_task`: dispatch on the object flag, count the completion, and
      signal when the new completion count reaches the submission count. */
  function ProcessTask(p: Pool, t: Task): (r: Processed)
    ensures r.call == Intended(t)
    ensures r.pool == p.(completed := p.completed + 1)
    ensures r.signalled <==> r.pool.completed == p.submitted
  {
    var call :=
      if t.Flags() & TaskFlagObject != 0 then ExecuteObject(t.obj, t.data, t.dataPtr)
      else CallCallback(t.callback, t.data, t.dataPtr);
    var after := p.(completed := p.completed + 1);
    Processed(after, call, after.completed == after.submitted)
  }

  /** Processing keeps the accounting as long as the task was queued and
      taken off the stack earlier, so that it is counted as in flight. */
  lemma ProcessTaskKeepsAccounting(p: Pool, t: Task)
    requires Accounted(p)
    requires p.completed + |p.stack| < p.submitted
    ensures Accounted(ProcessTask(p, t).pool)
  {
  }

  /** Popping a task and processing it on the same thread keeps a quiescent
      pool quiescent. */
  lemma PopAndProcessKeepsQuiescent(p: Pool)
    requires Quiescent(p) && p.stack != []
    ensures Quiescent(ProcessTask(PopTask(p).value.pool, PopTask(p).value.task).pool)
  {
  }

  // ---------------------------------------------------------------------------
  // join (draining half) and deinit

  /** Tasks run on the calling thread, with the pool left behind. */
  datatype Drained = Drained(pool: Pool, ran: seq<Invocation>)

  /** The draining loop of `join`: pop and process until the stack is empty.
      Every task on the stack runs exactly once, top first. */
  function JoinDrain(p: Pool): (r: Drained)
    ensures r.pool == p.(stack := [], completed := p.completed + |p.stack|)
    ensures |r.ran| == |p.stack|
    ensures forall i :: 0 <= i < |r.ran| ==> r.ran[i] == Intended(p.stack[|p.stack| - 1 - i])
    decreases |p.stack|
  {
    match PopTask(p)
    case None => Drained(p, [])
    case Some(Popped(t, rest)) =>
      var step := ProcessTask(rest, t);
      var tail := JoinDrain(step.pool);
      Drained(tail.pool, [step.call] + tail.ran)
  }

  /** With no task in flight, the drain leaves `completed == submitted`, so
      the wait loop of `join` exits at once. */
  lemma JoinSettles(p: Pool)
    requires Quiescent(p)
    ensures JoinDrain(p).pool.completed == JoinDrain(p).pool.submitted
    ensures Quiescent(JoinDrain(p).pool) && JoinDrain(p).pool.stack == []
  {
  }

  /** `deinit`: when workers run, join first (running what is queued), raise
      the exit flag, wake and join every worker and lower the flag again;
      then, in every case, clear the stack and both counters. */
  function Deinit(p: Pool): (r: Drained)
    ensures r.pool == Idle(p.cap).(exitFlag := p.numThreads == 0 && p.exitFlag)
    ensures p.numThreads == 0 ==> r.ran == []
    ensures p.numThreads > 0 ==> r.ran == JoinDrain(p).ran && |r.ran| == |p.stack|
  {
    var stopped :=
      if p.numThreads > 0 then
        var joined := JoinDrain(p);
        Drained(joined.pool.(numThreads := 0, exitFlag := false), joined.ran)
      else Drained(p, []);
    Drained(stopped.pool.(stack := [], submitted := 0, completed := 0), stopped.ran)
  }

  /** `deinit` is idempotent. */
  lemma DeinitIdempotent(p: Pool)
    ensures Deinit(Deinit(p).pool).pool == Deinit(p).pool
    ensures Deinit(Deinit(p).pool).ran == []
  {
  }

  /** Without workers, `deinit` discards whatever is still queued: those
      tasks never run although they were counted as submitted. */
  lemma DeinitWithoutWorkersDropsQueue(p: Pool)
    requires p.numThreads == 0 && p.stack != []
    ensures Deinit(p).ran == [] && Deinit(p).pool.stack == []
  {
  }

  // ---------------------------------------------------------------------------
  // init

  /** The outcome of `init`: the new pool, the returned flag, and the tasks
      the initial `deinit` ran. */
  datatype Started = Started(pool: Pool, ok: bool, ran: seq<Invocation>)

  function Min(a: nat, b: nat): nat {
    if a < b then a else b
  }

  /** `init(num_threads)`: clamp the count, `deinit`, then start workers one
      by one. `spawnLimit` is how many `pthread_create` calls succeed before
      the first failure; on a failure the started workers are torn down by a
      second `deinit` and the call reports false. */
  function Init(p: Pool, numThreads: nat, spawnLimit: nat): (r: Started)
    ensures r.ok <==> Min(numThreads, MaxThreads) <= spawnLimit
    ensures r.ok ==> r.pool == Deinit(p).pool.(numThreads := Min(numThreads, MaxThreads))
    ensures !r.ok && (spawnLimit == 0 || !p.exitFlag) ==> r.pool == Deinit(p).pool
    ensures !r.ok ==> r.pool == Idle(p.cap).(exitFlag := r.pool.exitFlag)
    ensures r.pool.exitFlag == (p.exitFlag && p.numThreads == 0 && (r.ok || spawnLimit == 0))
    ensures r.ran == Deinit(p).ran
    ensures r.pool.numThreads <= MaxThreads && Quiescent(r.pool)
  {
    var n := Min(numThreads, MaxThreads);
    var cleared := Deinit(p);
    var started := Min(n, spawnLimit);
    if started == n then
      Started(cleared.pool.(numThreads := n), true, cleared.ran)
    else
      var undone := Deinit(cleared.pool.(numThreads := started));
      Started(undone.pool, false, cleared.ran + undone.ran)
  }

  /** A `deinit` followed by `init` with any thread count reaches the same
      idle accounting as a fresh pool. */
  lemma ReinitLikeFresh(p: Pool, numThreads: nat, spawnLimit: nat)
    requires !p.exitFlag
    ensures var r := Init(Deinit(p).pool, numThreads, spawnLimit);
      r.pool.submitted == 0 && r.pool.completed == 0 && r.pool.stack == [] && r.ran == []
      && r.pool == Init(Idle(p.cap), numThreads, spawnLimit).pool
  {
  }

  // ---------------------------------------------------------------------------
  // The pool with worker threads, as a trace of operations

  /** The pool together with the tasks workers have popped but not finished. */
  datatype System = System(pool: Pool, running: seq<Task>)

  /** One operation on the pool. A worker's `process_task` is split into
      taking a task off the stack and finishing it later. */
  datatype Op =
    | Submit(task: Task)
    | WorkerTake
    | WorkerFinish(index: nat)
    | CallJoin
    | CallDeinit
    | CallInit(numThreads: nat, spawnLimit: nat)

  /** Everything submitted is queued, running, or complete; only workers run
      tasks off the stack; the exit flag is raised only inside `deinit`, so
      it is clear between operations. */
  predicate Consistent(s: System) {
    && s.pool.completed + |s.pool.stack| + |s.running| == s.pool.submitted
    && |s.pool.stack| <= s.pool.cap
    && (s.pool.numThreads == 0 ==> s.running == [])
    && !s.pool.exitFlag
  }

  /** Workers finishing every running task, in order. */
  function FinishAll(p: Pool, running: seq<Task>): (r: Pool)
    ensures r == p.(completed := p.completed + |running|)
    decreases |running|
  {
    if running == [] then p
    else FinishAll(ProcessTask(p, running[0]).pool, running[1..])
  }

  /** The effect of one operation. An operation that cannot happen in the
      state (a worker with nothing to take, no such running task) changes
      nothing. `join` drains and then waits, during which the workers finish
      what they were running; `deinit` and `init` join first. */
  function Step(s: System, op: Op): (r: System)
    ensures r.pool.cap == s.pool.cap
    ensures op.Submit? ==> r.pool.submitted == s.pool.submitted + 1 && r.running == s.running
    ensures op.WorkerTake? || op.WorkerFinish? ==> r.pool.submitted == s.pool.submitted
    ensures op.CallJoin? || op.CallDeinit? || op.CallInit? ==> r.running == []
  {
    match op
    case Submit(t) => System(QueueTask(s.pool, t).pool, s.running)
    case WorkerTake =>
      if s.pool.numThreads == 0 then s
      else (match PopTask(s.pool)
            case None => s
            case Some(Popped(t, rest)) => System(rest, s.running + [t]))
    case WorkerFinish(i) =>
      if i < |s.running| then
        System(ProcessTask(s.pool, s.running[i]).pool, s.running[..i] + s.running[i + 1..])
      else s
    case CallJoin => System(FinishAll(JoinDrain(s.pool).pool, s.running), [])
    case CallDeinit => System(Deinit(FinishAll(s.pool, s.running)).pool, [])
    case CallInit(n, limit) => System(Init(FinishAll(s.pool, s.running), n, limit).pool, [])
  }

  /** Every operation keeps the system consistent. */
  lemma StepKeepsConsistent(s: System, op: Op)
    requires Consistent(s)
    ensures Consistent(Step(s, op))
  {
    match op
    case WorkerFinish(i) =>
      if i < |s.running| {
        assert |s.running[..i] + s.running[i + 1..]| == |s.running| - 1;
      }
    case _ =>
  }

  /** Applying a sequence of operations. */
  function Run(s: System, ops: seq<Op>): System
    decreases |ops|
  {
    if ops == [] then s else Run(Step(s, ops[0]), ops[1..])
  }

  /** The accounting invariant of the pool: along any trace that starts
      consistent, `completed <= submitted`, and no completion is counted for a
      task that was neither queued nor dropped. */
  lemma {:induction false} RunKeepsConsistent(s: System, ops: seq<Op>)
    requires Consistent(s)
    ensures Consistent(Run(s, ops))
    ensures Accounted(Run(s, ops).pool)
    ensures Run(s, ops).pool.completed <= Run(s, ops).pool.submitted
    decreases |ops|
  {
    if ops != [] {
      StepKeepsConsistent(s, ops[0]);
      RunKeepsConsistent(Step(s, ops[0]), ops[1..]);
    }
  }

  /** A fresh pool is consistent, so every trace from it keeps the accounting. */
  lemma FreshPoolAccounted(cap: nat, ops: seq<Op>)
    ensures Run(System(Idle(cap), []), ops).pool.completed <= Run(System(Idle(cap), []), ops).pool.submitted
  {
    RunKeepsConsistent(System(Idle(cap), []), ops);
  }

  /** After `join` returns, the counters agree and nothing is queued or
      running, whatever the workers were doing. */
  lemma JoinBalances(s: System)
    requires Consistent(s)
    ensures var t := Step(s, CallJoin);
      t.pool.completed == t.pool.submitted && t.pool.stack == [] && t.running == []
    ensures Step(s, CallJoin) == System(s.pool.(stack := [], completed := s.pool.submitted), [])
  {
  }

  /** `deinit` as an operation on the system: the workers finish, and the
      pool returns to its freshly constructed state with the same capacity. */
  lemma DeinitStepResets(s: System)
    requires Consistent(s)
    ensures Step(s, CallDeinit) == System(Idle(s.pool.cap), [])
  {
  }

  /** `init` as an operation on the system: the pool is reset and holds
      min(n, cMaxThreads) workers when every spawn succeeds, and none
      otherwise. */
  lemma InitStepStarts(s: System, n: nat, limit: nat)
    requires Consistent(s)
    ensures Step(s, CallInit(n, limit)) ==
      System(Idle(s.pool.cap).(numThreads := if Min(n, MaxThreads) <= limit then Min(n, MaxThreads) else 0), [])
  {
  }

  /** `queue_task` as an operation on the system: the task is pushed when the
      stack has room and counted as submitted and complete otherwise; the
      running tasks are untouched. */
  lemma SubmitStepQueues(s: System, t: Task)
    ensures |s.pool.stack| < s.pool.cap ==>
      Step(s, Submit(t)) == System(s.pool.(submitted := s.pool.submitted + 1, stack := s.pool.stack + [t]), s.running)
    ensures |s.pool.stack| >= s.pool.cap ==>
      Step(s, Submit(t)) == System(s.pool.(submitted := s.pool.submitted + 1, completed := s.pool.completed + 1), s.running)
  {
  }

  /** A worker with a task to take moves the top of the stack to its
      running set and leaves every counter alone. */
  lemma WorkerTakeMovesTop(s: System)
    requires s.pool.numThreads > 0 && s.pool.stack != []
    ensures var k := |s.pool.stack| - 1;
      Step(s, WorkerTake) == System(s.pool.(stack := s.pool.stack[..k]), s.running + [s.pool.stack[k]])
  {
  }

  /** A worker finishing running task `i` counts exactly one completion and
      removes exactly that task from the running set. */
  lemma WorkerFinishCompletesOne(s: System, i: nat)
    requires i < |s.running|
    ensures Step(s, WorkerFinish(i)).pool == s.pool.(completed := s.pool.completed + 1)
    ensures |Step(s, WorkerFinish(i)).running| == |s.running| - 1
    ensures multiset(Step(s, WorkerFinish(i)).running) + multiset{s.running[i]} == multiset(s.running)
  {
    assert s.running == s.running[..i] + [s.running[i]] + s.running[i + 1..];
  }

  /** With zero workers nothing is ever in flight, so the drain of `join`
      alone leaves `completed == submitted` and its wait loop exits at once. */
  lemma JoinWithoutWorkers(s: System)
    requires Consistent(s) && s.pool.numThreads == 0
    ensures JoinDrain(s.pool).pool.completed == JoinDrain(s.pool).pool.submitted
    ensures JoinDrain(s.pool).pool.stack == []
  {
    assert Quiescent(s.pool);
    JoinSettles(s.pool);
  }

  /** When the last outstanding task is finished by a worker, it signals the
      all-complete semaphore. */
  lemma LastCompletionSignals(s: System)
    requires Consistent(s)
    requires s.pool.stack == [] && |s.running| == 1
    ensures ProcessTask(s.pool, s.running[0]).signalled
  {
  }
}
