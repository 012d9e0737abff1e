/**
 * The bounded task pool of the SMS API (apps/sms-api/internal/pool/pool.go) as a
 * sequential state machine. The buffered task channel is the `queue` field; a
 * worker goroutine taking one envelope off the channel and running it is the
 * `Step` method; what a task does when it runs (return, fail, panic, time out)
 * and how long it takes are inputs.
 */
module TaskPool {
  import opened Wrappers
  import opened Strs

  const Second: nat := 1_000_000_000
  const Minute: nat := 60 * Second

  /** The errors the pool hands back, with the task's own error and panics. */
  datatype PoolError =
    | PoolClosed
    | TaskTimeout
    | PoolFull
    | NilTask
    | Canceled
    | Panicked(value: string)
    | Failed(message: string)

  /** The text of each error, as the Go values print it. */
  function Message(e: PoolError): (m: string)
    ensures e.Panicked? ==> StartsWith(m, "task panicked: ")
  {
    match e
    case PoolClosed => "pool is closed"
    case TaskTimeout => "task execution timeout"
    case PoolFull => "pool queue is full"
    case NilTask => "task cannot be nil"
    case Canceled => "context canceled"
    case Panicked(v) => "task panicked: " + v
    case Failed(msg) => msg
  }

  /**
   * What running a task amounts to. `AlreadyCancelled` is a task whose context
   * was done before a worker picked it up: `deadline` tells whether its timeout
   * had expired (context.DeadlineExceeded) or the pool cancelled it.
   */
  datatype Outcome =
    | Ok
    | Err(message: string)
    | Panic(value: string)
    | DeadlineExceeded
    | AlreadyCancelled(deadline: bool)

  /** The error recorded in a task's result, after the deadline is normalised. */
  function ResultError(o: Outcome): (e: Option<PoolError>)
    ensures e.None? <==> o.Ok?
    ensures e == Some(TaskTimeout) <==> (o.DeadlineExceeded? || o == AlreadyCancelled(true))
    ensures o.Panic? ==> e.Some? && StartsWith(Message(e.value), "task panicked: ")
    ensures o.Err? ==> e == Some(Failed(o.message))
  {
    match o
    case Ok => None
    case Err(msg) => Some(Failed(msg))
    case Panic(v) => Some(Panicked(v))
    case DeadlineExceeded => Some(TaskTimeout)
    case AlreadyCancelled(deadline) => if deadline then Some(TaskTimeout) else Some(Canceled)
  }

  /** Whether the task's Execute is invoked at all: not when its context is already done. */
  predicate Executes(o: Outcome) { !o.AlreadyCancelled? }

  /**
   * Every task context derives from the pool's, so once Close has cancelled
   * the pool a task a worker still picks up finds its context done: it is not
   * executed and reports context.Canceled, unless its own deadline had already
   * expired.
   */
  function AfterCancel(o: Outcome, cancelled: bool): (r: Outcome)
    ensures !cancelled ==> r == o
    ensures cancelled ==> !Executes(r)
    ensures cancelled ==> (ResultError(r) == Some(TaskTimeout) <==> o == AlreadyCancelled(true))
    ensures cancelled && o != AlreadyCancelled(true) ==> ResultError(r) == Some(Canceled)
  {
    if cancelled && !o.AlreadyCancelled? then AlreadyCancelled(false) else o
  }

  datatype Config = Config(
    maxWorkers: int,
    queueSize: nat,
    workerIdleTimeout: nat,
    taskTimeout: nat,
    enableMetrics: bool,
    hasPanicHandler: bool)

  /** DefaultConfig: one worker per CPU, a queue of 100, 30 s idle, 5 min task timeout, metrics on. */
  function DefaultConfig(numCPU: nat): (c: Config)
    ensures c.queueSize == 100 && c.taskTimeout == 5 * Minute && c.workerIdleTimeout == 30 * Second
    ensures c.enableMetrics && c.hasPanicHandler && c.maxWorkers == numCPU
  {
    Config(numCPU, 100, 30 * Second, 5 * Minute, true, true)
  }

  /** The channel element: a task with its id, context, result channel and timeout. */
  datatype Envelope = Envelope(id: string, task: Option<nat>, hasContext: bool, hasResultChannel: bool, timeout: nat)

  predicate WellFormed(e: Envelope) { e.task.Some? && e.hasContext && e.hasResultChannel }

  datatype TaskResult = TaskResult(id: string, error: Option<PoolError>, duration: nat, startTime: nat)

  const ZeroResult := TaskResult("", None, 0, 0)

  /** The result a worker produces for a well-formed envelope. */
  function ResultFor(e: Envelope, o: Outcome, duration: nat, startTime: nat): TaskResult
  {
    TaskResult(e.id, ResultError(o), duration, startTime)
  }

  datatype Metrics = Metrics(
    tasksSubmitted: int,
    tasksCompleted: int,
    tasksFailed: int,
    activeWorkers: int,
    queuedTasks: int,
    totalExecutionTime: int,
    averageExecutionTime: int)

  function Sum(ds: seq<nat>): nat
  {
    if ds == [] then 0 else Sum(ds[..|ds| - 1]) + ds[|ds| - 1]
  }

  /** A pooled TaskResult object; putResult clears it before it is reused. */
  class ResultSlot {
    var id: string
    var error: Option<PoolError>
    var duration: nat
    var startTime: nat

    constructor ()
      ensures id == "" && error.None? && duration == 0 && startTime == 0
    {
      id, error, duration, startTime := "", None, 0, 0;
    }

    /** The result handed to the result channel: a copy of the fields. */
    function Value(): (r: TaskResult)
      reads this
      ensures r.id == id && r.error == error && r.duration == duration && r.startTime == startTime
    {
      TaskResult(id, error, duration, startTime)
    }

    /** executeTask filling a slot taken from the pool. */
    method Fill(id': string, error': Option<PoolError>, duration': nat, startTime': nat)
      modifies this
      ensures Value() == TaskResult(id', error', duration', startTime')
    {
      id, error, duration, startTime := id', error', duration', startTime';
    }

    /** putResult: every field goes back to its zero value. */
    method Reset()
      modifies this
      ensures id == "" && error.None? && duration == 0 && startTime == 0
    {
      id := "";
      error := None;
      duration := 0;
      startTime := 0;
    }
  }

  /**
   * getResult, fill, send a copy, putResult: the value delivered is the one
   * filled in, and the pooled slot goes back cleared.
   */
  method Deliver(id: string, error: Option<PoolError>, duration: nat, startTime: nat) returns (r: TaskResult)
    ensures r == TaskResult(id, error, duration, startTime)
  {
    var slot := new ResultSlot();
    slot.Fill(id, error, duration, startTime);
    r := slot.Value();
    slot.Reset();
    assert slot.Value() == ZeroResult;
  }

  class Pool {
    var config: Config
    var queue: seq<Envelope>
    var closed: bool
    var submitted: int
    var completed: int
    var failed: int
    var queued: int
    var totalTime: int
    var averageTime: int
    /** How many times the shutdown sequence (cancel, close the channel, wait) has run. */
    ghost var shutdowns: nat
    /** Malformed envelopes discarded by a worker. */
    ghost var dropped: nat
    /** Durations of the executions counted in the metrics, in order. */
    ghost var durations: seq<nat>

    /** The metric counters agree with the history when `n` envelopes are queued. */
    ghost predicate MetricsAgree(n: nat)
      reads this
    {
      queued == n &&
      submitted == completed + failed + dropped + n &&
      completed >= 0 && failed >= 0 &&
      completed + failed == |durations| &&
      totalTime == Sum(durations) &&
      (completed > 0 ==> averageTime == totalTime / completed) &&
      (completed == 0 ==> averageTime == 0)
    }

    ghost predicate Valid()
      reads this
    {
      |queue| <= config.queueSize &&
      shutdowns <= 1 && (closed <==> shutdowns == 1) &&
      (config.enableMetrics ==> MetricsAgree(|queue|)) &&
      (!config.enableMetrics ==>
        submitted == 0 && completed == 0 && failed == 0 && queued == 0 &&
        totalTime == 0 && averageTime == 0)
    }

    /**
     * New: a nil configuration is replaced by the default one; metrics start at
     * zero. The queue is a buffered channel, so its size is positive.
     */
    constructor (cfg: Option<Config>, numCPU: nat)
      requires cfg.Some? ==> cfg.value.queueSize > 0
      ensures Valid()
      ensures config == (if cfg.None? then DefaultConfig(numCPU) else cfg.value)
      ensures queue == [] && !closed
      ensures submitted == 0 && completed == 0 && failed == 0 && queued == 0
      ensures totalTime == 0 && averageTime == 0
    {
      config := if cfg.None? then DefaultConfig(numCPU) else cfg.value;
      queue := [];
      closed := false;
      submitted, completed, failed, queued := 0, 0, 0, 0;
      totalTime, averageTime := 0, 0;
      shutdowns, dropped, durations := 0, 0, [];
    }

    /**
     * SubmitWithTimeout: a non-blocking offer of a task. A closed pool and a nil
     * task are refused first; a full queue rolls the counters back.
     */
    method SubmitWithTimeout(task: Option<nat>, timeout: nat, id: string) returns (err: Option<PoolError>)
      requires Valid()
      modifies this
      ensures Valid() && config == old(config) && closed == old(closed)
      ensures old(closed) ==> err == Some(PoolClosed) && unchanged(this)
      ensures !old(closed) && task.None? ==> err == Some(NilTask) && unchanged(this)
      ensures !old(closed) && task.Some? && old(|queue|) >= config.queueSize ==>
        err == Some(PoolFull) && unchanged(this)
      ensures !old(closed) && task.Some? && old(|queue|) < config.queueSize ==>
        err.None? &&
        queue == old(queue) + [Envelope(id, task, true, true, timeout)] &&
        config == old(config) && closed == old(closed) &&
        submitted == old(submitted) + (if config.enableMetrics then 1 else 0) &&
        queued == old(queued) + (if config.enableMetrics then 1 else 0) &&
        completed == old(completed) && failed == old(failed) &&
        totalTime == old(totalTime) && averageTime == old(averageTime) &&
        durations == old(durations) && dropped == old(dropped) && shutdowns == old(shutdowns)
    {
      if closed {
        return Some(PoolClosed);
      }
      if task.None? {
        return Some(NilTask);
      }
      var wrapper := Envelope(id, task, true, true, timeout);
      if config.enableMetrics {
        submitted := submitted + 1;
        queued := queued + 1;
      }
      if |queue| < config.queueSize {
        queue := queue + [wrapper];
        err := None;
      } else {
        if config.enableMetrics {
          submitted := submitted - 1;
          queued := queued - 1;
        }
        err := Some(PoolFull);
      }
    }

    /** Submit: SubmitWithTimeout with the configured task timeout. */
    method Submit(task: Option<nat>, id: string) returns (err: Option<PoolError>)
      requires Valid()
      modifies this
      ensures Valid() && config == old(config) && closed == old(closed)
      ensures old(closed) ==> err == Some(PoolClosed) && unchanged(this)
      ensures !old(closed) && task.None? ==> err == Some(NilTask) && unchanged(this)
      ensures !old(closed) && task.Some? && old(|queue|) >= config.queueSize ==>
        err == Some(PoolFull) && unchanged(this)
      ensures !old(closed) && task.Some? && old(|queue|) < config.queueSize ==>
        err.None? && queue == old(queue) + [Envelope(id, task, true, true, config.taskTimeout)] &&
        submitted == old(submitted) + (if config.enableMetrics then 1 else 0) &&
        completed == old(completed) && failed == old(failed)
    {
      err := SubmitWithTimeout(task, config.taskTimeout, id);
    }

    /** updateExecutionMetrics: add the duration, then recompute the average if anything completed. */
    method UpdateExecutionMetrics(duration: nat)
      modifies this`totalTime, this`averageTime
      ensures totalTime == old(totalTime) + duration
      ensures completed > 0 ==> averageTime == totalTime / completed
      ensures completed <= 0 ==> averageTime == old(averageTime)
    {
      totalTime := totalTime + duration;
      if completed > 0 {
        averageTime := totalTime / completed;
      }
    }

    /** The metric updates of one execution: Failed or Completed, the timing, and the queued slot. */
    method RecordExecution(hasError: bool, duration: nat, ghost n: nat)
      requires MetricsAgree(n + 1)
      modifies this`completed, this`failed, this`totalTime, this`averageTime, this`queued, this`durations
      ensures MetricsAgree(n)
      ensures completed == old(completed) + (if hasError then 0 else 1)
      ensures failed == old(failed) + (if hasError then 1 else 0)
      ensures totalTime == old(totalTime) + duration
    {
      if hasError {
        failed := failed + 1;
      } else {
        completed := completed + 1;
      }
      assert Sum(durations + [duration]) == Sum(durations) + duration by {
        assert (durations + [duration])[..|durations|] == durations;
      }
      durations := durations + [duration];
      UpdateExecutionMetrics(duration);
      queued := queued - 1;
    }

    /**
     * executeTask on the head of the queue, as one atomic step of a worker. A
     * malformed envelope only gives back its queued slot. Otherwise the task runs
     * unless its context is already done (as every context is once the pool is
     * closed), a panic goes to the panic handler, exactly one of
     * Completed/Failed grows, and the result is filled into a pooled slot,
     * delivered, and the slot cleared for reuse.
     */
    method Step(outcome: Outcome, duration: nat, startTime: nat)
      returns (res: Option<TaskResult>, executed: bool, handled: Option<string>)
      requires Valid() && |queue| > 0
      modifies this
      ensures Valid()
      ensures queue == old(queue)[1..]
      ensures config == old(config) && closed == old(closed) && submitted == old(submitted)
      ensures config.enableMetrics ==> queued == old(queued) - 1
      ensures !config.enableMetrics ==> queued == old(queued) && completed == old(completed) && failed == old(failed)
      ensures !WellFormed(old(queue)[0]) ==>
        res.None? && !executed && handled.None? &&
        completed == old(completed) && failed == old(failed) && totalTime == old(totalTime)
      ensures WellFormed(old(queue)[0]) ==>
        var o := AfterCancel(outcome, closed);
        res == Some(ResultFor(old(queue)[0], o, duration, startTime)) &&
        executed == Executes(o) &&
        handled == (if o.Panic? && config.hasPanicHandler then Some(o.value) else None)
      ensures WellFormed(old(queue)[0]) && config.enableMetrics ==>
        var o := AfterCancel(outcome, closed);
        completed == old(completed) + (if o.Ok? then 1 else 0) &&
        failed == old(failed) + (if o.Ok? then 0 else 1) &&
        totalTime == old(totalTime) + duration
    {
      var wrapper := queue[0];
      queue := queue[1..];
      executed, handled := false, None;
      if !WellFormed(wrapper) {
        if config.enableMetrics {
          queued := queued - 1;
          dropped := dropped + 1;
        }
        return None, false, None;
      }
      var o := AfterCancel(outcome, closed);
      // The panic is recovered into the result; the handler sees the panic value.
      var error := ResultError(o);
      executed := Executes(o);
      if o.Panic? && config.hasPanicHandler {
        handled := Some(o.value);
      }
      if config.enableMetrics {
        RecordExecution(error.Some?, duration, |queue|);
      }
      var r := Deliver(wrapper.id, error, duration, startTime);
      res := Some(r);
    }

    /**
     * Workers drain the queue in FIFO order until the last envelope (the one just
     * submitted) has run; its result is returned.
     */
    method RunUntilLast(outcomeOf: Envelope -> Outcome, durationOf: Envelope -> nat, startOf: Envelope -> nat)
      returns (r: TaskResult)
      requires Valid() && |queue| > 0 && WellFormed(queue[|queue| - 1])
      modifies this
      ensures Valid() && queue == []
      ensures config == old(config) && closed == old(closed)
      ensures var e := old(queue)[|old(queue)| - 1];
        r == ResultFor(e, AfterCancel(outcomeOf(e), closed), durationOf(e), startOf(e))
    {
      ghost var last := queue[|queue| - 1];
      while |queue| > 1
        invariant Valid() && |queue| > 0 && queue[|queue| - 1] == last
        invariant config == old(config) && closed == old(closed)
        decreases |queue|
      {
        var head := queue[0];
        var _, _, _ := Step(outcomeOf(head), durationOf(head), startOf(head));
      }
      var e := queue[0];
      var res, _, _ := Step(outcomeOf(e), durationOf(e), startOf(e));
      r := res.value;
    }

    /** SubmitAndWait: a refused submission becomes a result carrying only the error. */
    method SubmitAndWait(task: Option<nat>, id: string,
                         outcomeOf: Envelope -> Outcome, durationOf: Envelope -> nat, startOf: Envelope -> nat)
      returns (r: TaskResult)
      requires Valid()
      modifies this
      ensures Valid()
      ensures old(closed) ==> r == TaskResult("", Some(PoolClosed), 0, 0)
      ensures !old(closed) && task.None? ==> r == TaskResult("", Some(NilTask), 0, 0)
      ensures !old(closed) && task.Some? && old(|queue|) >= config.queueSize ==> r == TaskResult("", Some(PoolFull), 0, 0)
      ensures !old(closed) && task.Some? && old(|queue|) < config.queueSize ==>
        var e := Envelope(id, task, true, true, config.taskTimeout);
        r == ResultFor(e, outcomeOf(e), durationOf(e), startOf(e))
    {
      var err := Submit(task, id);
      if err.Some? {
        return TaskResult("", err, 0, 0);
      }
      r := RunUntilLast(outcomeOf, durationOf, startOf);
    }

    /** GetMetrics: a snapshot of the counters; no worker is modelled, so ActiveWorkers is 0. */
    method GetMetrics() returns (m: Metrics)
      requires Valid()
      ensures m.tasksSubmitted == submitted && m.tasksCompleted == completed && m.tasksFailed == failed
      ensures m.queuedTasks == queued && m.totalExecutionTime == totalTime && m.averageExecutionTime == averageTime
      ensures m.activeWorkers == 0
      ensures config.enableMetrics ==> m.queuedTasks == |queue| && m.tasksSubmitted >= m.tasksCompleted + m.tasksFailed
      ensures m.tasksCompleted >= 0 && m.tasksFailed >= 0 && m.queuedTasks >= 0 && m.totalExecutionTime >= 0
    {
      m := Metrics(submitted, completed, failed, 0, queued, totalTime, averageTime);
    }

    /** Close: only the first call shuts the pool down; every later call reports ErrPoolClosed. */
    method Close() returns (err: Option<PoolError>)
      requires Valid()
      modifies this
      ensures Valid() && closed && shutdowns == 1
      ensures old(closed) ==> err == Some(PoolClosed) && unchanged(this)
      ensures !old(closed) ==>
        (err.None? && queue == old(queue) && config == old(config) && submitted == old(submitted) &&
         completed == old(completed) && failed == old(failed) && queued == old(queued))
    {
      if closed {
        return Some(PoolClosed);
      }
      closed := true;
      shutdowns := shutdowns + 1;
      err := None;
    }

    /**
     * One worker step during a batch, repeated `count` times or until the
     * queue is empty: an envelope of the batch leaves its result in its slot.
     */
    method DrainBatch(count: nat, slots: seq<int>, results: seq<TaskResult>, ghost errors: seq<Option<PoolError>>,
                      tasks: seq<Option<nat>>, ids: seq<string>, ghost n: nat,
                      outcomeOf: Envelope -> Outcome, durationOf: Envelope -> nat, startOf: Envelope -> nat)
      returns (slots': seq<int>, results': seq<TaskResult>)
      requires Valid() && |ids| == |tasks| && |errors| == |tasks| && |results| == |tasks| && n <= |tasks|
      requires Tracked(queue, slots, tasks, ids, errors, config.taskTimeout, n)
      requires closed ==> forall k :: 0 <= k < n ==> errors[k].Some?
      requires Settled(results, errors, slots, tasks, ids, config.taskTimeout, outcomeOf, durationOf, startOf, n)
      requires Untouched(results, errors, n)
      modifies this
      ensures Valid() && config == old(config) && closed == old(closed)
      ensures queue == old(queue)[Min(count, |old(queue)|)..]
      ensures |results'| == |tasks|
      ensures Tracked(queue, slots', tasks, ids, errors, config.taskTimeout, n)
      ensures Settled(results', errors, slots', tasks, ids, config.taskTimeout, outcomeOf, durationOf, startOf, n)
      ensures Untouched(results', errors, n)
    {
      slots', results' := slots, results;
      var k := 0;
      while k < count && |queue| > 0
        invariant Valid() && config == old(config) && closed == old(closed)
        invariant k <= Min(count, |old(queue)|) && queue == old(queue)[k..]
        invariant |results'| == |tasks|
        invariant Tracked(queue, slots', tasks, ids, errors, config.taskTimeout, n)
        invariant Settled(results', errors, slots', tasks, ids, config.taskTimeout, outcomeOf, durationOf, startOf, n)
        invariant Untouched(results', errors, n)
        decreases |queue|
      {
        var head, slot := queue[0], slots'[0];
        var res, _, _ := Step(outcomeOf(head), durationOf(head), startOf(head));
        ghost var before := slots';
        slots' := slots'[1..];
        assert forall j :: j in before ==> j == slot || j in slots';
        if slot >= 0 {
          results' := results'[slot := res.value];
        }
        k := k + 1;
      }
    }

    /** One goroutine of SubmitBatch offering task i; an accepted envelope is tracked under slot i. */
    method OfferTask(i: nat, slots: seq<int>, ghost results: seq<TaskResult>, errors: seq<Option<PoolError>>,
                     tasks: seq<Option<nat>>, ids: seq<string>,
                     ghost outcomeOf: Envelope -> Outcome, ghost durationOf: Envelope -> nat, ghost startOf: Envelope -> nat)
      returns (slots': seq<int>, errors': seq<Option<PoolError>>)
      requires Valid() && i < |tasks| == |ids| == |errors| == |results|
      requires Tracked(queue, slots, tasks, ids, errors, config.taskTimeout, i)
      requires Settled(results, errors, slots, tasks, ids, config.taskTimeout, outcomeOf, durationOf, startOf, i)
      requires Untouched(results, errors, i)
      modifies this
      ensures Valid() && config == old(config) && closed == old(closed)
      ensures |errors'| == |errors| && forall k :: 0 <= k < |errors| && k != i ==> errors'[k] == errors[k]
      ensures Tracked(queue, slots', tasks, ids, errors', config.taskTimeout, i + 1)
      ensures Settled(results, errors', slots', tasks, ids, config.taskTimeout, outcomeOf, durationOf, startOf, i + 1)
      ensures Untouched(results, errors', i + 1)
      ensures old(closed) ==> errors'[i] == Some(PoolClosed)
      ensures !old(closed) && tasks[i].None? ==> errors'[i] == Some(NilTask)
      ensures !old(closed) && tasks[i].Some? ==>
        (errors'[i].Some? ==> errors'[i] == Some(PoolFull)) &&
        (errors'[i] == Some(PoolFull) <==> old(|queue|) >= config.queueSize)
      ensures errors'[i].Some? ==> queue == old(queue)
      ensures errors'[i].None? ==> |queue| == old(|queue|) + 1 && tasks[i].Some?
    {
      var err := Submit(tasks[i], ids[i]);
      if err.Some? {
        slots', errors' := slots, errors[i := err];
      } else {
        slots', errors' := slots + [i], errors;
      }
    }

    /**
     * SubmitBatch: one goroutine per task, here submitting in index order.
     * Before task i is offered the workers take up to `drainBefore[i]`
     * envelopes off the queue, and once every task is offered they drain it.
     * A refused task leaves its error in slot i and a zero result; an accepted
     * one leaves its result there.
     */
    method SubmitBatch(tasks: seq<Option<nat>>, ids: seq<string>, drainBefore: seq<nat>,
                       outcomeOf: Envelope -> Outcome, durationOf: Envelope -> nat, startOf: Envelope -> nat)
      returns (results: seq<TaskResult>, errors: seq<Option<PoolError>>)
      requires Valid() && |ids| == |tasks| && |drainBefore| == |tasks|
      modifies this
      ensures Valid() && config == old(config) && closed == old(closed) && queue == []
      ensures |results| == |tasks| && |errors| == |tasks|
      ensures forall i :: 0 <= i < |tasks| && errors[i].Some? ==>
        results[i] == ZeroResult && errors[i].value in {PoolClosed, NilTask, PoolFull}
      ensures forall i :: 0 <= i < |tasks| && errors[i].None? ==>
        var e := BatchEnvelope(tasks, ids, i, config.taskTimeout);
        results[i] == ResultFor(e, outcomeOf(e), durationOf(e), startOf(e))
      ensures old(closed) ==> forall i :: 0 <= i < |tasks| ==> errors[i] == Some(PoolClosed)
      ensures !old(closed) ==> forall i :: 0 <= i < |tasks| && tasks[i].None? ==> errors[i] == Some(NilTask)
      // Whatever the workers do, a batch that fits in the free room is accepted whole.
      ensures !old(closed) && NonNilCount(tasks) <= config.queueSize - old(|queue|) ==>
        forall i :: 0 <= i < |tasks| && tasks[i].Some? ==> errors[i].None?
      // With no worker taking anything meanwhile, exactly the tasks past the free room are refused.
      ensures !old(closed) && (forall i :: 0 <= i < |tasks| ==> drainBefore[i] == 0) ==>
        forall i :: 0 <= i < |tasks| && tasks[i].Some? ==>
          (errors[i] == Some(PoolFull) <==> NonNilCount(tasks[..i]) >= config.queueSize - old(|queue|))
    {
      results, errors := seq(|tasks|, _ => ZeroResult), seq(|tasks|, _ => None);
      var slots: seq<int> := seq(|queue|, _ => -1);
      ghost var free := config.queueSize - |queue|;
      ghost var quiet := forall i :: 0 <= i < |tasks| ==> drainBefore[i] == 0;
      var i := 0;
      while i < |tasks|
        invariant 0 <= i <= |tasks| && |results| == |tasks| && |errors| == |tasks|
        invariant Valid() && config == old(config) && closed == old(closed)
        invariant Tracked(queue, slots, tasks, ids, errors, config.taskTimeout, i)
        invariant Settled(results, errors, slots, tasks, ids, config.taskTimeout, outcomeOf, durationOf, startOf, i)
        invariant Untouched(results, errors, i)
        invariant forall k :: 0 <= k < i && errors[k].Some? ==> errors[k].value in {PoolClosed, NilTask, PoolFull}
        invariant old(closed) ==> forall k :: 0 <= k < i ==> errors[k] == Some(PoolClosed)
        invariant !old(closed) ==> forall k :: 0 <= k < i && tasks[k].None? ==> errors[k] == Some(NilTask)
        invariant Counted(tasks, errors, |queue|, i, old(|queue|), free, quiet, !old(closed))
      {
        ghost var before := |queue|;
        slots, results := DrainBatch(drainBefore[i], slots, results, errors, tasks, ids, i, outcomeOf, durationOf, startOf);
        ghost var offered := |queue|;
        ghost var errors0 := errors;
        slots, errors := OfferTask(i, slots, results, errors, tasks, ids, outcomeOf, durationOf, startOf);
        CountedStep(tasks, errors0, errors, before, offered, |queue|, i, old(|queue|), free, quiet, !old(closed));
        i := i + 1;
      }
      slots, results := DrainBatch(|queue|, slots, results, errors, tasks, ids, i, outcomeOf, durationOf, startOf);
    }
  }

  function Min(a: int, b: int): int { if a < b then a else b }

  /** The envelope SubmitBatch builds for task k. */
  function BatchEnvelope(tasks: seq<Option<nat>>, ids: seq<string>, k: nat, timeout: nat): Envelope
    requires k < |tasks| && k < |ids|
  {
    Envelope(ids[k], tasks[k], true, true, timeout)
  }

  /** slots[j] is the batch index of queue[j], or negative for an envelope queued before the batch. */
  ghost predicate Tracked(queue: seq<Envelope>, slots: seq<int>, tasks: seq<Option<nat>>, ids: seq<string>,
                          errors: seq<Option<PoolError>>, timeout: nat, n: nat)
  {
    |slots| == |queue| && n <= |tasks| == |ids| == |errors| &&
    forall j :: 0 <= j < |slots| && slots[j] >= 0 ==>
      slots[j] < n && tasks[slots[j]].Some? && errors[slots[j]].None? &&
      queue[j] == BatchEnvelope(tasks, ids, slots[j], timeout)
  }

  /** Every accepted task of the first n that has left the queue has its result in its slot. */
  ghost predicate Settled(results: seq<TaskResult>, errors: seq<Option<PoolError>>, slots: seq<int>,
                          tasks: seq<Option<nat>>, ids: seq<string>, timeout: nat,
                          outcomeOf: Envelope -> Outcome, durationOf: Envelope -> nat, startOf: Envelope -> nat, n: nat)
  {
    n <= |tasks| == |ids| == |errors| == |results| &&
    forall k :: 0 <= k < n && errors[k].None? && k !in slots ==>
      var e := BatchEnvelope(tasks, ids, k, timeout);
      results[k] == ResultFor(e, outcomeOf(e), durationOf(e), startOf(e))
  }

  /** Refused tasks and tasks not yet offered keep a zero result and no error yet. */
  ghost predicate Untouched(results: seq<TaskResult>, errors: seq<Option<PoolError>>, n: nat)
  {
    |results| == |errors| &&
    forall k :: 0 <= k < |results| && (k >= n || errors[k].Some?) ==>
      results[k] == ZeroResult && (k >= n ==> errors[k].None?)
  }

  /**
   * What SubmitBatch's refusals have to do with the room in the queue, after
   * the first n tasks are offered to a queue that held q0 envelopes with
   * `free` places left: the queue holds at most one more envelope per non-nil
   * task; a batch that fits is accepted whole; and when no worker has taken
   * anything (`quiet`), exactly the tasks offered once the room ran out are
   * refused.
   */
  ghost predicate Counted(tasks: seq<Option<nat>>, errors: seq<Option<PoolError>>, len: nat, n: nat,
                          q0: nat, free: int, quiet: bool, open: bool)
  {
    n <= |tasks| == |errors| &&
    len <= q0 + NonNilCount(tasks[..n]) &&
    (open && NonNilCount(tasks) <= free ==> forall k :: 0 <= k < n && tasks[k].Some? ==> errors[k].None?) &&
    (open && quiet ==> len == q0 + Min(NonNilCount(tasks[..n]), free)) &&
    (open && quiet ==> forall k :: 0 <= k < n && tasks[k].Some? ==>
      (errors[k] == Some(PoolFull) <==> NonNilCount(tasks[..k]) >= free))
  }

  /**
   * Offering task n keeps Counted: the workers took `before - offered`
   * envelopes (none when quiet), then the offer was refused for want of room
   * exactly when the queue was full, and an accepted task adds one envelope.
   */
  lemma CountedStep(tasks: seq<Option<nat>>, errors: seq<Option<PoolError>>, errors': seq<Option<PoolError>>,
                    before: nat, offered: nat, after: nat, n: nat, q0: nat, free: int, quiet: bool, open: bool)
    requires Counted(tasks, errors, before, n, q0, free, quiet, open) && n < |tasks|
    requires q0 + free >= 0
    requires offered <= before && (quiet ==> offered == before)
    requires |errors'| == |errors| && forall k :: 0 <= k < |errors| && k != n ==> errors'[k] == errors[k]
    requires open && tasks[n].None? ==> errors'[n].Some? && errors'[n] != Some(PoolFull)
    requires open && tasks[n].Some? ==>
      (errors'[n].Some? ==> errors'[n] == Some(PoolFull)) &&
      (errors'[n] == Some(PoolFull) <==> offered >= q0 + free)
    requires errors'[n].Some? ==> after == offered
    requires errors'[n].None? ==> after == offered + 1 && tasks[n].Some?
    ensures Counted(tasks, errors', after, n + 1, q0, free, quiet, open)
  {
    NonNilCountStep(tasks, n);
    if tasks[n].Some? {
      NonNilCountPrefix(tasks, n + 1);
    }
    assert tasks[..n + 1][..n] == tasks[..n];
  }

  /** The number of non-nil tasks. */
  function NonNilCount(tasks: seq<Option<nat>>): (c: nat)
    ensures c <= |tasks|
  {
    if tasks == [] then 0 else NonNilCount(tasks[..|tasks| - 1]) + (if tasks[|tasks| - 1].Some? then 1 else 0)
  }

  lemma NonNilCountStep(tasks: seq<Option<nat>>, i: nat)
    requires i < |tasks|
    ensures NonNilCount(tasks[..i + 1]) == NonNilCount(tasks[..i]) + (if tasks[i].Some? then 1 else 0)
  {
    assert tasks[..i + 1][..i] == tasks[..i];
  }

  /** A prefix has no more non-nil tasks than the whole batch. */
  lemma {:induction false} NonNilCountPrefix(tasks: seq<Option<nat>>, i: nat)
    requires i <= |tasks|
    ensures NonNilCount(tasks[..i]) <= NonNilCount(tasks)
    decreases |tasks| - i
  {
    if i < |tasks| {
      NonNilCountStep(tasks, i);
      NonNilCountPrefix(tasks, i + 1);
    } else {
      assert tasks[..i] == tasks;
    }
  }

  /** Every pool error has its own message among the fixed ones. */
  lemma SentinelMessagesDistinct()
    ensures Message(PoolClosed) != Message(PoolFull)
    ensures Message(PoolClosed) != Message(TaskTimeout)
    ensures Message(PoolFull) != Message(TaskTimeout)
    ensures Message(NilTask) != Message(PoolClosed) && Message(NilTask) != Message(PoolFull)
  {
  }

  /**
   * pool_test.go's TestQueueFullError scenario: with QueueSize 2 and no worker
   * taking tasks, two submissions succeed and the third is refused with ErrPoolFull.
   */
  method QueueFullScenario() returns (e1: Option<PoolError>, e2: Option<PoolError>, e3: Option<PoolError>)
    ensures e1.None? && e2.None? && e3 == Some(PoolFull)
  {
    var p := new Pool(Some(Config(1, 2, Second, 5 * Second, true, false)), 1);
    e1 := p.Submit(Some(0), "task-1");
    e2 := p.Submit(Some(0), "task-2");
    e3 := p.Submit(Some(0), "task-3");
  }

  /** Closing twice: the second Close reports ErrPoolClosed, and later submissions are refused. */
  method DoubleCloseScenario() returns (c1: Option<PoolError>, c2: Option<PoolError>, s: Option<PoolError>)
    ensures c1.None? && c2 == Some(PoolClosed) && s == Some(PoolClosed)
  {
    var p := new Pool(None, 4);
    c1 := p.Close();
    c2 := p.Close();
    s := p.Submit(Some(0), "late");
  }
}
