/** logging/ThreadPool.h: tasks for worker threads, started in the order in which they were submitted. */
module ThreadPool {
  import C = Condition

  /** `threaded` says that start was given threads; `bringing` is the task of each thread in run. */
  datatype State<T> = State(
    maxQueueSize: nat,
    threaded: bool,
    running: bool,
    queue: seq<T>,
    bringing: map<nat, T>,
    notFull: C.Cond,
    notEmpty: C.Cond,
    submitted: seq<T>,
    started: seq<T>)

  /** CallTake is a worker that has seen running_ and goes into take; Run and Take are turns with the mutex. */
  datatype Step<T> =
    | RunInline(task: T)
    | CallRun(thread: nat, task: T)
    | Run(thread: nat, woken: nat)
    | CallTake(thread: nat)
    | Take(thread: nat, woken: nat)
    | SpuriousRun(thread: nat)
    | SpuriousTake(thread: nat)
    | Stop

  predicate Full<T>(s: State<T>) { s.maxQueueSize > 0 && |s.queue| >= s.maxQueueSize }

  predicate Enabled<T>(s: State<T>, step: Step<T>) {
    match step
    case RunInline(task) => !s.threaded
    case CallRun(t, task) => s.threaded && !C.Inside(s.notFull, t)
    case Run(t, woken) => C.Awake(s.notFull, t) && t in s.bringing && C.Wakes(s.notEmpty, woken)
    case CallTake(t) => s.threaded && s.running && !C.Inside(s.notEmpty, t)
    case Take(t, woken) => C.Awake(s.notEmpty, t) && C.Wakes(s.notFull, woken)
    case SpuriousRun(t) => t in s.notFull.waiting
    case SpuriousTake(t) => t in s.notEmpty.waiting
    case Stop => true
  }

  function Next<T>(s: State<T>, step: Step<T>): State<T>
    requires Enabled(s, step)
  {
    match step
    case RunInline(task) => s.(submitted := s.submitted + [task], started := s.started + [task])
    case CallRun(t, task) => s.(bringing := s.bringing[t := task], notFull := C.Arrive(s.notFull, t))
    case Run(t, woken) =>
      if Full(s) then s.(notFull := C.Wait(s.notFull, t)) else
      s.(queue := s.queue + [s.bringing[t]],
         submitted := s.submitted + [s.bringing[t]],
         notFull := C.Leave(s.notFull, t),
         notEmpty := C.Notify(s.notEmpty, woken))
    case CallTake(t) => s.(notEmpty := C.Arrive(s.notEmpty, t))
    case Take(t, woken) =>
      if s.queue == [] && s.running then s.(notEmpty := C.Wait(s.notEmpty, t))
      else if s.queue == [] then s.(notEmpty := C.Leave(s.notEmpty, t))
      else
      s.(queue := s.queue[1..],
         started := s.started + [s.queue[0]],
         notEmpty := C.Leave(s.notEmpty, t),
         notFull := if s.maxQueueSize > 0 then C.Notify(s.notFull, woken) else s.notFull)
    case SpuriousRun(t) => s.(notFull := C.Spurious(s.notFull, t))
    case SpuriousTake(t) => s.(notEmpty := C.Spurious(s.notEmpty, t))
    case Stop => s.(running := false, notEmpty := C.NotifyAll(s.notEmpty))
  }

  predicate Enabling<T>(s: State<T>, steps: seq<Step<T>>)
    decreases steps
  {
    steps == [] || (Enabled(s, steps[0]) && Enabling(Next(s, steps[0]), steps[1..]))
  }

  function After<T>(s: State<T>, steps: seq<Step<T>>): State<T>
    requires Enabling(s, steps)
    decreases steps
  {
    if steps == [] then s else After(Next(s, steps[0]), steps[1..])
  }

  function Initial<T>(maxQueueSize: nat, threaded: bool): State<T> {
    State(maxQueueSize, threaded, true, [], map[], C.None(), C.None(), [], [])
  }

  /** Nothing is lost or reordered, no wakeup is lost on either side, and a stopped pool lets no worker sleep. */
  ghost predicate Inv<T>(s: State<T>) {
    && C.Valid(s.notFull) && C.Valid(s.notEmpty)
    && s.started + s.queue == s.submitted
    && C.Covered(s.notEmpty, |s.queue|)
    && (if s.maxQueueSize == 0 then s.notFull.waiting == {}
        else |s.queue| <= s.maxQueueSize && C.Covered(s.notFull, s.maxQueueSize - |s.queue|))
    && (!s.running ==> s.notEmpty.waiting == {})
    && (!s.threaded ==> s.queue == [] && s.notFull == C.None())
    && forall t :: C.Inside(s.notFull, t) ==> t in s.bringing
  }

  lemma RunWaits<T>(s: State<T>, t: nat, woken: nat)
    requires Inv(s) && Enabled(s, Run(t, woken)) && Full(s)
    ensures Inv(Next(s, Run(t, woken)))
  {
    C.WaitCovers(s.notFull, t);
  }

  lemma RunSubmits<T>(s: State<T>, t: nat, woken: nat)
    requires Inv(s) && Enabled(s, Run(t, woken)) && !Full(s)
    ensures Inv(Next(s, Run(t, woken)))
  {
    if s.maxQueueSize > 0 {
      C.LeaveCovers(s.notFull, t, s.maxQueueSize - |s.queue|);
    }
    C.NotifyCovers(s.notEmpty, woken, |s.queue|);
    assert s.started + (s.queue + [s.bringing[t]]) == s.started + s.queue + [s.bringing[t]];
  }

  lemma RunInv<T>(s: State<T>, t: nat, woken: nat)
    requires Inv(s) && Enabled(s, Run(t, woken))
    ensures Inv(Next(s, Run(t, woken)))
  {
    if Full(s) {
      RunWaits(s, t, woken);
    } else {
      RunSubmits(s, t, woken);
    }
  }

  lemma TakeInv<T>(s: State<T>, t: nat, woken: nat)
    requires Inv(s) && Enabled(s, Take(t, woken))
    ensures Inv(Next(s, Take(t, woken)))
  {
    if s.queue == [] && s.running {
      C.WaitCovers(s.notEmpty, t);
    } else {
      C.LeaveCovers(s.notEmpty, t, |s.queue|);
      if s.queue != [] {
        if s.maxQueueSize > 0 {
          C.NotifyCovers(s.notFull, woken, s.maxQueueSize - |s.queue|);
        }
        assert s.started + [s.queue[0]] + s.queue[1..] == s.started + s.queue;
      }
    }
  }

  lemma InvStep<T>(s: State<T>, step: Step<T>)
    requires Inv(s) && Enabled(s, step)
    ensures Inv(Next(s, step))
  {
    match step
    case RunInline(task) => assert s.started + [] == s.submitted;
    case CallRun(t, task) => C.ArriveCovers(s.notFull, t, s.maxQueueSize - |s.queue|);
    case Run(t, woken) => RunInv(s, t, woken);
    case CallTake(t) => C.ArriveCovers(s.notEmpty, t, |s.queue|);
    case Take(t, woken) => TakeInv(s, t, woken);
    case SpuriousRun(t) => C.SpuriousCovers(s.notFull, t, s.maxQueueSize - |s.queue|);
    case SpuriousTake(t) => C.SpuriousCovers(s.notEmpty, t, |s.queue|);
    case Stop => C.NotifyAllWakes(s.notEmpty, 0);
  }

  lemma {:induction false} AfterInv<T>(s: State<T>, steps: seq<Step<T>>)
    requires Inv(s) && Enabling(s, steps)
    ensures Inv(After(s, steps))
    decreases steps
  {
    if steps != [] {
      InvStep(s, steps[0]);
      AfterInv(Next(s, steps[0]), steps[1..]);
    }
  }

  /** The calls of run, with and without threads, and of take. */
  function RunCalls<T>(steps: seq<Step<T>>): nat
    decreases steps
  {
    if steps == [] then 0 else (if steps[0].CallRun? || steps[0].RunInline? then 1 else 0) + RunCalls(steps[1..])
  }

  lemma CallsStep<T>(s: State<T>, step: Step<T>)
    requires Inv(s) && Enabled(s, step)
    ensures var t := Next(s, step);
            |t.submitted| + |C.Callers(t.notFull)|
            == |s.submitted| + |C.Callers(s.notFull)| + (if step.CallRun? || step.RunInline? then 1 else 0)
  {
    match step
    case RunInline(task) =>
    case CallRun(t, task) => C.Arrived(s.notFull, t);
    case Run(t, woken) => if Full(s) { C.Stayed(s.notFull, t); } else { C.Left(s.notFull, t); }
    case CallTake(t) =>
    case Take(t, woken) => C.Stayed(s.notFull, woken);
    case SpuriousRun(t) => C.Stayed(s.notFull, t);
    case SpuriousTake(t) =>
    case Stop =>
  }

  lemma {:induction false} CallsRun<T>(s: State<T>, steps: seq<Step<T>>)
    requires Inv(s) && Enabling(s, steps)
    ensures |After(s, steps).submitted| + |C.Callers(After(s, steps).notFull)|
            == |s.submitted| + |C.Callers(s.notFull)| + RunCalls(steps)
    decreases steps
  {
    if steps != [] {
      InvStep(s, steps[0]);
      CallsStep(s, steps[0]);
      CallsRun(Next(s, steps[0]), steps[1..]);
    }
  }

  lemma InitialInv<T>(maxQueueSize: nat, threaded: bool)
    ensures Inv(Initial<T>(maxQueueSize, threaded))
  {}

  /** Every call of run has submitted one task, or its thread is still in it, waiting for room. */
  lemma EveryCallCounts<T>(maxQueueSize: nat, threaded: bool, steps: seq<Step<T>>)
    requires Enabling(Initial(maxQueueSize, threaded), steps)
    ensures var s := After(Initial(maxQueueSize, threaded), steps);
            RunCalls(steps) == |s.submitted| + |C.Callers(s.notFull)|
  {
    InitialInv<T>(maxQueueSize, threaded);
    CallsRun(Initial<T>(maxQueueSize, threaded), steps);
  }

  predicate NotCalledAgain<T>(steps: seq<Step<T>>, t: nat) {
    forall i :: 0 <= i < |steps| && steps[i].CallRun? ==> steps[i].thread != t
  }

  lemma {:induction false} BringsTheSame<T>(s: State<T>, steps: seq<Step<T>>, t: nat)
    requires Enabling(s, steps) && t in s.bringing && NotCalledAgain(steps, t)
    ensures t in After(s, steps).bringing && After(s, steps).bringing[t] == s.bringing[t]
    decreases steps
  {
    if steps != [] {
      assert !steps[0].CallRun? || steps[0].thread != t;
      assert forall i :: 0 <= i < |steps[1..]| ==> steps[1..][i] == steps[i + 1];
      BringsTheSame(Next(s, steps[0]), steps[1..], t);
    }
  }

  /** What run was called with is what it submits, at the end of the queue, as soon as there is room or no limit. */
  lemma SubmitsItsArgument<T>(s: State<T>, t: nat, task: T, steps: seq<Step<T>>, woken: nat)
    requires Enabled(s, CallRun(t, task)) && Enabling(Next(s, CallRun(t, task)), steps) && NotCalledAgain(steps, t)
    requires Enabled(After(Next(s, CallRun(t, task)), steps), Run(t, woken))
    ensures var before := After(Next(s, CallRun(t, task)), steps);
            var after := Next(before, Run(t, woken));
            if 0 < before.maxQueueSize <= |before.queue| then after.queue == before.queue && t in after.notFull.waiting
            else after.queue == before.queue + [task] && after.submitted == before.submitted + [task]
  {
    BringsTheSame(Next(s, CallRun(t, task)), steps, t);
  }

  lemma {:induction false} KeepsLimit<T>(s: State<T>, steps: seq<Step<T>>)
    requires Enabling(s, steps)
    ensures After(s, steps).maxQueueSize == s.maxQueueSize
    decreases steps
  {
    if steps != [] {
      KeepsLimit(Next(s, steps[0]), steps[1..]);
    }
  }

  /** In every run: the started tasks and then the queued ones are the submitted ones, in order, each once. */
  lemma TasksInOrder<T>(maxQueueSize: nat, threaded: bool, steps: seq<Step<T>>)
    requires Enabling(Initial(maxQueueSize, threaded), steps)
    ensures var s := After(Initial(maxQueueSize, threaded), steps);
            s.started + s.queue == s.submitted && (maxQueueSize > 0 ==> |s.queue| <= maxQueueSize)
  {
    AfterInv(Initial(maxQueueSize, threaded), steps);
    KeepsLimit(Initial<T>(maxQueueSize, threaded), steps);
  }

  /** A worker sleeps only while the pool runs and every queued task is spoken for; so once stop has been called, none
      sleeps, and none falls asleep again. */
  lemma WorkersAreWoken<T>(maxQueueSize: nat, threaded: bool, steps: seq<Step<T>>)
    requires Enabling(Initial(maxQueueSize, threaded), steps)
    ensures var s := After(Initial(maxQueueSize, threaded), steps);
            s.notEmpty.waiting != {} ==> s.running && |s.queue| <= |s.notEmpty.signalled|
  {
    AfterInv(Initial(maxQueueSize, threaded), steps);
  }

  /** And a thread waits in run only under a limit, while everybody for whom there is room has been woken. */
  lemma ProducersAreWoken<T>(maxQueueSize: nat, threaded: bool, steps: seq<Step<T>>)
    requires Enabling(Initial(maxQueueSize, threaded), steps)
    ensures var s := After(Initial(maxQueueSize, threaded), steps);
            s.notFull.waiting != {} ==> maxQueueSize > 0 && maxQueueSize - |s.queue| <= |s.notFull.signalled|
  {
    AfterInv(Initial(maxQueueSize, threaded), steps);
    KeepsLimit(Initial<T>(maxQueueSize, threaded), steps);
  }

  lemma {:induction false} StoppedForGood<T>(s: State<T>, steps: seq<Step<T>>)
    requires Enabling(s, steps) && Stop in steps
    ensures !After(s, steps).running
    decreases steps
  {
    if steps[0] == Stop {
      StaysStopped(Next(s, steps[0]), steps[1..]);
    } else {
      StoppedForGood(Next(s, steps[0]), steps[1..]);
    }
  }

  lemma {:induction false} StaysStopped<T>(s: State<T>, steps: seq<Step<T>>)
    requires Enabling(s, steps) && !s.running
    ensures !After(s, steps).running
    decreases steps
  {
    if steps != [] {
      StaysStopped(Next(s, steps[0]), steps[1..]);
    }
  }

  lemma AfterStopNobodySleeps<T>(maxQueueSize: nat, threaded: bool, steps: seq<Step<T>>)
    requires Enabling(Initial(maxQueueSize, threaded), steps) && Stop in steps
    ensures After(Initial(maxQueueSize, threaded), steps).notEmpty.waiting == {}
  {
    AfterInv(Initial(maxQueueSize, threaded), steps);
    StoppedForGood(Initial(maxQueueSize, threaded), steps);
  }

  /** The pool itself; a turn is what a thread does from getting the mutex to giving it up, and `done` is false when it
      waits and will have another turn. */
  class ThreadPool<T> {
    const maxQueueSize_: nat
    const threaded: bool
    var queue_: seq<T>
    var running_: bool
    ghost var bringing: map<nat, T>
    ghost var notFull_: C.Cond
    ghost var notEmpty_: C.Cond
    ghost var submitted: seq<T>
    ghost var started: seq<T>

    ghost function View(): State<T>
      reads this
    {
      State(maxQueueSize_, threaded, running_, queue_, bringing, notFull_, notEmpty_, submitted, started)
    }

    /** setMaxQueueSize, then start. */
    constructor (maxSize: nat, numThreads: nat)
      ensures View() == Initial(maxSize, numThreads > 0)
    {
      maxQueueSize_, threaded, running_, queue_ := maxSize, numThreads > 0, true, [];
      bringing, notFull_, notEmpty_, submitted, started := map[], C.None(), C.None(), [], [];
    }

    predicate IsFull()
      reads this
    {
      maxQueueSize_ > 0 && |queue_| >= maxQueueSize_
    }

    method RunTurn(task: T, ghost thread: nat, ghost woken: nat) returns (done: bool)
      requires Enabled(View(), Run(thread, woken)) && bringing[thread] == task
      modifies this
      ensures View() == Next(old(View()), Run(thread, woken))
      ensures done == !(0 < maxQueueSize_ <= |old(queue_)|)
      ensures queue_ == if done then old(queue_) + [task] else old(queue_)
    {
      if IsFull() {
        notFull_ := C.Wait(notFull_, thread);
        return false;
      }
      queue_ := queue_ + [task];
      submitted, notFull_, notEmpty_ := submitted + [task], C.Leave(notFull_, thread), C.Notify(notEmpty_, woken);
      return true;
    }

    /** `task` is what was taken, if anything: a stopped pool with an empty queue gives none. */
    method TakeTurn(ghost thread: nat, ghost woken: nat) returns (done: bool, task: seq<T>)
      requires Enabled(View(), Take(thread, woken))
      modifies this
      ensures View() == Next(old(View()), Take(thread, woken))
      ensures done == (old(queue_) != [] || !old(running_))
      ensures started == old(started) + task && task == if old(queue_) == [] then [] else [old(queue_)[0]]
    {
      task := [];
      if queue_ == [] && running_ {
        notEmpty_ := C.Wait(notEmpty_, thread);
        return false, task;
      }
      notEmpty_ := C.Leave(notEmpty_, thread);
      if queue_ != [] {
        task := queue_[..1];
        queue_ := queue_[1..];
        started := started + task;
        if maxQueueSize_ > 0 {
          notFull_ := C.Notify(notFull_, woken);
        }
      }
      return true, task;
    }

    method StopTurn()
      modifies this
      ensures View() == Next(old(View()), Stop)
      ensures !running_ && notEmpty_.waiting == {} && queue_ == old(queue_)
    {
      running_ := false;
      notEmpty_ := C.NotifyAll(notEmpty_);
    }
  }
}
