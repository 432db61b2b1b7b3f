/** logging/BoundedBlockingQueue.h: a monitor with two condition variables, for any number of producers and consumers. */
module BoundedQueue {
  import C = Condition

  /** `putting` is what each thread in put brings. The histories are what was put and taken so far, in order. */
  datatype State<T> = State(
    capacity: nat,
    queue: seq<T>,
    putting: map<nat, T>,
    notFull: C.Cond,
    notEmpty: C.Cond,
    puts: seq<T>,
    taken: seq<T>)

  /** Put and Take are what a thread does with the mutex, each time it gets it: go on, or wait. */
  datatype Step<T> =
    | CallPut(thread: nat, x: T)
    | CallTake(thread: nat)
    | Put(thread: nat, woken: nat)
    | Take(thread: nat, woken: nat)
    | SpuriousPut(thread: nat)
    | SpuriousTake(thread: nat)

  predicate Full<T>(s: State<T>) { |s.queue| == s.capacity }

  predicate Enabled<T>(s: State<T>, step: Step<T>) {
    match step
    case CallPut(t, x) => !C.Inside(s.notFull, t) && !C.Inside(s.notEmpty, t)
    case CallTake(t) => !C.Inside(s.notFull, t) && !C.Inside(s.notEmpty, t)
    case Put(t, woken) => C.Awake(s.notFull, t) && t in s.putting && C.Wakes(s.notEmpty, woken)
    case Take(t, woken) => C.Awake(s.notEmpty, t) && C.Wakes(s.notFull, woken)
    case SpuriousPut(t) => t in s.notFull.waiting
    case SpuriousTake(t) => t in s.notEmpty.waiting
  }

  function Next<T>(s: State<T>, step: Step<T>): State<T>
    requires Enabled(s, step)
  {
    match step
    case CallPut(t, x) => s.(putting := s.putting[t := x], notFull := C.Arrive(s.notFull, t))
    case CallTake(t) => s.(notEmpty := C.Arrive(s.notEmpty, t))
    case Put(t, woken) =>
      if Full(s) then s.(notFull := C.Wait(s.notFull, t)) else
      s.(queue := s.queue + [s.putting[t]],
         puts := s.puts + [s.putting[t]],
         notFull := C.Leave(s.notFull, t),
         notEmpty := C.Notify(s.notEmpty, woken))
    case Take(t, woken) =>
      if s.queue == [] then s.(notEmpty := C.Wait(s.notEmpty, t)) else
      s.(queue := s.queue[1..],
         taken := s.taken + [s.queue[0]],
         notEmpty := C.Leave(s.notEmpty, t),
         notFull := C.Notify(s.notFull, woken))
    case SpuriousPut(t) => s.(notFull := C.Spurious(s.notFull, t))
    case SpuriousTake(t) => s.(notEmpty := C.Spurious(s.notEmpty, t))
  }

  predicate Enabling<T>(s: State<T>, steps: seq<Step<T>>)
    decreases steps
  {
    steps == [] || (Enabled(s, steps[0]) && Enabling(Next(s, steps[0]), steps[1..]))
  }

  function Run<T>(s: State<T>, steps: seq<Step<T>>): State<T>
    requires Enabling(s, steps)
    decreases steps
  {
    if steps == [] then s else Run(Next(s, steps[0]), steps[1..])
  }

  function Initial<T>(capacity: nat): State<T> {
    State(capacity, [], map[], C.None(), C.None(), [], [])
  }

  /** No wakeup is lost: a consumer waits only while all items, a producer only while all free places, are spoken for. */
  ghost predicate Inv<T>(s: State<T>) {
    && C.Valid(s.notFull) && C.Valid(s.notEmpty)
    && |s.queue| <= s.capacity
    && s.taken + s.queue == s.puts
    && C.Covered(s.notEmpty, |s.queue|)
    && C.Covered(s.notFull, s.capacity - |s.queue|)
    && forall t :: C.Inside(s.notFull, t) ==> t in s.putting
  }

  lemma PutInv<T>(s: State<T>, t: nat, woken: nat)
    requires Inv(s) && Enabled(s, Put(t, woken))
    ensures Inv(Next(s, Put(t, woken)))
  {
    if Full(s) {
      C.WaitCovers(s.notFull, t);
    } else {
      C.LeaveCovers(s.notFull, t, s.capacity - |s.queue|);
      C.NotifyCovers(s.notEmpty, woken, |s.queue|);
      assert s.taken + (s.queue + [s.putting[t]]) == s.taken + s.queue + [s.putting[t]];
    }
  }

  lemma TakeInv<T>(s: State<T>, t: nat, woken: nat)
    requires Inv(s) && Enabled(s, Take(t, woken))
    ensures Inv(Next(s, Take(t, woken)))
  {
    if s.queue == [] {
      C.WaitCovers(s.notEmpty, t);
    } else {
      C.LeaveCovers(s.notEmpty, t, |s.queue|);
      C.NotifyCovers(s.notFull, woken, s.capacity - |s.queue|);
      assert s.taken + [s.queue[0]] + s.queue[1..] == s.taken + s.queue;
    }
  }

  lemma InvStep<T>(s: State<T>, step: Step<T>)
    requires Inv(s) && Enabled(s, step)
    ensures Inv(Next(s, step))
  {
    match step
    case CallPut(t, x) => C.ArriveCovers(s.notFull, t, s.capacity - |s.queue|);
    case CallTake(t) => C.ArriveCovers(s.notEmpty, t, |s.queue|);
    case Put(t, woken) => PutInv(s, t, woken);
    case Take(t, woken) => TakeInv(s, t, woken);
    case SpuriousPut(t) => C.SpuriousCovers(s.notFull, t, s.capacity - |s.queue|);
    case SpuriousTake(t) => C.SpuriousCovers(s.notEmpty, t, |s.queue|);
  }

  lemma {:induction false} RunInv<T>(s: State<T>, steps: seq<Step<T>>)
    requires Inv(s) && Enabling(s, steps)
    ensures Inv(Run(s, steps))
    decreases steps
  {
    if steps != [] {
      InvStep(s, steps[0]);
      RunInv(Next(s, steps[0]), steps[1..]);
    }
  }

  lemma {:induction false} RunKeepsCapacity<T>(s: State<T>, steps: seq<Step<T>>)
    requires Enabling(s, steps)
    ensures Run(s, steps).capacity == s.capacity
    decreases steps
  {
    if steps != [] {
      RunKeepsCapacity(Next(s, steps[0]), steps[1..]);
    }
  }

  /** The calls of put and of take in a run. */
  function PutCalls<T>(steps: seq<Step<T>>): nat
    decreases steps
  {
    if steps == [] then 0 else (if steps[0].CallPut? then 1 else 0) + PutCalls(steps[1..])
  }

  function TakeCalls<T>(steps: seq<Step<T>>): nat
    decreases steps
  {
    if steps == [] then 0 else (if steps[0].CallTake? then 1 else 0) + TakeCalls(steps[1..])
  }

  /** A turn that does not wait finishes one call with one item; every other step keeps the thread in its call. */
  lemma CallsStep<T>(s: State<T>, step: Step<T>)
    requires Inv(s) && Enabled(s, step)
    ensures var t := Next(s, step);
            && |t.puts| + |C.Callers(t.notFull)| == |s.puts| + |C.Callers(s.notFull)| + (if step.CallPut? then 1 else 0)
            && |t.taken| + |C.Callers(t.notEmpty)| == |s.taken| + |C.Callers(s.notEmpty)| + (if step.CallTake? then 1 else 0)
  {
    match step
    case CallPut(t, x) => C.Arrived(s.notFull, t);
    case CallTake(t) => C.Arrived(s.notEmpty, t);
    case Put(t, woken) =>
      C.Stayed(s.notEmpty, woken);
      if Full(s) { C.Stayed(s.notFull, t); } else { C.Left(s.notFull, t); }
    case Take(t, woken) =>
      C.Stayed(s.notFull, woken);
      if s.queue == [] { C.Stayed(s.notEmpty, t); } else { C.Left(s.notEmpty, t); }
    case SpuriousPut(t) => C.Stayed(s.notFull, t);
    case SpuriousTake(t) => C.Stayed(s.notEmpty, t);
  }

  lemma {:induction false} CallsRun<T>(s: State<T>, steps: seq<Step<T>>)
    requires Inv(s) && Enabling(s, steps)
    ensures |Run(s, steps).puts| + |C.Callers(Run(s, steps).notFull)| == |s.puts| + |C.Callers(s.notFull)| + PutCalls(steps)
    ensures |Run(s, steps).taken| + |C.Callers(Run(s, steps).notEmpty)|
            == |s.taken| + |C.Callers(s.notEmpty)| + TakeCalls(steps)
    decreases steps
  {
    if steps != [] {
      InvStep(s, steps[0]);
      CallsStep(s, steps[0]);
      CallsRun(Next(s, steps[0]), steps[1..]);
    }
  }

  /** Every call has put or taken one item, or its thread is still in it. */
  lemma EveryCallCounts<T>(capacity: nat, steps: seq<Step<T>>)
    requires Enabling(Initial(capacity), steps)
    ensures var s := Run(Initial(capacity), steps);
            && PutCalls(steps) == |s.puts| + |C.Callers(s.notFull)|
            && TakeCalls(steps) == |s.taken| + |C.Callers(s.notEmpty)|
  {
    InitialInv<T>(capacity);
    CallsRun(Initial<T>(capacity), steps);
  }

  lemma InitialInv<T>(capacity: nat)
    ensures Inv(Initial<T>(capacity))
  {}

  /** A thread that has not called again is in its call, or has left it for good. */
  predicate NotCalledAgain<T>(steps: seq<Step<T>>, t: nat) {
    forall i :: 0 <= i < |steps| && steps[i].CallPut? ==> steps[i].thread != t
  }

  lemma {:induction false} BringsTheSame<T>(s: State<T>, steps: seq<Step<T>>, t: nat)
    requires Enabling(s, steps) && t in s.putting && NotCalledAgain(steps, t)
    ensures t in Run(s, steps).putting && Run(s, steps).putting[t] == s.putting[t]
    decreases steps
  {
    if steps != [] {
      assert !steps[0].CallPut? || steps[0].thread != t;
      assert forall i :: 0 <= i < |steps[1..]| ==> steps[1..][i] == steps[i + 1];
      BringsTheSame(Next(s, steps[0]), steps[1..], t);
    }
  }

  /** What put was called with is what it puts, at the end of the queue, however long it has had to wait. */
  lemma PutsItsArgument<T>(s: State<T>, t: nat, x: T, steps: seq<Step<T>>, woken: nat)
    requires Enabled(s, CallPut(t, x)) && Enabling(Next(s, CallPut(t, x)), steps) && NotCalledAgain(steps, t)
    requires Enabled(Run(Next(s, CallPut(t, x)), steps), Put(t, woken))
    ensures var before := Run(Next(s, CallPut(t, x)), steps);
            var after := Next(before, Put(t, woken));
            if |before.queue| == before.capacity then after.queue == before.queue && t in after.notFull.waiting
            else after.queue == before.queue + [x] && after.puts == before.puts + [x] && !C.Awake(after.notFull, t)
  {
    BringsTheSame(Next(s, CallPut(t, x)), steps, t);
  }

  /** Whatever the threads do: what was taken and then what is queued is what was put, in order, and the queue never
      outgrows its capacity. */
  lemma FifoAlways<T>(capacity: nat, steps: seq<Step<T>>)
    requires Enabling(Initial(capacity), steps)
    ensures var s := Run(Initial(capacity), steps); s.taken + s.queue == s.puts && |s.queue| <= capacity
  {
    RunInv(Initial(capacity), steps);
    RunKeepsCapacity(Initial(capacity), steps);
  }

  /** A consumer sleeps and there is an item that no woken consumer is coming for, or the same of a producer. */
  predicate LostWakeup<T>(s: State<T>) {
    || (s.notEmpty.waiting != {} && |s.queue| > |s.notEmpty.signalled|)
    || (s.notFull.waiting != {} && s.capacity - |s.queue| > |s.notFull.signalled|)
  }

  lemma NoLostWakeup<T>(capacity: nat, steps: seq<Step<T>>)
    requires Enabling(Initial(capacity), steps)
    ensures !LostWakeup(Run(Initial(capacity), steps))
  {
    RunInv(Initial(capacity), steps);
  }

  /** Consumers and producers all sleep, and nobody has been woken. */
  predicate AllBlocked<T>(s: State<T>) {
    && s.notEmpty.waiting != {} && s.notFull.waiting != {}
    && s.notEmpty.signalled == {} && s.notFull.signalled == {}
    && s.notEmpty.ready == {} && s.notFull.ready == {}
  }

  ghost predicate CanBlock<T(!new)>(capacity: nat) {
    exists steps: seq<Step<T>> :: Enabling(Initial(capacity), steps) && AllBlocked(Run(Initial(capacity), steps))
  }

  /** All can block each other if and only if the capacity is zero. */
  lemma DeadlockOnlyWithoutCapacity<T(!new)>(capacity: nat, x: T)
    ensures CanBlock<T>(capacity) <==> capacity == 0
  {
    if capacity == 0 {
      var calls: seq<Step<T>> := [CallTake(1), Take(1, 0), CallPut(2, x), Put(2, 1)];
      BlockedRun(Initial(capacity), calls, x);
    } else {
      forall steps: seq<Step<T>> | Enabling(Initial(capacity), steps)
        ensures !AllBlocked(Run(Initial(capacity), steps))
      {
        RunInv(Initial(capacity), steps);
        RunKeepsCapacity(Initial<T>(capacity), steps);
      }
    }
  }

  lemma BlockedRun<T>(s: State<T>, steps: seq<Step<T>>, x: T)
    requires s == Initial(0) && steps == [CallTake(1), Take(1, 0), CallPut(2, x), Put(2, 1)]
    ensures Enabling(s, steps) && AllBlocked(Run(s, steps))
  {
    var a := Next(s, steps[0]);
    var b := Next(a, steps[1]);
    var c := Next(b, steps[2]);
    var d := Next(c, steps[3]);
    assert steps[1..][1..][1..][1..] == [];
    assert Enabling(d, steps[1..][1..][1..][1..]) && Run(d, steps[1..][1..][1..][1..]) == d;
    assert Enabling(c, steps[1..][1..][1..]) && Run(c, steps[1..][1..][1..]) == d;
    assert Enabling(b, steps[1..][1..]) && Run(b, steps[1..][1..]) == d;
    assert Enabling(a, steps[1..]) && Run(a, steps[1..]) == d;
  }

  /** The queue itself. A method below is what a call does from getting the mutex to giving it up: `woken` is whom the
      kernel picks for a notification, and a result of false says that the thread waits, and will do it again. */
  class BoundedBlockingQueue<T> {
    const capacity: nat
    var queue_: seq<T>
    ghost var putting: map<nat, T>
    ghost var notFull_: C.Cond
    ghost var notEmpty_: C.Cond
    ghost var puts: seq<T>
    ghost var taken: seq<T>

    ghost function View(): State<T>
      reads this
    {
      State(capacity, queue_, putting, notFull_, notEmpty_, puts, taken)
    }

    constructor (maxSize: nat)
      ensures View() == Initial(maxSize)
    {
      capacity, queue_ := maxSize, [];
      putting, notFull_, notEmpty_, puts, taken := map[], C.None(), C.None(), [], [];
    }

    method PutTurn(x: T, ghost thread: nat, ghost woken: nat) returns (done: bool)
      requires Enabled(View(), Put(thread, woken)) && putting[thread] == x
      modifies this
      ensures View() == Next(old(View()), Put(thread, woken))
      ensures done == (|old(queue_)| != capacity)
      ensures queue_ == if done then old(queue_) + [x] else old(queue_)
      ensures !done ==> thread in notFull_.waiting
    {
      if |queue_| == capacity {
        notFull_ := C.Wait(notFull_, thread);
        return false;
      }
      queue_ := queue_ + [x];
      puts, notFull_, notEmpty_ := puts + [x], C.Leave(notFull_, thread), C.Notify(notEmpty_, woken);
      return true;
    }

    /** `front` is what was taken, if anything. */
    method TakeTurn(ghost thread: nat, ghost woken: nat) returns (done: bool, front: seq<T>)
      requires Enabled(View(), Take(thread, woken))
      modifies this
      ensures View() == Next(old(View()), Take(thread, woken))
      ensures done == (old(queue_) != [])
      ensures taken == old(taken) + front && (done ==> front == [old(queue_)[0]] && queue_ == old(queue_)[1..])
      ensures !done ==> front == [] && thread in notEmpty_.waiting
    {
      if queue_ == [] {
        notEmpty_ := C.Wait(notEmpty_, thread);
        return false, [];
      }
      front := queue_[..1];
      queue_ := queue_[1..];
      taken, notEmpty_, notFull_ := taken + front, C.Leave(notEmpty_, thread), C.Notify(notFull_, woken);
      return true, front;
    }
  }
}
