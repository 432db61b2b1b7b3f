/** The list of received messages between the epoll thread, which pushes one and then submits a task for it
    (net/flyd_socket_request.cc), and the tasks, each of which pops one (logic/flyd_logic.cc). Nothing in a task says which
    message it is for, and pop does not look whether there is one. */
module ReceiveQueue {
  import C = Condition
  import TP = ThreadPool

  /** `arriving` are threads between inMsgRecvQueue and run, `handling` those between the start of a task and its pop.
      `crashed` says that a pop met an empty list. */
  datatype State<M> = State(
    pool: TP.State<()>,
    m_MsgRecvQueue: seq<M>,
    arriving: set<nat>,
    handling: set<nat>,
    received: seq<M>,
    popped: seq<M>,
    crashed: bool)

  datatype Step<M> =
    | Receive(thread: nat, m: M)
    | Submit(thread: nat)
    | Pool(step: TP.Step<()>)
    | Pop(thread: nat)

  /** A thread does one thing at a time. */
  predicate Enabled<M>(s: State<M>, step: Step<M>) {
    match step
    case Receive(t, m) => t !in s.arriving && t !in s.handling && !C.Inside(s.pool.notFull, t)
    case Submit(t) => t in s.arriving && t !in s.handling && !C.Inside(s.pool.notFull, t)
    case Pool(step) =>
      && TP.Enabled(s.pool, step) && !step.CallRun? && !step.RunInline?
      && (step.CallTake? ==> step.thread !in s.handling)
      && (step.Take? ==> step.thread !in s.handling)
    case Pop(t) => t in s.handling
  }

  function Next<M>(s: State<M>, step: Step<M>): State<M>
    requires Enabled(s, step)
  {
    match step
    case Receive(t, m) =>
      s.(m_MsgRecvQueue := s.m_MsgRecvQueue + [m], received := s.received + [m], arriving := s.arriving + {t})
    case Submit(t) =>
      if s.pool.threaded then
        s.(arriving := s.arriving - {t}, pool := TP.Next(s.pool, TP.CallRun(t, ())))
      else
        s.(arriving := s.arriving - {t}, pool := TP.Next(s.pool, TP.RunInline(())), handling := s.handling + {t})
    case Pool(step) =>
      s.(pool := TP.Next(s.pool, step),
         handling := if step.Take? && s.pool.queue != [] then s.handling + {step.thread} else s.handling)
    case Pop(t) =>
      if s.m_MsgRecvQueue == [] then s.(crashed := true) else
      s.(m_MsgRecvQueue := s.m_MsgRecvQueue[1..],
         popped := s.popped + [s.m_MsgRecvQueue[0]],
         handling := s.handling - {t})
  }

  predicate Enabling<M>(s: State<M>, steps: seq<Step<M>>)
    decreases steps
  {
    steps == [] || (Enabled(s, steps[0]) && Enabling(Next(s, steps[0]), steps[1..]))
  }

  function Run<M>(s: State<M>, steps: seq<Step<M>>): State<M>
    requires Enabling(s, steps)
    decreases steps
  {
    if steps == [] then s else Run(Next(s, steps[0]), steps[1..])
  }

  function Initial<M>(maxQueueSize: nat, threaded: bool): State<M> {
    State(TP.Initial(maxQueueSize, threaded), [], {}, {}, [], [], false)
  }

  /** One message for every task that is coming, queued, or started and yet to pop. */
  ghost predicate Inv<M>(s: State<M>) {
    && TP.Inv(s.pool) && !s.crashed
    && s.popped + s.m_MsgRecvQueue == s.received
    && |s.m_MsgRecvQueue| == |s.arriving| + |C.Callers(s.pool.notFull)| + |s.pool.queue| + |s.handling|
  }

  /** A step of the pool moves a task from the callers to the queue, or from the queue to a worker, or none. */
  lemma PoolCounts(pool: TP.State<()>, step: TP.Step<()>)
    requires TP.Inv(pool) && TP.Enabled(pool, step) && !step.CallRun? && !step.RunInline?
    ensures var next := TP.Next(pool, step);
            |C.Callers(next.notFull)| + |next.queue| + (if step.Take? && pool.queue != [] then 1 else 0)
            == |C.Callers(pool.notFull)| + |pool.queue|
  {
    match step
    case Run(t, woken) =>
      if TP.Full(pool) {
        C.Stayed(pool.notFull, t);
      } else {
        C.Left(pool.notFull, t);
      }
    case Take(t, woken) => C.Stayed(pool.notFull, woken);
    case SpuriousRun(t) => C.Stayed(pool.notFull, t);
    case CallTake(t) =>
    case SpuriousTake(t) =>
    case Stop =>
  }

  lemma PoolInv<M>(s: State<M>, step: TP.Step<()>)
    requires Inv(s) && Enabled(s, Pool(step))
    ensures Inv(Next(s, Pool(step)))
  {
    TP.InvStep(s.pool, step);
    PoolCounts(s.pool, step);
    assert step.Take? ==> |s.handling + {step.thread}| == |s.handling| + 1;
  }

  lemma InvStep<M>(s: State<M>, step: Step<M>)
    requires Inv(s) && Enabled(s, step)
    ensures Inv(Next(s, step))
  {
    match step
    case Receive(t, m) => assert s.popped + (s.m_MsgRecvQueue + [m]) == s.popped + s.m_MsgRecvQueue + [m];
    case Submit(t) =>
      if s.pool.threaded {
        TP.InvStep(s.pool, TP.CallRun(t, ()));
        C.Arrived(s.pool.notFull, t);
      } else {
        TP.InvStep(s.pool, TP.RunInline(()));
      }
    case Pool(p) => PoolInv(s, p);
    case Pop(t) =>
      assert |s.handling| > 0;
      assert s.popped + [s.m_MsgRecvQueue[0]] + s.m_MsgRecvQueue[1..] == s.popped + s.m_MsgRecvQueue;
  }

  lemma {:induction false} RunInv<M>(s: State<M>, steps: seq<Step<M>>)
    requires Inv(s) && Enabling(s, steps)
    ensures Inv(Run(s, steps))
    decreases steps
  {
    if steps != [] {
      InvStep(s, steps[0]);
      RunInv(Next(s, steps[0]), steps[1..]);
    }
  }

  /** The messages received in a run, and how many pops there were. */
  function Messages<M>(steps: seq<Step<M>>): seq<M>
    decreases steps
  {
    if steps == [] then [] else (if steps[0].Receive? then [steps[0].m] else []) + Messages(steps[1..])
  }

  function Pops<M>(steps: seq<Step<M>>): nat
    decreases steps
  {
    if steps == [] then 0 else (if steps[0].Pop? then 1 else 0) + Pops(steps[1..])
  }

  lemma {:induction false} HistoryIs<M>(s: State<M>, steps: seq<Step<M>>)
    requires Inv(s) && Enabling(s, steps)
    ensures Run(s, steps).received == s.received + Messages(steps)
    ensures |Run(s, steps).popped| == |s.popped| + Pops(steps)
    decreases steps
  {
    if steps != [] {
      InvStep(s, steps[0]);
      HistoryStep(s, steps[0]);
      HistoryIs(Next(s, steps[0]), steps[1..]);
      Associate(s.received, if steps[0].Receive? then [steps[0].m] else [], Messages(steps[1..]));
    }
  }

  lemma HistoryStep<M>(s: State<M>, step: Step<M>)
    requires Inv(s) && Enabled(s, step) && Inv(Next(s, step))
    ensures Next(s, step).received == s.received + if step.Receive? then [step.m] else []
    ensures |Next(s, step).popped| == |s.popped| + if step.Pop? then 1 else 0
  {}

  lemma Associate<M>(a: seq<M>, b: seq<M>, c: seq<M>)
    ensures a + b + c == a + (b + c)
  {}

  /** However the threads are interleaved, every task finds a message, and the messages are handled in the order in which
      they came, each once. */
  lemma EveryTaskFindsItsMessage<M>(maxQueueSize: nat, threaded: bool, steps: seq<Step<M>>)
    requires Enabling(Initial(maxQueueSize, threaded), steps)
    ensures var s := Run(Initial(maxQueueSize, threaded), steps);
            && !s.crashed
            && (s.handling != {} ==> s.m_MsgRecvQueue != [])
            && s.popped + s.m_MsgRecvQueue == Messages(steps) && |s.popped| == Pops(steps)
  {
    RunInv(Initial(maxQueueSize, threaded), steps);
    InitialInv<M>(maxQueueSize, threaded);
    HistoryIs(Initial<M>(maxQueueSize, threaded), steps);
    var s := Run(Initial<M>(maxQueueSize, threaded), steps);
    assert s.handling != {} ==> |s.handling| > 0;
    assert s.received == [] + Messages(steps) == Messages(steps);
  }

  lemma InitialInv<M>(maxQueueSize: nat, threaded: bool)
    ensures Inv(Initial<M>(maxQueueSize, threaded))
  {}

  /** When all tasks have been started and have popped, all messages have been handled. */
  lemma NothingIsLeft<M>(maxQueueSize: nat, threaded: bool, steps: seq<Step<M>>)
    requires Enabling(Initial(maxQueueSize, threaded), steps)
    ensures var s := Run(Initial(maxQueueSize, threaded), steps);
            s.popped == s.received <==> s.arriving == s.handling == C.Callers(s.pool.notFull) == {} && s.pool.queue == []
  {
    RunInv(Initial(maxQueueSize, threaded), steps);
    var s := Run(Initial<M>(maxQueueSize, threaded), steps);
    if s.m_MsgRecvQueue == [] {
      assert s.popped + [] == s.popped;
    } else {
      assert |s.popped| < |s.received|;
    }
  }
}
