/** The connection pool of net/flyd_socket_conn.cc: a list of all connections, of which some are free, some wait
    to be recycled, and the rest are in use. Each step below is one critical section. */
module ConnectionPool {

  const WAIT_TIME := 60

  datatype Conn = Conn(iCurrsequence: nat, fd: int, lastPingTime: int, inRecyTime: int, iThrowsendCount: int)

  /** The three lists, the fields of every connection, and (for the proofs) which ones are in use. */
  datatype Pool<T(==)> = Pool(conns: map<T, Conn>, all: seq<T>, free: seq<T>, recy: seq<T>, inUse: set<T>)

  /** Get takes the first free connection, or one that is new to the pool. GiveUp is flyd_close_connection. Release is what
      the recycling thread does with one connection, in time or when the program stops. */
  datatype Step<T> =
    | Get(conn: T, sock: int, now: int)
    | GiveUp(conn: T)
    | Retire(conn: T, now: int)
    | Release(conn: T, now: int, stopping: bool)

  datatype Place = Free | Recycling | Used

  function New(): Conn { Conn(0, 0, 0, 0, 0) }

  function Taken(c: Conn, now: int): Conn {
    c.(iCurrsequence := c.iCurrsequence + 1, fd := -1, iThrowsendCount := 0, lastPingTime := now)
  }

  function Freed(c: Conn): Conn {
    c.(iCurrsequence := c.iCurrsequence + 1, iThrowsendCount := 0)
  }

  function Retired(c: Conn, now: int): Conn {
    c.(iCurrsequence := c.iCurrsequence + 1, inRecyTime := now)
  }

  function Remove<T(==)>(s: seq<T>, x: T): seq<T> {
    if s == [] then [] else if s[0] == x then s[1..] else [s[0]] + Remove(s[1..], x)
  }

  /** Every connection of the pool is in m_connectionList once, and either free or recycling or in use, once. */
  ghost predicate Partition<T>(p: Pool<T>) {
    && multiset(p.all) == multiset(p.conns.Keys)
    && multiset(p.free) + multiset(p.recy) + multiset(p.inUse) == multiset(p.conns.Keys)
  }

  /** When the recycling thread lets go of a connection. */
  predicate Overdue(c: Conn, now: int, stopping: bool) {
    c.inRecyTime + WAIT_TIME <= now || stopping
  }

  predicate Enabled<T(==)>(p: Pool<T>, step: Step<T>) {
    match step
    case Get(c, sock, now) => if p.free == [] then c !in p.conns else c == p.free[0] && c in p.conns
    case GiveUp(c) => c in p.conns && c in p.inUse
    case Retire(c, now) => c in p.conns && c !in p.free
    case Release(c, now, stopping) => c in p.conns && c in p.recy && Overdue(p.conns[c], now, stopping)
  }

  /** What inRecyConnectQueue does with any connection of the pool; the machine retires none that is free. */
  function Queued<T(==)>(p: Pool<T>, c: T, now: int): Pool<T>
    requires c in p.conns
  {
    if c in p.recy then p else
    p.(conns := p.conns[c := Retired(p.conns[c], now)], recy := p.recy + [c], inUse := p.inUse - {c})
  }

  function Next<T(==)>(p: Pool<T>, step: Step<T>): Pool<T>
    requires Enabled(p, step)
  {
    match step
    case Get(c, sock, now) =>
      if p.free != [] then
        p.(conns := p.conns[c := Taken(p.conns[c], now).(fd := sock)], free := p.free[1..], inUse := p.inUse + {c})
      else
        p.(conns := p.conns[c := Taken(New(), now).(fd := sock)], all := p.all + [c], inUse := p.inUse + {c})
    case GiveUp(c) =>
      p.(conns := p.conns[c := Freed(p.conns[c]).(fd := -1)], free := p.free + [c], inUse := p.inUse - {c})
    case Retire(c, now) => Queued(p, c, now)
    case Release(c, now, stopping) =>
      p.(conns := p.conns[c := Freed(p.conns[c])], recy := Remove(p.recy, c), free := p.free + [c])
  }

  predicate Enabling<T(==)>(p: Pool<T>, steps: seq<Step<T>>)
    decreases steps
  {
    steps == [] || (Enabled(p, steps[0]) && Enabling(Next(p, steps[0]), steps[1..]))
  }

  function Run<T(==)>(p: Pool<T>, steps: seq<Step<T>>): Pool<T>
    requires Enabling(p, steps)
    decreases steps
  {
    if steps == [] then p else Run(Next(p, steps[0]), steps[1..])
  }

  function Where<T(==)>(p: Pool<T>, c: T): Place {
    if c in p.free then Free else if c in p.recy then Recycling else Used
  }

  lemma {:induction false} RemoveOne<T>(s: seq<T>, x: T)
    requires x in s
    ensures multiset(s) == multiset(Remove(s, x)) + multiset{x}
  {
    assert s == [s[0]] + s[1..];
    if s[0] != x {
      RemoveOne(s[1..], x);
    }
  }

  lemma HeadOnce<T>(s: seq<T>)
    requires s != []
    ensures multiset(s) == multiset(s[1..]) + multiset{s[0]}
  {
    assert s == [s[0]] + s[1..];
  }

  /** What the partition says about one connection. */
  lemma InOnePlace<T>(p: Pool<T>, c: T)
    requires Partition(p)
    ensures c in p.conns <==> c in p.all
    ensures c in p.conns ==> multiset(p.free)[c] + multiset(p.recy)[c] + multiset(p.inUse)[c] == 1
    ensures c !in p.conns ==> c !in p.free && c !in p.recy && c !in p.inUse
  {
    assert multiset(p.conns.Keys)[c] == multiset(p.free)[c] + multiset(p.recy)[c] + multiset(p.inUse)[c];
    assert multiset(p.all)[c] == multiset(p.conns.Keys)[c];
  }

  lemma AddOne<T>(s: set<T>, x: T)
    requires x !in s
    ensures multiset(s + {x}) == multiset(s) + multiset{x}
  {}

  lemma DropOne<T>(s: set<T>, x: T)
    requires x in s
    ensures multiset(s) == multiset(s - {x}) + multiset{x}
  {}

  lemma KeysKept<T>(m: map<T, Conn>, c: T, v: Conn)
    requires c in m
    ensures m[c := v].Keys == m.Keys
  {}

  lemma PartitionStep<T>(p: Pool<T>, step: Step<T>)
    requires Partition(p) && Enabled(p, step)
    ensures Partition(Next(p, step))
  {
    match step
    case Get(c, sock, now) => PartitionGet(p, step);
    case GiveUp(c) =>
      KeysKept(p.conns, c, Freed(p.conns[c]).(fd := -1));
      DropOne(p.inUse, c);
    case Retire(c, now) =>
      if c !in p.recy {
        InOnePlace(p, c);
        KeysKept(p.conns, c, Retired(p.conns[c], now));
        DropOne(p.inUse, c);
      }
    case Release(c, now, stopping) =>
      KeysKept(p.conns, c, Freed(p.conns[c]));
      RemoveOne(p.recy, c);
  }

  lemma PartitionGet<T>(p: Pool<T>, step: Step<T>)
    requires Partition(p) && Enabled(p, step) && step.Get?
    ensures Partition(Next(p, step))
  {
    var c := step.conn;
    if p.free != [] {
      InOnePlace(p, c);
      KeysKept(p.conns, c, Taken(p.conns[c], step.now).(fd := step.sock));
      HeadOnce(p.free);
      AddOne(p.inUse, c);
    } else {
      InOnePlace(p, c);
      AddOne(p.conns.Keys, c);
      AddOne(p.inUse, c);
      assert Next(p, step).conns.Keys == p.conns.Keys + {c};
    }
  }

  /** Retiring keeps the partition if and only if the connection has not been given back: a free one would end up in two
      lists. */
  lemma RetiringFree<T>(p: Pool<T>, c: T, now: int)
    requires Partition(p) && c in p.conns
    ensures Partition(Queued(p, c, now)) <==> c !in p.free
  {
    InOnePlace(p, c);
    if c !in p.free {
      PartitionStep(p, Retire(c, now));
    } else {
      var q := Queued(p, c, now);
      assert multiset(q.free)[c] + multiset(q.recy)[c] >= 2;
      assert multiset(q.conns.Keys)[c] == 1;
      assert multiset(q.free)[c] + multiset(q.recy)[c] + multiset(q.inUse)[c] != multiset(q.conns.Keys)[c];
      assert (multiset(q.free) + multiset(q.recy) + multiset(q.inUse))[c] != multiset(q.conns.Keys)[c];
    }
  }

  /** What the queue remembers: when a connection came, and that it will have another number. */
  lemma QueuedFacts<T>(p: Pool<T>, c: T, now: int)
    requires c in p.conns
    ensures var q := Queued(p, c, now);
            && c in q.recy && c in q.conns
            && (c in p.recy ==> q == p)
            && (c !in p.recy ==>
                  && q.recy == p.recy + [c] && c !in q.inUse
                  && q.conns[c].inRecyTime == now && q.conns[c].iCurrsequence == p.conns[c].iCurrsequence + 1
                  && q.conns[c].fd == p.conns[c].fd)
            && q.free == p.free && q.all == p.all && q.conns.Keys == p.conns.Keys
            && forall d :: d in p.conns && d != c ==> q.conns[d] == p.conns[d]
  {
    KeysKept(p.conns, c, Retired(p.conns[c], now));
  }

  lemma {:induction false} PartitionRun<T>(p: Pool<T>, steps: seq<Step<T>>)
    requires Partition(p) && Enabling(p, steps)
    ensures Partition(Run(p, steps))
    decreases steps
  {
    if steps != [] {
      PartitionStep(p, steps[0]);
      PartitionRun(Next(p, steps[0]), steps[1..]);
    }
  }

  /** A sequence number grows by one exactly when its connection changes place. */
  lemma SequenceCountsMoves<T>(p: Pool<T>, step: Step<T>, c: T)
    requires Partition(p) && Enabled(p, step) && c in p.conns
    ensures c in Next(p, step).conns
    ensures Next(p, step).conns[c].iCurrsequence
            == p.conns[c].iCurrsequence + if Where(Next(p, step), c) == Where(p, c) then 0 else 1
  {
    InOnePlace(p, c);
    PartitionStep(p, step);
    InOnePlace(Next(p, step), c);
    match step
    case Get(d, sock, now) =>
      InOnePlace(p, d);
      if p.free != [] {
        HeadOnce(p.free);
      }
    case GiveUp(d) =>
      InOnePlace(p, d);
    case Retire(d, now) =>
      InOnePlace(p, d);
    case Release(d, now, stopping) =>
      InOnePlace(p, d);
      RemoveOne(p.recy, d);
  }

  lemma {:induction false} SequenceNeverFalls<T>(p: Pool<T>, steps: seq<Step<T>>, c: T)
    requires Partition(p) && Enabling(p, steps) && c in p.conns
    ensures c in Run(p, steps).conns
    ensures Run(p, steps).conns[c].iCurrsequence >= p.conns[c].iCurrsequence
    decreases steps
  {
    if steps != [] {
      PartitionStep(p, steps[0]);
      SequenceCountsMoves(p, steps[0], c);
      SequenceNeverFalls(Next(p, steps[0]), steps[1..], c);
    }
  }

  /** In use from the start of the run to its end, without a break. */
  predicate UsedThroughout<T(==)>(p: Pool<T>, steps: seq<Step<T>>, c: T)
    requires Enabling(p, steps)
    decreases steps
  {
    c in p.inUse && (steps == [] || UsedThroughout(Next(p, steps[0]), steps[1..], c))
  }

  /** A stamp taken while a connection is in use is current later if and only if the connection never left use. */
  lemma {:induction false} StampIsCurrent<T>(p: Pool<T>, steps: seq<Step<T>>, c: T)
    requires Partition(p) && Enabling(p, steps) && c in p.inUse
    ensures c in p.conns && c in Run(p, steps).conns
    ensures Run(p, steps).conns[c].iCurrsequence == p.conns[c].iCurrsequence <==> UsedThroughout(p, steps, c)
    decreases steps
  {
    InOnePlace(p, c);
    if steps != [] {
      var next := Next(p, steps[0]);
      PartitionStep(p, steps[0]);
      SequenceCountsMoves(p, steps[0], c);
      InOnePlace(next, c);
      if c in next.inUse {
        StampIsCurrent(next, steps[1..], c);
      } else {
        SequenceNeverFalls(next, steps[1..], c);
      }
    }
  }

  function Due<T(==)>(conns: map<T, Conn>, recy: seq<T>, now: int, stopping: bool): seq<T>
    requires forall c :: c in recy ==> c in conns
  {
    if recy == [] then [] else
    (if Overdue(conns[recy[0]], now, stopping) then [recy[0]] else []) + Due(conns, recy[1..], now, stopping)
  }

  function NotDue<T(==)>(conns: map<T, Conn>, recy: seq<T>, now: int, stopping: bool): seq<T>
    requires forall c :: c in recy ==> c in conns
  {
    if recy == [] then [] else
    (if Overdue(conns[recy[0]], now, stopping) then [] else [recy[0]]) + NotDue(conns, recy[1..], now, stopping)
  }

  function FirstDue<T>(conns: map<T, Conn>, recy: seq<T>, now: int, stopping: bool): (k: nat)
    requires forall c :: c in recy ==> c in conns
    ensures k <= |recy|
    ensures k < |recy| ==> Overdue(conns[recy[k]], now, stopping)
    ensures forall i :: 0 <= i < k ==> !Overdue(conns[recy[i]], now, stopping)
  {
    if recy == [] || Overdue(conns[recy[0]], now, stopping) then 0 else 1 + FirstDue(conns, recy[1..], now, stopping)
  }

  predicate RecyKnown<T>(p: Pool<T>) {
    forall c :: c in p.recy ==> c in p.conns
  }

  lemma {:induction false} RemoveSmaller<T>(s: seq<T>, x: T)
    requires x in s
    ensures |Remove(s, x)| == |s| - 1
    ensures forall y :: y in Remove(s, x) ==> y in s
  {
    if s[0] != x {
      RemoveSmaller(s[1..], x);
    }
  }

  /** The recycling thread's pass: release the first connection whose time has come, and start over. */
  function Sweep<T(==)>(p: Pool<T>, now: int, stopping: bool): Pool<T>
    requires RecyKnown(p)
    decreases |p.recy|
  {
    var k := FirstDue(p.conns, p.recy, now, stopping);
    if k == |p.recy| then p else
    RemoveSmaller(p.recy, p.recy[k]);
    Sweep(Next(p, Release(p.recy[k], now, stopping)), now, stopping)
  }

  lemma {:induction false} DueAfter<T>(conns: map<T, Conn>, recy: seq<T>, k: nat, now: int, stopping: bool)
    requires forall c :: c in recy ==> c in conns
    requires k < |recy| && k == FirstDue(conns, recy, now, stopping)
    ensures var rest := Remove(recy, recy[k]);
            && (forall c :: c in rest ==> c in conns)
            && Due(conns, recy, now, stopping) == [recy[k]] + Due(conns, rest, now, stopping)
            && NotDue(conns, recy, now, stopping) == NotDue(conns, rest, now, stopping)
  {
    if k > 0 {
      DueAfter(conns, recy[1..], k - 1, now, stopping);
    }
  }

  lemma {:induction false} DueUnaffected<T>(conns: map<T, Conn>, recy: seq<T>, c: T, now: int, stopping: bool)
    requires c in conns && forall d :: d in recy ==> d in conns
    ensures Due(conns[c := Freed(conns[c])], recy, now, stopping) == Due(conns, recy, now, stopping)
    ensures NotDue(conns[c := Freed(conns[c])], recy, now, stopping) == NotDue(conns, recy, now, stopping)
  {
    if recy != [] {
      DueUnaffected(conns, recy[1..], c, now, stopping);
    }
  }

  lemma {:induction false} NothingDue<T>(conns: map<T, Conn>, recy: seq<T>, now: int, stopping: bool)
    requires forall c :: c in recy ==> c in conns
    requires FirstDue(conns, recy, now, stopping) == |recy|
    ensures Due(conns, recy, now, stopping) == []
    ensures NotDue(conns, recy, now, stopping) == recy
  {
    if recy != [] {
      NothingDue(conns, recy[1..], now, stopping);
    }
  }

  /** However often the pass starts over: the connections whose time has come go to the end of the free list, in the
      order in which they were retired, and the others stay, in that order too. */
  lemma {:induction false} SweepSorts<T>(p: Pool<T>, now: int, stopping: bool)
    requires RecyKnown(p)
    ensures Sweep(p, now, stopping).free == p.free + Due(p.conns, p.recy, now, stopping)
    ensures Sweep(p, now, stopping).recy == NotDue(p.conns, p.recy, now, stopping)
    ensures Sweep(p, now, stopping).inUse == p.inUse && Sweep(p, now, stopping).all == p.all
    decreases |p.recy|
  {
    var k := FirstDue(p.conns, p.recy, now, stopping);
    if k == |p.recy| {
      NothingDue(p.conns, p.recy, now, stopping);
    } else {
      var c := p.recy[k];
      RemoveSmaller(p.recy, c);
      SweepSorts(Next(p, Release(c, now, stopping)), now, stopping);
      DueAfterRelease(p, k, now, stopping);
      Reassociate(p.free, c, Due(Next(p, Release(c, now, stopping)).conns, Next(p, Release(c, now, stopping)).recy, now, stopping));
    }
  }

  lemma DueAfterRelease<T>(p: Pool<T>, k: nat, now: int, stopping: bool)
    requires RecyKnown(p) && k < |p.recy| && k == FirstDue(p.conns, p.recy, now, stopping)
    ensures RecyKnown(Next(p, Release(p.recy[k], now, stopping)))
    ensures var next := Next(p, Release(p.recy[k], now, stopping));
            && Due(p.conns, p.recy, now, stopping) == [p.recy[k]] + Due(next.conns, next.recy, now, stopping)
            && NotDue(p.conns, p.recy, now, stopping) == NotDue(next.conns, next.recy, now, stopping)
  {
    RemoveSmaller(p.recy, p.recy[k]);
    DueAfter(p.conns, p.recy, k, now, stopping);
    DueUnaffected(p.conns, Remove(p.recy, p.recy[k]), p.recy[k], now, stopping);
  }

  lemma Reassociate<T>(a: seq<T>, x: T, b: seq<T>)
    ensures a + [x] + b == a + ([x] + b)
  {}

  lemma {:induction false} DueAre<T>(conns: map<T, Conn>, recy: seq<T>, now: int, stopping: bool, c: T)
    requires forall d :: d in recy ==> d in conns
    ensures c in Due(conns, recy, now, stopping) <==> c in recy && (stopping || now >= conns[c].inRecyTime + 60)
  {
    if recy != [] {
      DueAre(conns, recy[1..], now, stopping, c);
    }
  }

  /** A pass frees exactly the connections that have waited for sixty seconds, or all of them when the program stops. */
  lemma SweepFrees<T>(p: Pool<T>, now: int, stopping: bool, c: T)
    requires Partition(p) && RecyKnown(p) && c in p.recy
    ensures c in Sweep(p, now, stopping).free <==> stopping || now >= p.conns[c].inRecyTime + 60
    ensures c in Sweep(p, now, stopping).recy <==> c !in Sweep(p, now, stopping).free
  {
    SweepSorts(p, now, stopping);
    DueAre(p.conns, p.recy, now, stopping, c);
    SweepPartition(p, now, stopping);
    SweepKeepsKeys(p, now, stopping);
    SweepPlaces(p, now, stopping, c);
  }

  lemma {:induction false} SweepKeepsKeys<T>(p: Pool<T>, now: int, stopping: bool)
    requires RecyKnown(p)
    ensures Sweep(p, now, stopping).conns.Keys == p.conns.Keys
    decreases |p.recy|
  {
    var k := FirstDue(p.conns, p.recy, now, stopping);
    if k < |p.recy| {
      RemoveSmaller(p.recy, p.recy[k]);
      SweepKeepsKeys(Next(p, Release(p.recy[k], now, stopping)), now, stopping);
    }
  }

  lemma SweepPlaces<T>(p: Pool<T>, now: int, stopping: bool, c: T)
    requires Partition(p) && RecyKnown(p) && c in p.recy && Partition(Sweep(p, now, stopping))
    requires Sweep(p, now, stopping).conns.Keys == p.conns.Keys && Sweep(p, now, stopping).inUse == p.inUse
    requires Sweep(p, now, stopping).free == p.free + Due(p.conns, p.recy, now, stopping)
    ensures c !in p.free
    ensures c in Sweep(p, now, stopping).recy <==> c !in Sweep(p, now, stopping).free
  {
    InOnePlace(p, c);
    InOnePlace(Sweep(p, now, stopping), c);
  }

  /** The connection was released during the run, sixty seconds after `t` or because the program stopped. */
  predicate ReleasedAfter<T(==)>(steps: seq<Step<T>>, c: T, t: int) {
    exists i :: 0 <= i < |steps| && steps[i].Release? && steps[i].conn == c && (steps[i].stopping || steps[i].now >= t + 60)
  }

  lemma RecyclingStep<T>(p: Pool<T>, step: Step<T>, c: T, t: int)
    requires Partition(p) && Enabled(p, step) && c in p.recy && c in p.conns && p.conns[c].inRecyTime == t
    ensures var next := Next(p, step);
            || (c in next.recy && c in next.conns && next.conns[c].inRecyTime == t)
            || (step.Release? && step.conn == c && (step.stopping || step.now >= t + 60))
  {
    InOnePlace(p, c);
    InOnePlace(p, step.conn);
    if step.Release? && step.conn != c {
      RemoveKeeps(p.recy, step.conn, c);
    }
  }

  lemma {:induction false} RemoveKeeps<T>(s: seq<T>, x: T, y: T)
    requires x != y && y in s
    ensures y in Remove(s, x)
  {
    if s[0] != x && s[0] != y {
      RemoveKeeps(s[1..], x, y);
    }
  }

  lemma {:induction false} RecyclingWaits<T>(p: Pool<T>, steps: seq<Step<T>>, c: T, t: int)
    requires Partition(p) && Enabling(p, steps) && c in p.recy && c in p.conns && p.conns[c].inRecyTime == t
    ensures c in Run(p, steps).recy || ReleasedAfter(steps, c, t)
    decreases steps
  {
    if steps != [] {
      PartitionStep(p, steps[0]);
      RecyclingStep(p, steps[0], c, t);
      var next := Next(p, steps[0]);
      if c in next.recy && c in next.conns && next.conns[c].inRecyTime == t {
        RecyclingWaits(next, steps[1..], c, t);
        if ReleasedAfter(steps[1..], c, t) {
          ReleasedLater(steps, c, t);
        }
      } else {
        assert steps[0].Release? && steps[0].conn == c && (steps[0].stopping || steps[0].now >= t + 60);
      }
    }
  }

  lemma ReleasedLater<T>(steps: seq<Step<T>>, c: T, t: int)
    requires steps != [] && ReleasedAfter(steps[1..], c, t)
    ensures ReleasedAfter(steps, c, t)
  {
    var i :| 0 <= i < |steps[1..]| && steps[1..][i].Release? && steps[1..][i].conn == c
             && (steps[1..][i].stopping || steps[1..][i].now >= t + 60);
    assert steps[i + 1] == steps[1..][i];
  }

  /** Delayed recycling: a connection retired at `t` waits in the recycling list until somebody releases it sixty seconds
      later, or the program stops. */
  lemma DelayedRecycling<T>(p: Pool<T>, steps: seq<Step<T>>, c: T, t: int)
    requires Partition(p) && Enabled(p, Retire(c, t)) && c !in p.recy && Enabling(Next(p, Retire(c, t)), steps)
    ensures c in Run(Next(p, Retire(c, t)), steps).recy || ReleasedAfter(steps, c, t)
  {
    PartitionStep(p, Retire(c, t));
    RecyclingWaits(Next(p, Retire(c, t)), steps, c, t);
  }

  function SweepSteps<T(==)>(p: Pool<T>, now: int, stopping: bool): seq<Step<T>>
    requires RecyKnown(p)
    decreases |p.recy|
  {
    var k := FirstDue(p.conns, p.recy, now, stopping);
    if k == |p.recy| then [] else
    RemoveSmaller(p.recy, p.recy[k]);
    [Release(p.recy[k], now, stopping)] + SweepSteps(Next(p, Release(p.recy[k], now, stopping)), now, stopping)
  }

  /** A pass is a run of single releases, so what holds of every run holds of passes. */
  lemma {:induction false} SweepIsRun<T>(p: Pool<T>, now: int, stopping: bool)
    requires RecyKnown(p)
    ensures Enabling(p, SweepSteps(p, now, stopping))
    ensures Run(p, SweepSteps(p, now, stopping)) == Sweep(p, now, stopping)
    decreases |p.recy|
  {
    var k := FirstDue(p.conns, p.recy, now, stopping);
    if k < |p.recy| {
      RemoveSmaller(p.recy, p.recy[k]);
      SweepIsRun(Next(p, Release(p.recy[k], now, stopping)), now, stopping);
    }
  }

  lemma {:induction false} SweepPartition<T>(p: Pool<T>, now: int, stopping: bool)
    requires RecyKnown(p) && Partition(p)
    ensures Partition(Sweep(p, now, stopping))
    decreases |p.recy|
  {
    var k := FirstDue(p.conns, p.recy, now, stopping);
    if k < |p.recy| {
      RemoveSmaller(p.recy, p.recy[k]);
      PartitionStep(p, Release(p.recy[k], now, stopping));
      SweepPartition(Next(p, Release(p.recy[k], now, stopping)), now, stopping);
    }
  }

  class Connection {
    var iCurrsequence: nat
    var fd: int
    var lastPingTime: int
    var inRecyTime: int
    var iThrowsendCount: int

    function View(): Conn
      reads this
    {
      Conn(iCurrsequence, fd, lastPingTime, inRecyTime, iThrowsendCount)
    }

    constructor ()
      ensures View() == New()
      ensures iCurrsequence == fd == lastPingTime == inRecyTime == iThrowsendCount == 0
    {
      iCurrsequence, fd, lastPingTime, inRecyTime, iThrowsendCount := 0, 0, 0, 0, 0;
    }

    method GetOneToUse(now: int)
      modifies this
      ensures View() == Taken(old(View()), now)
      ensures iCurrsequence == old(iCurrsequence) + 1 && fd == -1 && iThrowsendCount == 0 && lastPingTime == now
      ensures inRecyTime == old(inRecyTime)
    {
      iCurrsequence := iCurrsequence + 1;
      fd := -1;
      iThrowsendCount := 0;
      lastPingTime := now;
    }

    method PutOneToFree()
      modifies this
      ensures View() == Freed(old(View()))
      ensures iCurrsequence == old(iCurrsequence) + 1 && iThrowsendCount == 0
      ensures fd == old(fd) && lastPingTime == old(lastPingTime) && inRecyTime == old(inRecyTime)
    {
      iCurrsequence := iCurrsequence + 1;
      iThrowsendCount := 0;
    }
  }

  /** The part of CSocekt that keeps the connections. */
  class Connections {
    var m_connectionList: seq<Connection>
    var m_freeconnectionList: seq<Connection>
    var m_recyconnectionList: seq<Connection>
    var m_total_connection_n: int
    var m_free_connection_n: int
    var m_total_recyconnection_n: int
    ghost var inUse: set<Connection>

    ghost function View(): Pool<Connection>
      reads this, m_connectionList
    {
      Pool(map c | c in m_connectionList :: c.View(), m_connectionList, m_freeconnectionList, m_recyconnectionList, inUse)
    }

    ghost predicate Counted()
      reads this
    {
      && m_total_connection_n == |m_connectionList|
      && m_free_connection_n == |m_freeconnectionList|
      && m_total_recyconnection_n == |m_recyconnectionList|
    }

    ghost predicate Valid()
      reads this, m_connectionList
    {
      Partition(View()) && Counted()
    }

    /** initconnection */
    constructor (m_worker_connections: nat, now: int)
      ensures Valid() && |m_connectionList| == m_worker_connections && fresh(m_connectionList)
      ensures m_freeconnectionList == m_connectionList && m_recyconnectionList == [] && inUse == {}
      ensures forall c :: c in m_connectionList ==> c.iCurrsequence == 1 && c.fd == -1
      ensures forall c :: c in View().conns ==> View().conns[c].fd == -1
    {
      m_connectionList, m_freeconnectionList, m_recyconnectionList := [], [], [];
      m_total_recyconnection_n := 0;
      inUse := {};
      new;
      var i := 0;
      while i < m_worker_connections
        invariant 0 <= i <= m_worker_connections && |m_connectionList| == i && fresh(m_connectionList)
        invariant m_freeconnectionList == m_connectionList && m_recyconnectionList == [] && inUse == {}
        invariant m_total_recyconnection_n == 0
        invariant AllOnce(m_connectionList)
        invariant forall c :: c in m_connectionList ==> c.iCurrsequence == 1 && c.fd == -1
      {
        AddConnection(now);
        i := i + 1;
      }
      m_free_connection_n := |m_connectionList|;
      m_total_connection_n := |m_connectionList|;
      assert View().conns.Keys == set c | c in m_connectionList;
    }

    method AddConnection(now: int)
      requires AllOnce(m_connectionList)
      modifies this`m_connectionList, this`m_freeconnectionList
      ensures AllOnce(m_connectionList) && |m_connectionList| == |old(m_connectionList)| + 1
      ensures m_connectionList[..|old(m_connectionList)|] == old(m_connectionList)
      ensures fresh(m_connectionList[|old(m_connectionList)|])
      ensures m_connectionList[|old(m_connectionList)|].iCurrsequence == 1
      ensures m_connectionList[|old(m_connectionList)|].fd == -1
      ensures m_freeconnectionList == old(m_freeconnectionList) + [m_connectionList[|old(m_connectionList)|]]
    {
      var p_Conn := new Connection();
      p_Conn.GetOneToUse(now);
      OneMore(m_connectionList, p_Conn);
      m_connectionList := m_connectionList + [p_Conn];
      m_freeconnectionList := m_freeconnectionList + [p_Conn];
    }

    /** flyd_get_connection */
    method GetConnection(isock: int, now: int) returns (c: Connection)
      requires Valid()
      modifies this, m_connectionList
      ensures Valid()
      ensures old(View().free) == [] ==> fresh(c)
      ensures c.fd == isock && c.lastPingTime == now && c.iThrowsendCount == 0 && c in inUse
      ensures old(m_freeconnectionList) != [] ==> c == old(m_freeconnectionList)[0]
      ensures Enabled(old(View()), Get(c, isock, now)) && View() == Next(old(View()), Get(c, isock, now))
    {
      ghost var before := View();
      if m_freeconnectionList != [] {
        c := TakeFree(isock, now);
      } else {
        c := TakeNew(isock, now);
      }
      PartitionStep(before, Get(c, isock, now));
    }

    method TakeFree(isock: int, now: int) returns (c: Connection)
      requires Valid() && m_freeconnectionList != []
      modifies this, m_connectionList
      ensures Counted()
      ensures c.fd == isock && c.lastPingTime == now && c.iThrowsendCount == 0 && c in inUse
      ensures c == old(m_freeconnectionList)[0]
      ensures Enabled(old(View()), Get(c, isock, now)) && View() == Next(old(View()), Get(c, isock, now))
    {
      c := m_freeconnectionList[0];
      InOnePlace(View(), c);
      m_freeconnectionList := m_freeconnectionList[1..];
      c.GetOneToUse(now);
      m_free_connection_n := m_free_connection_n - 1;
      c.fd := isock;
      inUse := inUse + {c};
    }

    method TakeNew(isock: int, now: int) returns (c: Connection)
      requires Counted() && m_freeconnectionList == []
      modifies this
      ensures Counted() && fresh(c)
      ensures c.fd == isock && c.lastPingTime == now && c.iThrowsendCount == 0 && c in inUse
      ensures Enabled(old(View()), Get(c, isock, now)) && View() == Next(old(View()), Get(c, isock, now))
    {
      c := new Connection();
      c.GetOneToUse(now);
      m_connectionList := m_connectionList + [c];
      m_total_connection_n := m_total_connection_n + 1;
      c.fd := isock;
      inUse := inUse + {c};
    }

    /** flyd_free_connection; the caller has taken `c` from wherever it was. */
    method FreeConnection(c: Connection)
      requires Counted() && c in m_connectionList
      modifies this`m_freeconnectionList, this`m_free_connection_n, c
      ensures Counted()
      ensures View() == old(View()).(conns := old(View()).conns[c := Freed(old(View()).conns[c])], free := old(View()).free + [c])
      ensures c.iCurrsequence == old(c.iCurrsequence) + 1 && c.iThrowsendCount == 0
      ensures m_freeconnectionList == old(m_freeconnectionList) + [c]
    {
      c.PutOneToFree();
      m_freeconnectionList := m_freeconnectionList + [c];
      m_free_connection_n := m_free_connection_n + 1;
    }

    /** flyd_close_connection */
    method CloseConnection(c: Connection)
      requires Valid() && c in inUse
      modifies this, c
      ensures Valid()
      ensures Enabled(old(View()), GiveUp(c)) && View() == Next(old(View()), GiveUp(c))
      ensures c.fd == -1 && c.iCurrsequence == old(c.iCurrsequence) + 1 && c.iThrowsendCount == 0
      ensures m_freeconnectionList == old(m_freeconnectionList) + [c] && inUse == old(inUse) - {c}
    {
      InOnePlace(View(), c);
      PartitionStep(View(), GiveUp(c));
      FreeAndClose(c);
    }

    method FreeAndClose(c: Connection)
      requires Counted() && c in m_connectionList && c in inUse
      modifies this, c
      ensures Counted() && m_connectionList == old(m_connectionList)
      ensures View() == Next(old(View()), GiveUp(c))
      ensures c.fd == -1 && c.iCurrsequence == old(c.iCurrsequence) + 1 && c.iThrowsendCount == 0
      ensures m_freeconnectionList == old(m_freeconnectionList) + [c] && inUse == old(inUse) - {c}
    {
      FreeConnection(c);
      if c.fd != -1 {
        c.fd := -1;
      }
      inUse := inUse - {c};
    }

    method InRecyConnectQueue(c: Connection, now: int)
      requires Valid() && c in m_connectionList
      modifies this, c
      ensures Counted() && m_connectionList == old(m_connectionList)
      ensures View() == Queued(old(View()), c, now)
      ensures Valid() <==> c !in old(m_freeconnectionList)
    {
      RetiringFree(View(), c, now);
      var iffind := IsRecycling(c);
      if iffind {
        return;
      }
      AddToRecycling(c, now);
    }

    method IsRecycling(c: Connection) returns (iffind: bool)
      ensures iffind <==> c in m_recyconnectionList
    {
      var pos := 0;
      while pos < |m_recyconnectionList|
        invariant 0 <= pos <= |m_recyconnectionList|
        invariant c !in m_recyconnectionList[..pos]
      {
        if m_recyconnectionList[pos] == c {
          return true;
        }
        pos := pos + 1;
      }
      return false;
    }

    method AddToRecycling(c: Connection, now: int)
      requires Counted() && c in m_connectionList && c !in m_recyconnectionList
      modifies this, c
      ensures Counted() && m_connectionList == old(m_connectionList)
      ensures View() == Queued(old(View()), c, now)
    {
      c.inRecyTime := now;
      c.iCurrsequence := c.iCurrsequence + 1;
      m_recyconnectionList := m_recyconnectionList + [c];
      m_total_recyconnection_n := m_total_recyconnection_n + 1;
      inUse := inUse - {c};
    }

    /** One pass of ServerRecyConnectionThread. */
    method RecyclePass(currtime: int, stopping: bool)
      requires Valid()
      modifies this, m_connectionList
      ensures Valid()
      ensures RecyKnown(old(View())) && View() == Sweep(old(View()), currtime, stopping)
      ensures forall c :: c in old(m_recyconnectionList) ==>
                (c in m_freeconnectionList <==> stopping || currtime >= old(c.inRecyTime) + 60)
      ensures forall c :: c in old(m_recyconnectionList) ==> (c in m_recyconnectionList <==> c !in m_freeconnectionList)
    {
      ghost var before := View();
      KnownByPartition(View());
      forall c | c in m_recyconnectionList
        ensures c in before.conns
        ensures c in Sweep(before, currtime, stopping).free <==> stopping || currtime >= before.conns[c].inRecyTime + 60
        ensures c in Sweep(before, currtime, stopping).recy <==> c !in Sweep(before, currtime, stopping).free
      {
        SweepFrees(before, currtime, stopping, c);
      }
      assert forall c :: c in m_recyconnectionList ==> before.conns[c].inRecyTime == c.inRecyTime;
      SweepPartition(View(), currtime, stopping);
      if m_total_recyconnection_n > 0 {
        RecycleDue(currtime, stopping);
      }
    }

    method RecycleDue(currtime: int, stopping: bool)
      requires Counted() && RecyKnown(View())
      modifies this, m_connectionList
      ensures Counted() && View() == Sweep(old(View()), currtime, stopping)
    {
      var pos := 0;
      while pos < |m_recyconnectionList|
        invariant 0 <= pos <= |m_recyconnectionList| && Counted() && m_connectionList == old(m_connectionList)
        invariant RecyKnown(View()) && Sweep(View(), currtime, stopping) == Sweep(old(View()), currtime, stopping)
        invariant NoneDue(View(), pos, currtime, stopping)
        decreases |m_recyconnectionList|, |m_recyconnectionList| - pos
      {
        var wait := StillWaits(pos, currtime, stopping);
        if wait {
          pos := pos + 1;
        } else {
          ReleaseAt(pos, currtime, stopping);
          pos := 0;
        }
      }
      FirstDueIs(View().conns, View().recy, pos, currtime, stopping);
    }

    /** The test of the pass. */
    method StillWaits(pos: nat, currtime: int, stopping: bool) returns (wait: bool)
      requires RecyKnown(View()) && pos < |m_recyconnectionList| && NoneDue(View(), pos, currtime, stopping)
      ensures wait <==> !stopping && currtime < m_recyconnectionList[pos].inRecyTime + 60
      ensures wait ==> NoneDue(View(), pos + 1, currtime, stopping)
      ensures !wait ==> Overdue(m_recyconnectionList[pos].View(), currtime, stopping)
    {
      var c := m_recyconnectionList[pos];
      assert c in View().recy;
      wait := c.inRecyTime + WAIT_TIME > currtime && !stopping;
    }

    /** The body of the pass for a connection whose time has come. */
    method ReleaseAt(pos: nat, currtime: int, stopping: bool)
      requires Counted() && RecyKnown(View()) && pos < |m_recyconnectionList|
      requires Overdue(m_recyconnectionList[pos].View(), currtime, stopping) && NoneDue(View(), pos, currtime, stopping)
      modifies this, m_connectionList
      ensures Counted() && m_connectionList == old(m_connectionList)
      ensures |m_recyconnectionList| == |old(m_recyconnectionList)| - 1
      ensures RecyKnown(View())
      ensures Sweep(View(), currtime, stopping) == Sweep(old(View()), currtime, stopping)
    {
      assert m_recyconnectionList[pos] in View().recy;
      ReleaseIsFirst(View(), pos, currtime, stopping);
      EraseAndFree(pos, currtime, stopping);
    }

    method EraseAndFree(pos: nat, ghost now: int, ghost stopping: bool)
      requires Counted() && pos < |m_recyconnectionList| && m_recyconnectionList[pos] in m_connectionList
      requires Overdue(m_recyconnectionList[pos].View(), now, stopping)
      requires m_recyconnectionList[pos] !in m_recyconnectionList[..pos]
      modifies this, m_connectionList
      ensures Counted() && m_connectionList == old(m_connectionList)
      ensures |m_recyconnectionList| == |old(m_recyconnectionList)| - 1
      ensures View() == Next(old(View()), Release(old(m_recyconnectionList)[pos], now, stopping))
    {
      var c := m_recyconnectionList[pos];
      RemoveAt(m_recyconnectionList, pos);
      m_total_recyconnection_n := m_total_recyconnection_n - 1;
      m_recyconnectionList := m_recyconnectionList[..pos] + m_recyconnectionList[pos + 1..];
      FreeConnection(c);
    }
  }

  ghost predicate AllOnce<T>(s: seq<T>) {
    multiset(s) == multiset(set c | c in s)
  }

  lemma OneMore<T>(s: seq<T>, x: T)
    requires AllOnce(s) && x !in s
    ensures AllOnce(s + [x])
  {
    assert (set c | c in s + [x]) == (set c | c in s) + {x};
  }

  predicate NoneDue<T(==)>(p: Pool<T>, n: nat, now: int, stopping: bool) {
    n <= |p.recy| && forall i :: 0 <= i < n ==> p.recy[i] in p.conns && !Overdue(p.conns[p.recy[i]], now, stopping)
  }

  lemma KnownByPartition<T>(p: Pool<T>)
    requires Partition(p)
    ensures RecyKnown(p)
  {
    forall c | c in p.recy ensures c in p.conns {
      InOnePlace(p, c);
    }
  }

  lemma {:induction false} RemoveAt<T>(s: seq<T>, pos: nat)
    requires pos < |s| && s[pos] !in s[..pos]
    ensures Remove(s, s[pos]) == s[..pos] + s[pos + 1..]
  {
    if pos > 0 {
      assert s[1..][..pos - 1] == s[..pos][1..];
      assert s[0] == s[..pos][0];
      RemoveAt(s[1..], pos - 1);
    }
  }

  lemma {:induction false} FirstDueIs<T>(conns: map<T, Conn>, recy: seq<T>, pos: nat, now: int, stopping: bool)
    requires forall c :: c in recy ==> c in conns
    requires pos <= |recy|
    requires pos < |recy| ==> Overdue(conns[recy[pos]], now, stopping)
    requires forall i :: 0 <= i < pos ==> !Overdue(conns[recy[i]], now, stopping)
    ensures FirstDue(conns, recy, now, stopping) == pos
  {
    if pos > 0 {
      FirstDueIs(conns, recy[1..], pos - 1, now, stopping);
    }
  }

  lemma ReleaseIsFirst<T>(p: Pool<T>, pos: nat, now: int, stopping: bool)
    requires RecyKnown(p) && pos < |p.recy| && Overdue(p.conns[p.recy[pos]], now, stopping)
    requires NoneDue(p, pos, now, stopping)
    ensures p.recy[pos] !in p.recy[..pos]
    ensures RecyKnown(Next(p, Release(p.recy[pos], now, stopping)))
    ensures Sweep(p, now, stopping) == Sweep(Next(p, Release(p.recy[pos], now, stopping)), now, stopping)
  {
    forall i | 0 <= i < pos ensures p.recy[i] != p.recy[pos] {
      assert !Overdue(p.conns[p.recy[i]], now, stopping);
    }
    RemoveAt(p.recy, pos);
    RemoveSmaller(p.recy, p.recy[pos]);
    FirstDueIs(p.conns, p.recy, pos, now, stopping);
  }
}
