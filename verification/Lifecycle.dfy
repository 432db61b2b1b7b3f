/** The life of a client: accepted, kept by its heartbeats, kicked when silent, recycled, used again. The pool, the
    timers and the monitor thread of CSocekt as one machine; every step is what one thread does at one instant, and
    time passes in between. */
module Lifecycle {
  import P = ConnectionPool
  import Q = TimerQueue

  /** The monitor is asleep, or has collected the overdue entries at `cur` and has those of `idle` still to check. */
  datatype Monitor<T> = Sleeping | Checking(cur: int, idle: seq<Q.Entry<T>>)

  /** `lastPass` is when the last finished pass of the monitor began; passes are at most `period` apart. */
  datatype State<T(==)> = State(
    pool: P.Pool<T>,
    clients: set<T>,
    timers: seq<Q.Entry<T>>,
    monitor: Monitor<T>,
    now: int,
    lastPass: int,
    m_iWaitTime: nat,
    period: nat,
    kicking: bool)

  /** Open is for listening sockets, and for clients that flyd_close_connection turns away. */
  datatype Step<T> =
    | Accept(conn: T, sock: int)
    | Open(conn: T, sock: int)
    | GiveUp(conn: T)
    | Close(conn: T)
    | Release(conn: T, stopping: bool)
    | Ping(conn: T, sequence: nat)
    | BeginPass
    | CheckOne
    | EndPass
    | Tick(seconds: nat)

  predicate Enabled<T(==)>(s: State<T>, step: Step<T>) {
    match step
    case Accept(c, sock) => P.Enabled(s.pool, P.Get(c, sock, s.now))
    case Open(c, sock) => P.Enabled(s.pool, P.Get(c, sock, s.now))
    case GiveUp(c) => c !in s.clients && P.Enabled(s.pool, P.GiveUp(c))
    case Close(c) => c in s.pool.conns && c !in s.pool.free
    case Release(c, stopping) => P.Enabled(s.pool, P.Release(c, s.now, stopping))
    case Ping(c, sequence) => c in s.pool.conns
    case BeginPass => s.monitor.Sleeping?
    case CheckOne =>
      && s.monitor.Checking? && s.monitor.idle != [] && s.monitor.idle[0].conn in s.pool.conns
      && (IsTimeout(s, s.monitor.idle[0]) ==> s.monitor.idle[0].conn !in s.pool.free)
    case EndPass => s.monitor.Checking? && s.monitor.idle == []
    case Tick(seconds) => s.now + seconds <= s.lastPass + s.period
  }

  /** The rule of procPingTimeOutChecking: the same client as when the entry was made, and silent for too long. */
  predicate IsTimeout<T(==)>(s: State<T>, e: Q.Entry<T>)
    requires s.monitor.Checking?
  {
    && e.conn in s.pool.conns && e.sequence == s.pool.conns[e.conn].iCurrsequence
    && s.monitor.cur - s.pool.conns[e.conn].lastPingTime > s.m_iWaitTime * 3 + 10
  }

  function Hung(c: P.Conn): P.Conn {
    c.(fd := -1, iThrowsendCount := if c.iThrowsendCount > 0 then c.iThrowsendCount - 1 else c.iThrowsendCount)
  }

  /** What zdClosesocketProc does with any connection of the pool; the machine closes none that is free. */
  function Closed<T(==)>(s: State<T>, c: T): State<T>
    requires c in s.pool.conns
  {
    var hung := s.pool.(conns := s.pool.conns[c := Hung(s.pool.conns[c])]);
    s.(pool := P.Queued(hung, c, s.now),
       clients := s.clients - {c},
       timers := if s.kicking then Q.Without(s.timers, c) else s.timers)
  }

  function Joined<T(==)>(s: State<T>, c: T): State<T>
    requires c in s.pool.conns
  {
    s.(clients := s.clients + {c},
       timers := if !s.kicking then s.timers else
                 Q.Insert(s.timers, Q.Entry(s.now + s.m_iWaitTime, c, s.pool.conns[c].iCurrsequence)))
  }

  function Next<T(==)>(s: State<T>, step: Step<T>): State<T>
    requires Enabled(s, step)
  {
    match step
    case Accept(c, sock) => Joined(s.(pool := P.Next(s.pool, P.Get(c, sock, s.now))), c)
    case Open(c, sock) => s.(pool := P.Next(s.pool, P.Get(c, sock, s.now)))
    case GiveUp(c) => s.(pool := P.Next(s.pool, P.GiveUp(c)))
    case Close(c) => Closed(s, c)
    case Release(c, stopping) => s.(pool := P.Next(s.pool, P.Release(c, s.now, stopping)))
    case Ping(c, sequence) =>
      if sequence != s.pool.conns[c].iCurrsequence then s else
      s.(pool := s.pool.(conns := s.pool.conns[c := s.pool.conns[c].(lastPingTime := s.now)]))
    case BeginPass =>
      s.(monitor := Checking(s.now, s.timers[..Q.Overdue(s.timers, s.now)]),
         timers := Q.Recycle(s.timers, Q.Overdue(s.timers, s.now), s.now + s.m_iWaitTime))
    case CheckOne =>
      var e := s.monitor.idle[0];
      var checked := if IsTimeout(s, e) then Closed(s, e.conn) else s;
      checked.(monitor := Checking(s.monitor.cur, s.monitor.idle[1..]))
    case EndPass => s.(monitor := Sleeping, lastPass := s.monitor.cur)
    case Tick(seconds) => s.(now := s.now + seconds)
  }

  /** Every client with its sequence number. */
  ghost function Stamps<T>(pool: P.Pool<T>, clients: set<T>): multiset<(T, nat)> {
    multiset(set c | c in clients && c in pool.conns :: (c, pool.conns[c].iCurrsequence))
  }

  /** The monitor has still to check this entry of this client. */
  predicate Awaiting<T(==)>(m: Monitor<T>, e: Q.Entry<T>) {
    m.Checking? && exists x :: x in m.idle && x.conn == e.conn && x.sequence == e.sequence
  }

  /** The deadline by which a client last heard from at `lastPingTime` is looked at again. */
  function Latest<T>(s: State<T>, c: P.Conn): int { c.lastPingTime + s.m_iWaitTime * 4 + 10 }

  /** No entry is due too late for its client, and none was overlooked by a finished pass. */
  predicate OnTime<T(==)>(s: State<T>, e: Q.Entry<T>) {
    && e.conn in s.pool.conns
    && s.lastPass <= e.time
    && (s.monitor.Checking? ==> s.monitor.cur <= e.time)
    && s.lastPass <= Latest(s, s.pool.conns[e.conn])
    && (e.time <= Latest(s, s.pool.conns[e.conn])
        || (Awaiting(s.monitor, e) && e.time <= s.monitor.cur + s.m_iWaitTime))
  }

  /** A collected entry may have lost its client, and then never matches again. */
  predicate Collected<T(==)>(s: State<T>, x: Q.Entry<T>) {
    && x.conn in s.pool.conns
    && x.sequence <= s.pool.conns[x.conn].iCurrsequence
    && (x.sequence == s.pool.conns[x.conn].iCurrsequence ==> x.conn in s.clients)
  }

  ghost predicate Sound<T>(s: State<T>) {
    && P.Partition(s.pool) && s.clients <= s.pool.inUse
    && s.m_iWaitTime >= 5
    && s.lastPass <= s.now <= s.lastPass + s.period
    && (s.monitor.Checking? ==> s.lastPass <= s.monitor.cur <= s.now)
    && forall c :: c in s.clients ==> c in s.pool.conns && s.pool.conns[c].lastPingTime <= s.now
  }

  /** With kicking enabled, every client has exactly one timer entry, stamped with its sequence number. */
  ghost predicate Armed<T>(s: State<T>) {
    Q.Sorted(s.timers) && Q.Waiting(s.timers) == if s.kicking then Stamps(s.pool, s.clients) else multiset{}
  }

  ghost predicate Timed<T>(s: State<T>) {
    forall e :: e in s.timers ==> OnTime(s, e)
  }

  ghost predicate Gathered<T>(s: State<T>) {
    s.monitor.Checking? ==> forall x :: x in s.monitor.idle ==> Collected(s, x)
  }

  ghost predicate Inv<T>(s: State<T>) {
    Sound(s) && Armed(s) && Timed(s) && Gathered(s)
  }

  lemma EntryIsClient<T>(s: State<T>, e: Q.Entry<T>)
    requires Armed(s) && e in s.timers
    ensures e.conn in s.clients && e.conn in s.pool.conns && e.sequence == s.pool.conns[e.conn].iCurrsequence
  {
    var i :| 0 <= i < |s.timers| && s.timers[i] == e;
    assert Q.Ids(s.timers)[i] in Q.Waiting(s.timers);
  }

  lemma ClientHasEntry<T>(s: State<T>, c: T) returns (e: Q.Entry<T>)
    requires Armed(s) && s.kicking && c in s.clients && c in s.pool.conns
    ensures e in s.timers && e.conn == c && e.sequence == s.pool.conns[c].iCurrsequence
  {
    assert (c, s.pool.conns[c].iCurrsequence) in Stamps(s.pool, s.clients);
    var i :| 0 <= i < |Q.Ids(s.timers)| && Q.Ids(s.timers)[i] == (c, s.pool.conns[c].iCurrsequence);
    e := s.timers[i];
  }

  /** What a pool step on somebody who is no client leaves alone. */
  ghost predicate Quiet<T>(s: State<T>, t: State<T>) {
    && t == s.(pool := t.pool)
    && (forall c :: c in s.clients ==> c in s.pool.conns && c in t.pool.conns && t.pool.conns[c] == s.pool.conns[c])
    && (forall c :: c in s.pool.conns ==>
          c in t.pool.conns && s.pool.conns[c].iCurrsequence <= t.pool.conns[c].iCurrsequence)
  }

  lemma QuietStamps<T>(s: State<T>, t: State<T>)
    requires Quiet(s, t)
    ensures Stamps(t.pool, t.clients) == Stamps(s.pool, s.clients)
  {
    assert (set c | c in t.clients && c in t.pool.conns :: (c, t.pool.conns[c].iCurrsequence))
        == (set c | c in s.clients && c in s.pool.conns :: (c, s.pool.conns[c].iCurrsequence));
  }

  lemma QuietInv<T>(s: State<T>, t: State<T>)
    requires Inv(s) && Quiet(s, t) && Sound(t)
    ensures Inv(t)
  {
    QuietStamps(s, t);
    forall e | e in t.timers ensures OnTime(t, e) {
      EntryIsClient(s, e);
      assert OnTime(s, e);
    }
    if s.monitor.Checking? {
      forall x | x in t.monitor.idle ensures Collected(t, x) {
        assert Collected(s, x);
      }
    }
  }

  /** A step of the pool on a connection that is no client. */
  lemma PoolStepQuiet<T>(s: State<T>, step: P.Step<T>)
    requires Inv(s) && P.Enabled(s.pool, step) && step.conn !in s.clients
    ensures Quiet(s, s.(pool := P.Next(s.pool, step))) && Sound(s.(pool := P.Next(s.pool, step)))
  {
    var t := s.(pool := P.Next(s.pool, step));
    P.PartitionStep(s.pool, step);
    forall c | c in s.pool.conns
      ensures c in t.pool.conns && s.pool.conns[c].iCurrsequence <= t.pool.conns[c].iCurrsequence
    {
      P.SequenceCountsMoves(s.pool, step, c);
    }
  }

  lemma StampsJoin<T>(pool: P.Pool<T>, clients: set<T>, c: T)
    requires c !in clients && c in pool.conns
    ensures Stamps(pool, clients + {c}) == Stamps(pool, clients) + multiset{(c, pool.conns[c].iCurrsequence)}
  {
    var before := set d | d in clients && d in pool.conns :: (d, pool.conns[d].iCurrsequence);
    assert (set d | d in clients + {c} && d in pool.conns :: (d, pool.conns[d].iCurrsequence))
        == before + {(c, pool.conns[c].iCurrsequence)};
    assert (c, pool.conns[c].iCurrsequence) !in before;
  }

  lemma JoinArmed<T>(s: State<T>, c: T)
    requires Armed(s) && c in s.pool.conns && c !in s.clients
    ensures Armed(Joined(s, c))
  {
    var e := Q.Entry(s.now + s.m_iWaitTime, c, s.pool.conns[c].iCurrsequence);
    if s.kicking {
      Q.InsertSorted(s.timers, e);
      Q.WaitingInsert(s.timers, e);
      StampsJoin(s.pool, s.clients, c);
      assert Joined(s, c).timers == Q.Insert(s.timers, e);
    }
  }

  lemma JoinTimed<T>(s: State<T>, c: T, x: Q.Entry<T>)
    requires Sound(s) && Timed(s) && c in s.pool.conns && s.pool.conns[c].lastPingTime == s.now
    requires x in Joined(s, c).timers
    ensures OnTime(Joined(s, c), x)
  {
    var e := Q.Entry(s.now + s.m_iWaitTime, c, s.pool.conns[c].iCurrsequence);
    if x in s.timers {
      assert OnTime(s, x);
    } else {
      Q.InsertMembers(s.timers, e);
      assert x in multiset(Q.Insert(s.timers, e));
    }
  }

  /** A connection that has just come into use becomes a client. */
  lemma JoinInv<T>(s: State<T>, c: T)
    requires Inv(s) && c in s.pool.inUse && c in s.pool.conns && c !in s.clients
    requires s.pool.conns[c].lastPingTime == s.now
    ensures Inv(Joined(s, c))
  {
    var t := Joined(s, c);
    JoinArmed(s, c);
    forall x | x in t.timers ensures OnTime(t, x) {
      JoinTimed(s, c, x);
    }
    if s.monitor.Checking? {
      forall x | x in t.monitor.idle ensures Collected(t, x) {
        assert Collected(s, x);
      }
    }
  }

  lemma AcceptInv<T>(s: State<T>, step: Step<T>)
    requires Inv(s) && Enabled(s, step) && step.Accept?
    ensures Inv(Next(s, step))
  {
    var entered := Entered(s, step.conn, step.sock);
    JoinInv(entered, step.conn);
  }

  lemma Entered<T>(s: State<T>, c: T, sock: int) returns (t: State<T>)
    requires Inv(s) && P.Enabled(s.pool, P.Get(c, sock, s.now))
    ensures t == s.(pool := P.Next(s.pool, P.Get(c, sock, s.now))) && Inv(t)
    ensures c in t.pool.inUse && c in t.pool.conns && c !in t.clients && t.pool.conns[c].lastPingTime == t.now
  {
    var get := P.Get(c, sock, s.now);
    P.InOnePlace(s.pool, c);
    t := s.(pool := P.Next(s.pool, get));
    PoolStepQuiet(s, get);
    QuietInv(s, t);
  }

  lemma HungPartition<T>(p: P.Pool<T>, c: T)
    requires P.Partition(p) && c in p.conns
    ensures P.Partition(p.(conns := p.conns[c := Hung(p.conns[c])]))
  {
    P.KeysKept(p.conns, c, Hung(p.conns[c]));
  }

  lemma ClosedPartition<T>(s: State<T>, c: T)
    requires P.Partition(s.pool) && c in s.pool.conns && c !in s.pool.free
    ensures P.Partition(Closed(s, c).pool)
  {
    HungPartition(s.pool, c);
    P.PartitionStep(s.pool.(conns := s.pool.conns[c := Hung(s.pool.conns[c])]), P.Retire(c, s.now));
  }

  lemma StampsAt<T>(pool: P.Pool<T>, clients: set<T>, who: (T, nat))
    ensures Stamps(pool, clients)[who]
            == if who.0 in clients && who.0 in pool.conns && pool.conns[who.0].iCurrsequence == who.1 then 1 else 0
  {}

  lemma StampsLeave<T>(s: State<T>, t: State<T>, c: T)
    requires Armed(s) && s.kicking && t.clients == s.clients - {c}
    requires forall d :: d in t.clients ==> d in s.pool.conns && d in t.pool.conns && t.pool.conns[d] == s.pool.conns[d]
    ensures Q.Waiting(Q.Without(s.timers, c)) == Stamps(t.pool, t.clients)
  {
    var left, stamps := Q.Waiting(Q.Without(s.timers, c)), Stamps(t.pool, t.clients);
    forall who: (T, nat) ensures left[who] == stamps[who] {
      Q.WaitingWithout(s.timers, c, who);
      StampsAt(s.pool, s.clients, who);
      StampsAt(t.pool, t.clients, who);
    }
    assert left == stamps;
  }

  lemma CloseClientPool<T>(s: State<T>, c: T)
    requires Sound(s) && c in s.clients
    ensures Sound(Closed(s, c)) && c in Closed(s, c).pool.conns
    ensures Closed(s, c).pool.conns[c].iCurrsequence == s.pool.conns[c].iCurrsequence + 1
    ensures forall d :: d in s.pool.conns && d != c ==> d in Closed(s, c).pool.conns && Closed(s, c).pool.conns[d] == s.pool.conns[d]
  {
    P.InOnePlace(s.pool, c);
    ClosedPartition(s, c);
  }

  lemma CloseClientArmed<T>(s: State<T>, c: T)
    requires Sound(s) && Armed(s) && c in s.clients
    ensures Armed(Closed(s, c))
  {
    CloseClientPool(s, c);
    if s.kicking {
      Q.WithoutSorted(s.timers, c);
      StampsLeave(s, Closed(s, c), c);
    }
  }

  lemma CloseClientTimed<T>(s: State<T>, c: T, e: Q.Entry<T>)
    requires Inv(s) && c in s.clients && e in Closed(s, c).timers
    ensures OnTime(Closed(s, c), e)
  {
    CloseClientPool(s, c);
    Q.WithoutMembers(s.timers, c);
    EntryIsClient(s, e);
    assert OnTime(s, e);
  }

  /** zdClosesocketProc on a client, by its peer's doing or by the monitor's. */
  lemma CloseClientInv<T>(s: State<T>, c: T)
    requires Inv(s) && c in s.clients
    ensures Inv(Closed(s, c)) && c in Closed(s, c).pool.conns
    ensures Closed(s, c).pool.conns[c].iCurrsequence == s.pool.conns[c].iCurrsequence + 1
  {
    var t := Closed(s, c);
    CloseClientPool(s, c);
    CloseClientArmed(s, c);
    forall e | e in t.timers ensures OnTime(t, e) {
      CloseClientTimed(s, c, e);
    }
    if s.monitor.Checking? {
      forall x | x in t.monitor.idle ensures Collected(t, x) {
        assert Collected(s, x);
      }
    }
  }

  lemma NoTimerOf<T>(s: State<T>, c: T)
    requires Armed(s) && c !in s.clients
    ensures Q.Without(s.timers, c) == s.timers
  {
    forall i | 0 <= i < |s.timers| ensures s.timers[i].conn != c {
      EntryIsClient(s, s.timers[i]);
    }
    Q.WithoutNothing(s.timers, c);
  }

  /** What closing does: no socket, no timer, no client, and a place in the recycling list from now on. */
  lemma ClosedFacts<T>(s: State<T>, c: T)
    requires c in s.pool.conns
    ensures var t := Closed(s, c);
            && c in t.pool.conns && t.pool.conns[c].fd == -1 && c !in t.clients && c in t.pool.recy
            && (c !in s.pool.recy ==>
                  && t.pool.conns[c].inRecyTime == s.now && c !in t.pool.inUse
                  && t.pool.conns[c].iCurrsequence == s.pool.conns[c].iCurrsequence + 1)
            && (s.pool.conns[c].iThrowsendCount > 0 ==>
                  t.pool.conns[c].iThrowsendCount == s.pool.conns[c].iThrowsendCount - 1)
            && (s.pool.conns[c].iThrowsendCount <= 0 ==> t.pool.conns[c].iThrowsendCount == s.pool.conns[c].iThrowsendCount)
            && forall d :: d in s.pool.conns && d != c ==> d in t.pool.conns && t.pool.conns[d] == s.pool.conns[d]
  {}

  lemma ClosedTimers<T>(s: State<T>, c: T, e: Q.Entry<T>)
    requires c in s.pool.conns && s.kicking
    ensures e in Closed(s, c).timers <==> e in s.timers && e.conn != c
  {
    Q.WithoutMembers(s.timers, c);
  }

  /** Closing a listening socket, or a connection that waits to be recycled, changes nothing for the clients. */
  lemma CloseOtherInv<T>(s: State<T>, c: T)
    requires Inv(s) && c !in s.clients && c in s.pool.conns && c !in s.pool.free
    ensures Inv(Closed(s, c))
  {
    var t := Closed(s, c);
    ClosedPartition(s, c);
    NoTimerOf(s, c);
    CloseOtherQuiet(s, t, c);
    QuietInv(s, t);
  }

  lemma CloseOtherQuiet<T>(s: State<T>, t: State<T>, c: T)
    requires Sound(s) && c !in s.clients && c in s.pool.conns && Q.Without(s.timers, c) == s.timers
    requires t == Closed(s, c) && P.Partition(t.pool)
    ensures Quiet(s, t) && Sound(t)
  {}

  lemma PingInv<T>(s: State<T>, c: T, sequence: nat)
    requires Inv(s) && c in s.pool.conns
    ensures Inv(Next(s, Ping(c, sequence)))
  {
    var t := Next(s, Ping(c, sequence));
    P.KeysKept(s.pool.conns, c, s.pool.conns[c].(lastPingTime := s.now));
    assert (set d | d in t.clients && d in t.pool.conns :: (d, t.pool.conns[d].iCurrsequence))
        == (set d | d in s.clients && d in s.pool.conns :: (d, s.pool.conns[d].iCurrsequence));
    forall e | e in t.timers ensures OnTime(t, e) {
      EntryIsClient(s, e);
      assert OnTime(s, e);
    }
    if s.monitor.Checking? {
      forall x | x in t.monitor.idle ensures Collected(t, x) {
        assert Collected(s, x);
      }
    }
  }

  lemma RecycledTimed<T>(s: State<T>, e: Q.Entry<T>)
    requires Inv(s) && s.monitor.Sleeping? && Q.Overdue(s.timers, s.now) > 0 && e in Next(s, BeginPass).timers
    ensures OnTime(Next(s, BeginPass), e)
  {
    var n, time := Q.Overdue(s.timers, s.now), s.now + s.m_iWaitTime;
    var x := CameFrom(s.timers, s.now, s.m_iWaitTime, e);
    EntryIsClient(s, x);
    assert OnTime(s, x);
    if e != x {
      assert x in Next(s, BeginPass).monitor.idle;
    }
  }

  /** An entry found after recycling was there before, and either is not overdue or was. */
  lemma CameFrom<T>(q: seq<Q.Entry<T>>, now: int, wait: nat, e: Q.Entry<T>) returns (x: Q.Entry<T>)
    requires Q.Sorted(q) && wait > 0 && e in Q.Recycle(q, Q.Due(q, now), now + wait)
    ensures x in q && e.conn == x.conn && e.sequence == x.sequence
    ensures (e == x && e.time > now) || (e.time == now + wait && x in q[..Q.Due(q, now)])
  {
    var n := Q.Due(q, now);
    Q.RecycledEntries(q, now, wait);
    assert e in multiset(Q.Recycle(q, n, now + wait));
    if e in q[n..] {
      var i :| n <= i < |q| && q[i] == e;
      assert q[n].time <= q[i].time;
      x := e;
    } else {
      assert e in Q.Rearm(q[..n], now + wait);
      var i :| 0 <= i < n && Q.Rearm(q[..n], now + wait)[i] == e;
      x := q[i];
      assert x == q[..n][i];
    }
  }

  lemma BeginTimed<T>(s: State<T>, e: Q.Entry<T>)
    requires Inv(s) && s.monitor.Sleeping? && e in Next(s, BeginPass).timers
    ensures OnTime(Next(s, BeginPass), e)
  {
    if Q.Overdue(s.timers, s.now) > 0 {
      RecycledTimed(s, e);
    } else {
      assert OnTime(s, e);
      NotYet(s, e);
    }
  }

  lemma NotYet<T>(s: State<T>, e: Q.Entry<T>)
    requires Q.Sorted(s.timers) && Q.Overdue(s.timers, s.now) == 0 && e in s.timers
    ensures e.time >= s.now
  {
    assert s.timers[0].time >= s.now;
  }

  lemma BeginArmed<T>(s: State<T>)
    requires Inv(s) && s.monitor.Sleeping?
    ensures Armed(Next(s, BeginPass))
  {
    Q.RecycledWaiting(s.timers, Q.Overdue(s.timers, s.now), s.now + s.m_iWaitTime);
    Q.RecycledSorted(s.timers, Q.Overdue(s.timers, s.now), s.now + s.m_iWaitTime);
  }

  lemma BeginInv<T>(s: State<T>)
    requires Inv(s) && s.monitor.Sleeping?
    ensures Inv(Next(s, BeginPass))
  {
    var t := Next(s, BeginPass);
    BeginArmed(s);
    forall e | e in t.timers ensures OnTime(t, e) {
      BeginTimed(s, e);
    }
    forall x | x in t.monitor.idle ensures Collected(t, x) {
      assert x in s.timers;
      EntryIsClient(s, x);
    }
  }

  /** The monitor has looked at its first collected entry, and left the client alone. */
  lemma PassedInv<T>(s: State<T>)
    requires Inv(s) && s.monitor.Checking? && s.monitor.idle != [] && !IsTimeout(s, s.monitor.idle[0])
    ensures Inv(s.(monitor := Checking(s.monitor.cur, s.monitor.idle[1..])))
  {
    var t := s.(monitor := Checking(s.monitor.cur, s.monitor.idle[1..]));
    var x := s.monitor.idle[0];
    assert Collected(s, x);
    assert s.monitor.idle == [x] + t.monitor.idle;
    forall e | e in t.timers ensures OnTime(t, e) {
      EntryIsClient(s, e);
      assert OnTime(s, e);
    }
    forall y | y in t.monitor.idle ensures Collected(t, y) {
      assert Collected(s, y);
    }
  }

  lemma CheckInv<T>(s: State<T>)
    requires Inv(s) && Enabled(s, CheckOne)
    ensures Inv(Next(s, CheckOne))
  {
    var x := s.monitor.idle[0];
    if IsTimeout(s, x) {
      assert Collected(s, x);
      CloseClientInv(s, x.conn);
      PassedInv(Closed(s, x.conn));
    } else {
      PassedInv(s);
    }
  }

  lemma EndInv<T>(s: State<T>)
    requires Inv(s) && Enabled(s, EndPass)
    ensures Inv(Next(s, EndPass))
  {
    var t := Next(s, EndPass);
    forall e | e in t.timers ensures OnTime(t, e) {
      assert OnTime(s, e);
    }
  }

  lemma TickInv<T>(s: State<T>, seconds: nat)
    requires Inv(s) && Enabled(s, Tick(seconds))
    ensures Inv(Next(s, Tick(seconds)))
  {
    var t := Next(s, Tick(seconds));
    forall e | e in t.timers ensures OnTime(t, e) {
      assert OnTime(s, e);
    }
    if s.monitor.Checking? {
      forall x | x in t.monitor.idle ensures Collected(t, x) {
        assert Collected(s, x);
      }
    }
  }

  lemma InvStep<T>(s: State<T>, step: Step<T>)
    requires Inv(s) && Enabled(s, step)
    ensures Inv(Next(s, step))
  {
    match step
    case Accept(c, sock) => AcceptInv(s, step);
    case Open(c, sock) => OtherInv(s, P.Get(c, sock, s.now));
    case GiveUp(c) => OtherInv(s, P.GiveUp(c));
    case Release(c, stopping) => OtherInv(s, P.Release(c, s.now, stopping));
    case Close(c) =>
      if c in s.clients {
        CloseClientInv(s, c);
      } else {
        CloseOtherInv(s, c);
      }
    case Ping(c, sequence) => PingInv(s, c, sequence);
    case BeginPass => BeginInv(s);
    case CheckOne => CheckInv(s);
    case EndPass => EndInv(s);
    case Tick(seconds) => TickInv(s, seconds);
  }

  lemma OtherInv<T>(s: State<T>, step: P.Step<T>)
    requires Inv(s) && P.Enabled(s.pool, step) && (step.GiveUp? ==> step.conn !in s.clients) && !step.Retire?
    ensures Inv(s.(pool := P.Next(s.pool, step)))
  {
    P.InOnePlace(s.pool, step.conn);
    PoolStepQuiet(s, step);
    QuietInv(s, s.(pool := P.Next(s.pool, step)));
  }

  predicate Enabling<T(==)>(s: State<T>, steps: seq<Step<T>>)
    decreases steps
  {
    steps == [] || (Enabled(s, steps[0]) && Enabling(Next(s, steps[0]), steps[1..]))
  }

  function Run<T(==)>(s: State<T>, steps: seq<Step<T>>): State<T>
    requires Enabling(s, steps)
    decreases steps
  {
    if steps == [] then s else Run(Next(s, steps[0]), steps[1..])
  }

  function Initial<T(==)>(pool: P.Pool<T>, now: int, wait: nat, period: nat, kicking: bool): State<T> {
    State(pool, {}, [], Sleeping, now, now, wait, period, kicking)
  }

  lemma InitialInv<T>(pool: P.Pool<T>, now: int, wait: nat, period: nat, kicking: bool)
    requires P.Partition(pool) && wait >= 5
    ensures Inv(Initial(pool, now, wait, period, kicking))
  {
    forall who: (T, nat) ensures Stamps(pool, {})[who] == 0 {
      StampsAt(pool, {}, who);
    }
  }

  lemma {:induction false} RunInv<T>(s: State<T>, steps: seq<Step<T>>)
    requires Inv(s) && Enabling(s, steps)
    ensures Inv(Run(s, steps))
    decreases steps
  {
    if steps != [] {
      InvStep(s, steps[0]);
      RunInv(Next(s, steps[0]), steps[1..]);
    }
  }

  /** The monitor is never stuck in a pass: what it collected can always be checked, whatever has become of it. */
  lemma CheckNeverBlocks<T>(s: State<T>)
    requires Inv(s) && s.monitor.Checking? && s.monitor.idle != []
    ensures Enabled(s, CheckOne)
  {
    assert Collected(s, s.monitor.idle[0]);
    P.InOnePlace(s.pool, s.monitor.idle[0].conn);
  }

  /** At any time of any run, every client has been heard from in the last four waiting times and ten seconds, give or
      take one period of the monitor: who is silent for longer has been kicked. */
  lemma HeartbeatBound<T>(start: State<T>, steps: seq<Step<T>>, c: T)
    requires Inv(start) && start.kicking && Enabling(start, steps) && c in Run(start, steps).clients
    ensures c in Run(start, steps).pool.conns
    ensures var s := Run(start, steps);
            s.now <= s.pool.conns[c].lastPingTime + 4 * s.m_iWaitTime + 10 + s.period
  {
    var s := Run(start, steps);
    RunInv(start, steps);
    RunKeepsKicking(start, steps);
    var e := ClientHasEntry(s, c);
    assert OnTime(s, e);
  }

  lemma {:induction false} RunKeepsKicking<T>(s: State<T>, steps: seq<Step<T>>)
    requires Enabling(s, steps)
    ensures Run(s, steps).kicking == s.kicking
    decreases steps
  {
    if steps != [] {
      RunKeepsKicking(Next(s, steps[0]), steps[1..]);
    }
  }

  /** The monitor takes out exactly the clients that it finds silent for more than three waiting times and ten seconds,
      and takes them as they were when the pass began. */
  lemma OnlySilentAreKicked<T>(s: State<T>, c: T)
    requires Inv(s) && Enabled(s, CheckOne) && c in s.clients && c in s.pool.conns
    ensures c !in Next(s, CheckOne).clients <==> c == s.monitor.idle[0].conn && IsTimeout(s, s.monitor.idle[0])
    ensures c !in Next(s, CheckOne).clients ==> s.now > s.pool.conns[c].lastPingTime + 3 * s.m_iWaitTime + 10
  {}

  // ---------- what was heard, step by step ----------

  /** How long the client of connection `c` with number `n` has been silent after a step, from how long it had been. */
  function Heard<T(==)>(step: Step<T>, c: T, n: nat, silent: int): int {
    match step
    case Ping(d, sequence) => if d == c && sequence == n then 0 else silent
    case Tick(seconds) => silent + seconds
    case _ => silent
  }

  /** And after a run: the seconds that have passed since its last ping, or since the start and `silent` before. */
  function Silence<T(==)>(steps: seq<Step<T>>, c: T, n: nat, silent: int): int
    decreases steps
  {
    if steps == [] then silent else Silence(steps[1..], c, n, Heard(steps[0], c, n, silent))
  }

  /** Never silent for longer than `limit`; and nobody closes the connection. */
  predicate PingsInTime<T(==)>(steps: seq<Step<T>>, c: T, n: nat, silent: int, limit: int)
    decreases steps
  {
    silent <= limit
    && (steps == [] || (steps[0] != Close(c) && PingsInTime(steps[1..], c, n, Heard(steps[0], c, n, silent), limit)))
  }

  /** The seconds that pass in a run. */
  function Elapsed<T>(steps: seq<Step<T>>): nat
    decreases steps
  {
    if steps == [] then 0 else (if steps[0].Tick? then steps[0].seconds else 0) + Elapsed(steps[1..])
  }

  lemma {:induction false} RunTakes<T>(s: State<T>, steps: seq<Step<T>>)
    requires Enabling(s, steps)
    ensures Run(s, steps).now == s.now + Elapsed(steps)
    decreases steps
  {
    if steps != [] {
      RunTakes(Next(s, steps[0]), steps[1..]);
    }
  }

  lemma PunctualStays<T>(s: State<T>, step: Step<T>, c: T)
    requires Inv(s) && Enabled(s, step) && step != Close(c) && c in s.clients
    requires s.now <= s.pool.conns[c].lastPingTime + 3 * s.m_iWaitTime + 10
    ensures c in Next(s, step).clients
  {
    if step == CheckOne {
      OnlySilentAreKicked(s, c);
    }
  }

  /** Nobody takes over a connection while its client is there. */
  lemma ClientKeepsSequence<T>(s: State<T>, step: Step<T>, c: T)
    requires Inv(s) && Enabled(s, step) && c in s.clients && c in Next(s, step).clients
    ensures c in Next(s, step).pool.conns
    ensures Next(s, step).pool.conns[c].iCurrsequence == s.pool.conns[c].iCurrsequence
    ensures Next(s, step).pool.conns[c].fd == s.pool.conns[c].fd
  {
    P.InOnePlace(s.pool, c);
    match step
    case Accept(d, sock) => P.InOnePlace(s.pool, d);
    case Open(d, sock) => P.InOnePlace(s.pool, d);
    case GiveUp(d) =>
    case Release(d, stopping) => P.InOnePlace(s.pool, d);
    case Close(d) =>
    case Ping(d, sequence) =>
    case BeginPass =>
    case CheckOne =>
    case EndPass =>
    case Tick(seconds) =>
  }

  /** The stored time of the last ping follows the pings. */
  lemma HeardStep<T>(s: State<T>, step: Step<T>, c: T)
    requires Inv(s) && Enabled(s, step) && c in s.clients && c in s.pool.conns && c in Next(s, step).clients
    ensures c in Next(s, step).pool.conns
    ensures Next(s, step).now - Next(s, step).pool.conns[c].lastPingTime
            == Heard(step, c, s.pool.conns[c].iCurrsequence, s.now - s.pool.conns[c].lastPingTime)
  {
    P.InOnePlace(s.pool, c);
    match step
    case Accept(d, sock) => P.InOnePlace(s.pool, d);
    case Open(d, sock) => P.InOnePlace(s.pool, d);
    case GiveUp(d) =>
    case Release(d, stopping) => P.InOnePlace(s.pool, d);
    case Close(d) =>
    case Ping(d, sequence) =>
    case BeginPass =>
    case CheckOne =>
    case EndPass =>
    case Tick(seconds) =>
  }

  /** A client that is never silent for more than three waiting times and ten seconds stays the same client, with the same
      socket, through every run, until somebody else closes it. */
  lemma {:induction false} PunctualIsKept<T>(s: State<T>, steps: seq<Step<T>>, c: T)
    requires Inv(s) && Enabling(s, steps) && c in s.clients && c in s.pool.conns
    requires PingsInTime(steps, c, s.pool.conns[c].iCurrsequence, s.now - s.pool.conns[c].lastPingTime, 3 * s.m_iWaitTime + 10)
    ensures c in Run(s, steps).clients && c in Run(s, steps).pool.conns
    ensures Run(s, steps).pool.conns[c].iCurrsequence == s.pool.conns[c].iCurrsequence
    ensures Run(s, steps).pool.conns[c].fd == s.pool.conns[c].fd
    decreases steps
  {
    if steps != [] {
      InvStep(s, steps[0]);
      PunctualStays(s, steps[0], c);
      ClientKeepsSequence(s, steps[0], c);
      HeardStep(s, steps[0], c);
      PunctualIsKept(Next(s, steps[0]), steps[1..], c);
    }
  }

  lemma AcceptedNow<T>(s: State<T>, c: T, sock: int)
    requires Inv(s) && Enabled(s, Accept(c, sock))
    ensures var t := Next(s, Accept(c, sock));
            && Inv(t) && c in t.clients && c in t.pool.conns && t.m_iWaitTime == s.m_iWaitTime && t.period == s.period
            && t.pool.conns[c].fd == sock && t.pool.conns[c].lastPingTime == t.now && t.kicking == s.kicking
  {
    AcceptInv(s, Accept(c, sock));
  }

  lemma JoinedTimer<T>(s: State<T>, c: T, e: Q.Entry<T>)
    requires c in s.pool.conns && s.kicking && e == Q.Entry(s.now + s.m_iWaitTime, c, s.pool.conns[c].iCurrsequence)
    ensures e in Joined(s, c).timers
  {
    Q.InsertMembers(s.timers, e);
    assert e in multiset(Q.Insert(s.timers, e));
  }

  /** With kicking enabled, it has a timer one waiting time ahead, with its number. */
  lemma AcceptedTimer<T>(s: State<T>, c: T, sock: int)
    requires Inv(s) && s.kicking && Enabled(s, Accept(c, sock))
    ensures var t := Next(s, Accept(c, sock));
            c in t.pool.conns && Q.Entry(s.now + s.m_iWaitTime, c, t.pool.conns[c].iCurrsequence) in t.timers
  {
    var entered := Entered(s, c, sock);
    JoinedTimer(entered, c, Q.Entry(s.now + s.m_iWaitTime, c, entered.pool.conns[c].iCurrsequence));
  }

  /** From the moment it is accepted: whoever pings in time is not kicked, and keeps the socket it came with. */
  lemma AcceptedIsKept<T>(s: State<T>, c: T, sock: int, steps: seq<Step<T>>)
    requires Inv(s) && Enabled(s, Accept(c, sock)) && Enabling(Next(s, Accept(c, sock)), steps)
    requires c in Next(s, Accept(c, sock)).pool.conns
    requires var n := Next(s, Accept(c, sock)).pool.conns[c].iCurrsequence;
             PingsInTime(steps, c, n, 0, 3 * s.m_iWaitTime + 10)
    ensures var t := Run(Next(s, Accept(c, sock)), steps);
            && c in t.clients && c in t.pool.conns && t.pool.conns[c].fd == sock
            && t.pool.conns[c].iCurrsequence == Next(s, Accept(c, sock)).pool.conns[c].iCurrsequence
  {
    AcceptedNow(s, c, sock);
    PunctualIsKept(Next(s, Accept(c, sock)), steps, c);
  }

  lemma ClosedSequence<T>(s: State<T>, d: T, c: T)
    requires d in s.pool.conns && c in s.pool.conns
    ensures c in Closed(s, d).pool.conns
    ensures Closed(s, d).pool.conns[c].iCurrsequence >= s.pool.conns[c].iCurrsequence
  {}

  lemma SequenceStep<T>(s: State<T>, step: Step<T>, c: T)
    requires Inv(s) && Enabled(s, step) && c in s.pool.conns
    ensures c in Next(s, step).pool.conns
    ensures Next(s, step).pool.conns[c].iCurrsequence >= s.pool.conns[c].iCurrsequence
  {
    match step
    case Accept(d, sock) => P.SequenceCountsMoves(s.pool, P.Get(d, sock, s.now), c);
    case Open(d, sock) => P.SequenceCountsMoves(s.pool, P.Get(d, sock, s.now), c);
    case GiveUp(d) => P.SequenceCountsMoves(s.pool, P.GiveUp(d), c);
    case Release(d, stopping) => P.SequenceCountsMoves(s.pool, P.Release(d, s.now, stopping), c);
    case Close(d) => ClosedSequence(s, d, c);
    case CheckOne =>
      if IsTimeout(s, s.monitor.idle[0]) {
        ClosedSequence(s, s.monitor.idle[0].conn, c);
      }
    case _ =>
  }

  lemma SilentLeaves<T>(s: State<T>, step: Step<T>, c: T)
    requires Inv(s) && Enabled(s, step) && c in s.clients && c !in Next(s, step).clients
    ensures c in Next(s, step).pool.conns
    ensures Next(s, step).pool.conns[c].iCurrsequence > s.pool.conns[c].iCurrsequence
  {
    CloseClientPool(s, c);
  }

  lemma {:induction false} SequenceGrows<T>(s: State<T>, steps: seq<Step<T>>, c: T)
    requires Inv(s) && Enabling(s, steps) && c in s.pool.conns
    ensures c in Run(s, steps).pool.conns
    ensures Run(s, steps).pool.conns[c].iCurrsequence >= s.pool.conns[c].iCurrsequence
    decreases steps
  {
    if steps != [] {
      InvStep(s, steps[0]);
      SequenceStep(s, steps[0], c);
      SequenceGrows(Next(s, steps[0]), steps[1..], c);
    }
  }

  /** As long as the number is the same it is the same client, and the time since its last ping is its silence. */
  lemma {:induction false} SameNumberSameClient<T>(s: State<T>, steps: seq<Step<T>>, c: T)
    requires Inv(s) && Enabling(s, steps) && c in s.clients && c in s.pool.conns
    ensures c in Run(s, steps).pool.conns
    ensures Run(s, steps).pool.conns[c].iCurrsequence >= s.pool.conns[c].iCurrsequence
    ensures Run(s, steps).pool.conns[c].iCurrsequence == s.pool.conns[c].iCurrsequence ==>
              && c in Run(s, steps).clients
              && Run(s, steps).now - Run(s, steps).pool.conns[c].lastPingTime
                 == Silence(steps, c, s.pool.conns[c].iCurrsequence, s.now - s.pool.conns[c].lastPingTime)
    decreases steps
  {
    if steps != [] {
      var next := Next(s, steps[0]);
      InvStep(s, steps[0]);
      SequenceStep(s, steps[0], c);
      if c in next.clients {
        ClientKeepsSequence(s, steps[0], c);
        HeardStep(s, steps[0], c);
        SameNumberSameClient(next, steps[1..], c);
      } else {
        SilentLeaves(s, steps[0], c);
        SequenceGrows(next, steps[1..], c);
      }
    }
  }

  lemma {:induction false} RunKeepsTimes<T>(s: State<T>, steps: seq<Step<T>>)
    requires Enabling(s, steps)
    ensures Run(s, steps).m_iWaitTime == s.m_iWaitTime && Run(s, steps).period == s.period
    decreases steps
  {
    if steps != [] {
      RunKeepsTimes(Next(s, steps[0]), steps[1..]);
    }
  }

  /** A client that has been silent for more than four waiting times, ten seconds and one period of the monitor has lost its
      connection, and its sequence number with it. */
  lemma SilentIsKicked<T>(s: State<T>, steps: seq<Step<T>>, c: T)
    requires Inv(s) && s.kicking && Enabling(s, steps) && c in s.clients && c in s.pool.conns
    requires Silence(steps, c, s.pool.conns[c].iCurrsequence, s.now - s.pool.conns[c].lastPingTime)
             > 4 * s.m_iWaitTime + 10 + s.period
    ensures c in Run(s, steps).pool.conns
    ensures Run(s, steps).pool.conns[c].iCurrsequence > s.pool.conns[c].iCurrsequence
  {
    SameNumberSameClient(s, steps, c);
    RunKeepsTimes(s, steps);
    if Run(s, steps).pool.conns[c].iCurrsequence == s.pool.conns[c].iCurrsequence {
      HeartbeatBound(s, steps, c);
    }
  }

  /** From the moment it is accepted, too. */
  lemma AcceptedSilentIsKicked<T>(s: State<T>, c: T, sock: int, steps: seq<Step<T>>)
    requires Inv(s) && s.kicking && Enabled(s, Accept(c, sock)) && Enabling(Next(s, Accept(c, sock)), steps)
    requires c in Next(s, Accept(c, sock)).pool.conns
    requires Silence(steps, c, Next(s, Accept(c, sock)).pool.conns[c].iCurrsequence, 0) > 4 * s.m_iWaitTime + 10 + s.period
    ensures var t := Run(Next(s, Accept(c, sock)), steps);
            c in t.pool.conns && t.pool.conns[c].iCurrsequence > Next(s, Accept(c, sock)).pool.conns[c].iCurrsequence
  {
    AcceptedNow(s, c, sock);
    JustHeard(Next(s, Accept(c, sock)), steps, c);
  }

  lemma JustHeard<T>(s: State<T>, steps: seq<Step<T>>, c: T)
    requires Inv(s) && s.kicking && Enabling(s, steps) && c in s.clients && c in s.pool.conns
    requires s.pool.conns[c].lastPingTime == s.now
    requires Silence(steps, c, s.pool.conns[c].iCurrsequence, 0) > 4 * s.m_iWaitTime + 10 + s.period
    ensures c in Run(s, steps).pool.conns && Run(s, steps).pool.conns[c].iCurrsequence > s.pool.conns[c].iCurrsequence
  {
    SilentIsKicked(s, steps, c);
  }

  // ---------- time goes on ----------

  lemma {:induction false} RunConcat<T>(s: State<T>, a: seq<Step<T>>, b: seq<Step<T>>)
    requires Enabling(s, a) && Enabling(Run(s, a), b)
    ensures Enabling(s, a + b) && Run(s, a + b) == Run(Run(s, a), b)
    ensures Elapsed(a + b) == Elapsed(a) + Elapsed(b)
    decreases a
  {
    if a == [] {
      assert a + b == b;
    } else {
      assert (a + b)[1..] == a[1..] + b;
      RunConcat(Next(s, a[0]), a[1..], b);
    }
  }

  lemma OneStep<T>(s: State<T>, step: Step<T>)
    requires Enabled(s, step)
    ensures Enabling(s, [step]) && Run(s, [step]) == Next(s, step)
    ensures Elapsed([step]) == if step.Tick? then step.seconds else 0
  {
    assert [step][1..] == [];
    assert Enabling(Next(s, step), []) && Run(Next(s, step), []) == Next(s, step);
  }

  /** The monitor gets through all that it has collected. */
  lemma {:induction false} ChecksEnd<T>(s: State<T>) returns (steps: seq<Step<T>>)
    requires Inv(s) && s.monitor.Checking?
    ensures Enabling(s, steps) && Elapsed(steps) == 0 && Inv(Run(s, steps))
    ensures Run(s, steps).monitor == Checking(s.monitor.cur, []) && Run(s, steps).now == s.now
    ensures Run(s, steps).period == s.period
    decreases |s.monitor.idle|
  {
    if s.monitor.idle == [] {
      steps := [];
    } else {
      CheckNeverBlocks(s);
      InvStep(s, CheckOne);
      OneStep(s, CheckOne);
      var later := ChecksEnd(Next(s, CheckOne));
      RunConcat(s, [CheckOne], later);
      steps := [CheckOne] + later;
    }
  }

  lemma AllChecked<T>(s: State<T>) returns (steps: seq<Step<T>>)
    requires Inv(s) && s.monitor.Sleeping?
    ensures Enabling(s, steps) && Elapsed(steps) == 0 && Inv(Run(s, steps))
    ensures Run(s, steps).monitor == Checking(s.now, []) && Run(s, steps).now == s.now && Run(s, steps).period == s.period
  {
    InvStep(s, BeginPass);
    OneStep(s, BeginPass);
    var checks := ChecksEnd(Next(s, BeginPass));
    RunConcat(s, [BeginPass], checks);
    steps := [BeginPass] + checks;
  }

  /** A whole pass takes no longer than the monitor takes: it can end in the second in which it begins, and then the clock
      can run for a whole period. */
  lemma PassAtOnce<T>(s: State<T>) returns (steps: seq<Step<T>>)
    requires Inv(s) && s.monitor.Sleeping?
    ensures Enabling(s, steps) && Elapsed(steps) == 0 && Inv(Run(s, steps)) && Run(s, steps).monitor.Sleeping?
    ensures Run(s, steps).now == s.now && Run(s, steps).period == s.period
    ensures forall seconds: nat :: seconds <= s.period ==> Enabled(Run(s, steps), Tick(seconds))
  {
    var checks := AllChecked(s);
    var checked := Run(s, checks);
    InvStep(checked, EndPass);
    OneStep(checked, EndPass);
    RunConcat(s, checks, [EndPass]);
    steps := checks + [EndPass];
  }

  /** However long one waits: there is a run in which so many seconds pass, so none of the bounds holds for want of time. */
  lemma {:induction false} TimeGoesOn<T>(s: State<T>, seconds: nat) returns (steps: seq<Step<T>>)
    requires Inv(s) && s.monitor.Sleeping? && s.period > 0
    ensures Enabling(s, steps) && Elapsed(steps) == seconds && Run(s, steps).now == s.now + seconds
    ensures Run(s, steps).monitor.Sleeping?
    decreases seconds
  {
    steps := [];
    if seconds > 0 {
      var pass := PassAtOnce(s);
      var passed := Run(s, pass);
      InvStep(passed, Tick(1));
      OneStep(passed, Tick(1));
      var later := TimeGoesOn(Next(passed, Tick(1)), seconds - 1);
      RunConcat(passed, [Tick(1)], later);
      RunConcat(s, pass, [Tick(1)] + later);
      steps := pass + ([Tick(1)] + later);
    }
  }

  // ---------- recycling takes its time ----------

  lemma RecycledStep<T>(s: State<T>, step: Step<T>, c: T, t: int)
    requires Inv(s) && Enabled(s, step) && c in s.pool.recy && c in s.pool.conns && s.pool.conns[c].inRecyTime == t
    requires step != Release(c, true)
    ensures var next := Next(s, step);
            || (c in next.pool.recy && c in next.pool.conns && next.pool.conns[c].inRecyTime == t)
            || next.now >= t + 60
  {
    P.InOnePlace(s.pool, c);
    match step
    case Accept(d, sock) => P.RecyclingStep(s.pool, P.Get(d, sock, s.now), c, t);
    case Open(d, sock) => P.RecyclingStep(s.pool, P.Get(d, sock, s.now), c, t);
    case GiveUp(d) => P.RecyclingStep(s.pool, P.GiveUp(d), c, t);
    case Release(d, stopping) => P.RecyclingStep(s.pool, P.Release(d, s.now, stopping), c, t);
    case _ =>
  }

  lemma {:induction false} RecycledWaits<T>(s: State<T>, steps: seq<Step<T>>, c: T, t: int)
    requires Inv(s) && Enabling(s, steps) && c in s.pool.recy && c in s.pool.conns && s.pool.conns[c].inRecyTime == t
    requires Release(c, true) !in steps
    ensures c in Run(s, steps).pool.recy || Run(s, steps).now >= t + 60
    decreases steps
  {
    if steps != [] {
      var next := Next(s, steps[0]);
      InvStep(s, steps[0]);
      RecycledStep(s, steps[0], c, t);
      if c in next.pool.recy && c in next.pool.conns && next.pool.conns[c].inRecyTime == t {
        RecycledWaits(next, steps[1..], c, t);
      } else {
        RunTakes(next, steps[1..]);
      }
    }
  }

  /** A connection that is closed is not used again before a minute is over, unless the program stops. */
  lemma ClosedWaits<T>(s: State<T>, steps: seq<Step<T>>, c: T)
    requires Inv(s) && Enabled(s, Close(c)) && c !in s.pool.recy && Enabling(Next(s, Close(c)), steps)
    requires Release(c, true) !in steps
    ensures c in Run(Next(s, Close(c)), steps).pool.recy || Elapsed(steps) >= 60
  {
    var t := Next(s, Close(c));
    InvStep(s, Close(c));
    RecycledWaits(t, steps, c, s.now);
    RunTakes(t, steps);
  }

  /** Only a connection in use holds a socket. */
  ghost predicate Sockets<T>(s: State<T>) {
    forall c :: c in s.pool.conns && c !in s.pool.inUse ==> s.pool.conns[c].fd == -1
  }

  /** The invariants hold at the start. */
  lemma StartsSound<T>(pool: P.Pool<T>, now: int, wait: nat, period: nat, kicking: bool)
    requires P.Partition(pool) && wait >= 5
    requires forall c :: c in pool.conns ==> pool.conns[c].fd == -1
    ensures Inv(Initial(pool, now, wait, period, kicking)) && Sockets(Initial(pool, now, wait, period, kicking))
  {
    InitialInv(pool, now, wait, period, kicking);
  }

  lemma SocketsStep<T>(s: State<T>, step: Step<T>)
    requires Inv(s) && Sockets(s) && Enabled(s, step)
    ensures Sockets(Next(s, step))
  {
    var t := Next(s, step);
    forall c | c in t.pool.conns && c !in t.pool.inUse ensures t.pool.conns[c].fd == -1 {
      if c in s.pool.conns {
        P.InOnePlace(s.pool, c);
        assert c !in s.pool.inUse ==> s.pool.conns[c].fd == -1;
      }
    }
  }

  /** So a connection that is closed a second time while it waits to be recycled closes no socket, and no free or recycled
      connection holds on to one. */
  lemma {:induction false} SocketsOnlyInUse<T>(s: State<T>, steps: seq<Step<T>>)
    requires Inv(s) && Sockets(s) && Enabling(s, steps)
    ensures Sockets(Run(s, steps))
    decreases steps
  {
    if steps != [] {
      InvStep(s, steps[0]);
      SocketsStep(s, steps[0]);
      SocketsOnlyInUse(Next(s, steps[0]), steps[1..]);
    }
  }

  /** What the machine knows beside the memory of the server. */
  datatype Clock = Clock(monitor: Monitor<P.Connection>, now: int, lastPass: int, period: nat)

  /** initconnection: nobody has a socket. */
  method InitConnection(worker_connections: nat, now: int) returns (pool: P.Connections)
    ensures fresh(pool) && fresh(pool.m_connectionList) && pool.Valid()
    ensures forall c :: c in pool.View().conns ==> pool.View().conns[c].fd == -1
  {
    pool := new P.Connections(worker_connections, now);
  }

  /** The part of CSocekt and CLogicSocket that lets clients in and out. */
  class Server {
    const pool: P.Connections
    const timers: Q.Timers<P.Connection>
    const m_ifkickTimeCount: int
    ghost var clients: set<P.Connection>

    ghost function View(k: Clock): State<P.Connection>
      reads this, pool, pool.m_connectionList, timers
    {
      State(pool.View(), clients, timers.m_timerQueuemap, k.monitor, k.now, k.lastPass, timers.m_iWaitTime, k.period,
            m_ifkickTimeCount == 1)
    }

    ghost predicate Valid()
      reads this, pool, pool.m_connectionList, timers
    {
      pool.Valid() && timers.Valid() && clients <= pool.inUse
    }

    /** `period` is how far apart the monitor's passes will be. */
    constructor (worker_connections: nat, configuredWait: int, ifkickTimeCount: int, now: int, ghost period: nat)
      ensures Valid() && m_ifkickTimeCount == ifkickTimeCount && fresh(pool) && fresh(timers) && fresh(pool.m_connectionList)
      ensures View(Clock(Sleeping, now, now, period))
              == Initial(pool.View(), now, timers.m_iWaitTime, period, ifkickTimeCount == 1)
      ensures Inv(View(Clock(Sleeping, now, now, period))) && Sockets(View(Clock(Sleeping, now, now, period)))
    {
      var connections := InitConnection(worker_connections, now);
      pool := connections;
      timers := new Q.Timers<P.Connection>(configuredWait);
      m_ifkickTimeCount := ifkickTimeCount;
      clients := {};
      new;
      StartsSound(pool.View(), now, timers.m_iWaitTime, period, ifkickTimeCount == 1);
    }

    /** flyd_event_accept, once the kernel has handed out a socket; `registered` is how epoll answers. */
    method EventAccept(s: int, registered: bool, ghost k: Clock, now: int) returns (newc: P.Connection)
      requires Valid() && k.now == now
      modifies this, pool, pool.m_connectionList, timers
      ensures Valid()
      ensures Enabled(old(View(k)), Open(newc, s)) && Enabled(old(View(k)), Accept(newc, s))
      ensures registered ==> View(k) == Next(old(View(k)), Accept(newc, s))
      ensures !registered ==>
                && Enabled(Next(old(View(k)), Open(newc, s)), GiveUp(newc))
                && View(k) == Next(Next(old(View(k)), Open(newc, s)), GiveUp(newc))
    {
      newc := TakeConnection(s, k, now);
      if registered {
        KeepWatch(newc, k, now);
      } else {
        TurnAway(newc, k);
      }
    }

    method TakeConnection(s: int, ghost k: Clock, now: int) returns (newc: P.Connection)
      requires Valid() && k.now == now
      modifies pool, pool.m_connectionList
      ensures Valid() && newc in pool.inUse && newc in pool.m_connectionList && newc !in clients
      ensures Enabled(old(View(k)), Open(newc, s)) && View(k) == Next(old(View(k)), Open(newc, s))
      ensures fresh(set c | c in pool.m_connectionList && c !in old(pool.m_connectionList))
    {
      ghost var before := pool.View();
      newc := pool.GetConnection(s, now);
      P.InOnePlace(before, newc);
    }

    method TurnAway(c: P.Connection, ghost k: Clock)
      requires Valid() && c in pool.inUse && c in pool.m_connectionList && c !in clients
      modifies pool, c
      ensures Valid()
      ensures Enabled(old(View(k)), GiveUp(c)) && View(k) == Next(old(View(k)), GiveUp(c))
    {
      pool.CloseConnection(c);
    }

    /** The end of flyd_event_accept. */
    method KeepWatch(newc: P.Connection, ghost k: Clock, now: int)
      requires Valid() && k.now == now && newc in pool.m_connectionList && newc in pool.inUse
      modifies this`clients, timers
      ensures Valid()
      ensures View(k) == Joined(old(View(k)), newc)
    {
      if m_ifkickTimeCount == 1 {
        timers.AddToTimerQueue(newc, newc.iCurrsequence, now);
      }
      clients := clients + {newc};
    }

    /** zdClosesocketProc */
    method CloseSocket(c: P.Connection, ghost k: Clock, now: int)
      requires Valid() && k.now == now && c in pool.m_connectionList
      modifies this, pool, pool.m_connectionList, timers
      ensures View(k) == Closed(old(View(k)), c)
      ensures Valid() <==> c !in old(pool.m_freeconnectionList)
      ensures c !in old(pool.m_freeconnectionList) ==>
                Enabled(old(View(k)), Close(c)) && View(k) == Next(old(View(k)), Close(c))
    {
      HangUp(c, k);
      pool.InRecyConnectQueue(c, now);
    }

    method HangUp(c: P.Connection, ghost k: Clock)
      requires Valid() && c in pool.m_connectionList
      modifies this`clients, timers, c
      ensures Valid() && pool.View() == old(pool.View()).(conns := old(pool.View().conns)[c := Hung(old(c.View()))])
      ensures clients == old(clients) - {c}
      ensures timers.m_timerQueuemap
              == if m_ifkickTimeCount == 1 then Q.Without(old(timers.m_timerQueuemap), c) else old(timers.m_timerQueuemap)
    {
      CloseFd(c);
      if m_ifkickTimeCount == 1 {
        timers.DeleteFromTimerQueue(c);
      }
      clients := clients - {c};
    }

    method CloseFd(c: P.Connection)
      requires Valid() && c in pool.m_connectionList
      modifies c
      ensures Valid() && pool.View() == old(pool.View()).(conns := old(pool.View().conns)[c := Hung(old(c.View()))])
    {
      HungPartition(pool.View(), c);
      if c.fd != -1 {
        c.fd := -1;
      }
      if c.iThrowsendCount > 0 {
        c.iThrowsendCount := c.iThrowsendCount - 1;
      }
    }

    /** threadRecvProcFunc's check of the stamp, then _HandlePing. */
    method HandlePing(c: P.Connection, iCurrsequence: nat, iBodyLength: nat, ghost k: Clock, now: int)
      requires Valid() && k.now == now && c in pool.m_connectionList
      modifies c
      ensures Valid()
      ensures View(k) == if iBodyLength == 0 then Next(old(View(k)), Ping(c, iCurrsequence)) else old(View(k))
      ensures c.lastPingTime
              == if iBodyLength == 0 && iCurrsequence == old(c.iCurrsequence) then now else old(c.lastPingTime)
    {
      if c.iCurrsequence != iCurrsequence {
        return;
      }
      if iBodyLength != 0 {
        return;
      }
      c.lastPingTime := now;
    }

    /** A pass of the monitor begins. */
    method CollectIdle(ghost k: Clock, cur_time: int) returns (idle: seq<Q.Entry<P.Connection>>)
      requires Valid() && k.monitor.Sleeping? && k.now == cur_time
      modifies timers
      ensures Valid()
      ensures View(k.(monitor := Checking(cur_time, idle))) == Next(old(View(k)), BeginPass)
    {
      idle := timers.CollectIdle(cur_time);
    }

    /** procPingTimeOutChecking */
    method CheckPingTimeOut(tmpmsg: Q.Entry<P.Connection>, ghost k: Clock, cur_time: int, now: int)
      requires Valid() && Enabled(View(k), CheckOne) && k.now == now
      requires k.monitor.cur == cur_time && k.monitor.idle[0] == tmpmsg
      modifies this, pool, pool.m_connectionList, timers
      ensures Valid()
      ensures View(k.(monitor := Checking(cur_time, k.monitor.idle[1..]))) == Next(old(View(k)), CheckOne)
    {
      if tmpmsg.sequence == tmpmsg.conn.iCurrsequence {
        if cur_time - tmpmsg.conn.lastPingTime > timers.m_iWaitTime * 3 + 10 {
          CloseSocket(tmpmsg.conn, k, now);
        }
      }
    }
  }
}
