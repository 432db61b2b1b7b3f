/** The heartbeat timers of net/flyd_socket_time.cc: a multimap from time to (connection, sequence). */
module TimerQueue {
  import opened Options

  datatype Entry<T> = Entry(time: int, conn: T, sequence: nat)

  predicate Sorted<T>(q: seq<Entry<T>>) {
    forall i, j :: 0 <= i < j < |q| ==> q[i].time <= q[j].time
  }

  /** How many entries at the front have a time of at most `limit`. */
  function Due<T>(q: seq<Entry<T>>, limit: int): (n: nat)
    ensures n <= |q|
    ensures forall i :: 0 <= i < n ==> q[i].time <= limit
    ensures n < |q| ==> q[n].time > limit
  {
    if q == [] || q[0].time > limit then 0 else 1 + Due(q[1..], limit)
  }

  /** std::multimap::insert: behind all entries with the same or an earlier time. */
  function Insert<T>(q: seq<Entry<T>>, e: Entry<T>): (r: seq<Entry<T>>)
    ensures |r| == |q| + 1
  {
    if q == [] || q[0].time > e.time then [e] + q else [q[0]] + Insert(q[1..], e)
  }

  lemma {:induction false} InsertIs<T>(q: seq<Entry<T>>, e: Entry<T>)
    ensures Insert(q, e) == q[..Due(q, e.time)] + [e] + q[Due(q, e.time)..]
  {
    if q != [] && q[0].time <= e.time {
      InsertIs(q[1..], e);
    }
  }

  /** The same connections and sequences, all due at `time`. */
  function Rearm<T>(q: seq<Entry<T>>, time: int): (r: seq<Entry<T>>)
    ensures |r| == |q|
  {
    seq(|q|, i requires 0 <= i < |q| => q[i].(time := time))
  }

  function Without<T(==)>(q: seq<Entry<T>>, c: T): seq<Entry<T>> {
    if q == [] then [] else (if q[0].conn == c then [] else [q[0]]) + Without(q[1..], c)
  }

  function Ids<T>(q: seq<Entry<T>>): seq<(T, nat)> {
    seq(|q|, i requires 0 <= i < |q| => (q[i].conn, q[i].sequence))
  }

  /** Who is waiting, whatever the times. */
  ghost function Waiting<T>(q: seq<Entry<T>>): multiset<(T, nat)> { multiset(Ids(q)) }

  lemma {:induction false} DueBoundary<T>(q: seq<Entry<T>>, limit: int, n: nat)
    requires n <= |q|
    requires forall i :: 0 <= i < n ==> q[i].time <= limit
    requires n < |q| ==> q[n].time > limit
    ensures Due(q, limit) == n
  {
    if n > 0 {
      DueBoundary(q[1..], limit, n - 1);
    }
  }

  lemma InsertSorted<T>(q: seq<Entry<T>>, e: Entry<T>)
    requires Sorted(q)
    ensures Sorted(Insert(q, e))
  {
    InsertIs(q, e);
  }

  lemma {:induction false} WithoutMembers<T>(q: seq<Entry<T>>, c: T)
    ensures forall e :: e in Without(q, c) <==> e in q && e.conn != c
  {
    if q != [] {
      WithoutMembers(q[1..], c);
      assert q == [q[0]] + q[1..];
    }
  }

  lemma TailSorted<T>(q: seq<Entry<T>>)
    requires q != [] && Sorted(q)
    ensures Sorted(q[1..])
  {
    assert forall i :: 0 <= i < |q[1..]| ==> q[1..][i] == q[i + 1];
  }

  lemma {:induction false} WithoutLower<T>(q: seq<Entry<T>>, c: T, low: int)
    requires forall i :: 0 <= i < |q| ==> low <= q[i].time
    ensures forall i :: 0 <= i < |Without(q, c)| ==> low <= Without(q, c)[i].time
  {
    if q != [] {
      WithoutLower(q[1..], c, low);
    }
  }

  lemma {:induction false} WithoutSorted<T>(q: seq<Entry<T>>, c: T)
    requires Sorted(q)
    ensures Sorted(Without(q, c))
  {
    if q != [] {
      TailSorted(q);
      WithoutSorted(q[1..], c);
      WithoutLower(q[1..], c, q[0].time);
    }
  }

  lemma {:induction false} WithoutSplit<T>(q: seq<Entry<T>>, pos: nat, c: T)
    requires pos < |q| && q[pos].conn == c
    ensures Without(q[..pos] + q[pos + 1..], c) == Without(q, c)
  {
    if pos == 0 {
      assert q[..0] + q[1..] == q[1..];
    } else {
      WithoutSplit(q[1..], pos - 1, c);
      assert (q[..pos] + q[pos + 1..])[1..] == q[1..][..pos - 1] + q[1..][pos..];
    }
  }

  lemma {:induction false} WithoutNothing<T>(q: seq<Entry<T>>, c: T)
    requires forall i :: 0 <= i < |q| ==> q[i].conn != c
    ensures Without(q, c) == q
  {
    if q != [] {
      WithoutNothing(q[1..], c);
    }
  }

  /** Nobody but `c` is taken out. */
  lemma {:induction false} WaitingWithout<T>(q: seq<Entry<T>>, c: T, who: (T, nat))
    ensures Waiting(Without(q, c))[who] == if who.0 == c then 0 else Waiting(q)[who]
  {
    if q != [] {
      WaitingWithout(q[1..], c, who);
      WaitingHead(q);
      if q[0].conn == c {
        assert Without(q, c) == Without(q[1..], c);
      } else {
        assert Without(q, c)[1..] == Without(q[1..], c);
        WaitingHead(Without(q, c));
      }
    }
  }

  lemma WaitingHead<T>(q: seq<Entry<T>>)
    requires q != []
    ensures Waiting(q) == multiset{(q[0].conn, q[0].sequence)} + Waiting(q[1..])
  {
    assert Ids(q) == [(q[0].conn, q[0].sequence)] + Ids(q[1..]);
  }

  lemma WaitingConcat<T>(a: seq<Entry<T>>, b: seq<Entry<T>>)
    ensures Waiting(a + b) == Waiting(a) + Waiting(b)
  {
    assert Ids(a + b) == Ids(a) + Ids(b);
  }

  lemma WaitingInsert<T>(q: seq<Entry<T>>, e: Entry<T>)
    ensures Waiting(Insert(q, e)) == Waiting(q) + multiset{(e.conn, e.sequence)}
  {
    InsertIs(q, e);
    var front, back := q[..Due(q, e.time)], q[Due(q, e.time)..];
    WaitingConcat(front, back);
    WaitingConcat(front, [e]);
    WaitingConcat(front + [e], back);
    assert q == front + back;
    assert Ids([e]) == [(e.conn, e.sequence)];
  }

  lemma InsertMembers<T>(q: seq<Entry<T>>, e: Entry<T>)
    ensures multiset(Insert(q, e)) == multiset(q) + multiset{e}
  {
    InsertIs(q, e);
    assert q == q[..Due(q, e.time)] + q[Due(q, e.time)..];
  }

  lemma {:induction false} DueMonotone<T>(q: seq<Entry<T>>, a: int, b: int)
    requires a <= b
    ensures Due(q, a) <= Due(q, b)
  {
    if q != [] {
      DueMonotone(q[1..], a, b);
    }
  }

  /** Inserting something later leaves the due entries at the front as they are. */
  lemma InsertKeepsDue<T>(q: seq<Entry<T>>, e: Entry<T>, now: int)
    requires e.time > now
    ensures Due(Insert(q, e), now) == Due(q, now)
    ensures Insert(q, e)[..Due(q, now)] == q[..Due(q, now)]
  {
    InsertIs(q, e);
    DueMonotone(q, now, e.time);
    DueBoundary(Insert(q, e), now, Due(q, now));
  }

  /** The due entries are the ones a reader would pick out: all whose time has come, and only those. */
  lemma DueEntries<T>(q: seq<Entry<T>>, now: int, i: nat)
    requires Sorted(q) && i < |q|
    ensures q[i].time <= now <==> q[i] in q[..Due(q, now)]
  {
    var k := Due(q, now);
    if i < k {
      assert q[i] == q[..k][i];
    } else {
      assert q[k].time <= q[i].time;
    }
  }

  /** The first `n` entries taken out one by one and put back for `time`. */
  function Recycle<T>(q: seq<Entry<T>>, n: nat, time: int): seq<Entry<T>>
    requires n <= |q|
    decreases n
  {
    if n == 0 then q else Recycle(InsertFirst(q, time), n - 1, time)
  }

  function InsertFirst<T>(q: seq<Entry<T>>, time: int): (r: seq<Entry<T>>)
    requires q != []
    ensures |r| == |q|
  {
    Insert(q[1..], q[0].(time := time))
  }

  lemma RecycleOne<T>(q: seq<Entry<T>>, now: int, wait: nat)
    requires q != [] && q[0].time <= now && wait > 0
    ensures Due(InsertFirst(q, now + wait), now) == Due(q, now) - 1
    ensures InsertFirst(q, now + wait)[..Due(q, now) - 1] == q[1..Due(q, now)]
  {
    InsertKeepsDue(q[1..], q[0].(time := now + wait), now);
    assert q[1..][..Due(q, now) - 1] == q[1..Due(q, now)];
  }

  lemma TakeOne<T>(idle: seq<T>, q: seq<T>, next: seq<T>, n: nat)
    requires 0 < n <= |q| == |next| && next[..n - 1] == q[1..n]
    ensures idle + [q[0]] + next[..n - 1] == idle + q[..n]
  {
    assert q[..n] == [q[0]] + q[1..n];
  }

  /** One turn of the collecting loop, with `left` overdue entries to go. */
  lemma RecycleTurn<T>(idle: seq<Entry<T>>, q: seq<Entry<T>>, next: seq<Entry<T>>, left: nat, now: int, wait: nat)
    requires q != [] && q[0].time <= now && wait > 0 && left == Due(q, now)
    requires next == InsertFirst(q, now + wait)
    ensures left > 0 && Due(next, now) == left - 1
    ensures Recycle(next, left - 1, now + wait) == Recycle(q, left, now + wait)
    ensures idle + [q[0]] + next[..left - 1] == idle + q[..left]
  {
    RecycleOne(q, now, wait);
    TakeOne(idle, q, next, left);
  }

  lemma RearmFirst<T>(q: seq<Entry<T>>, n: nat, time: int)
    requires 0 < n <= |q|
    ensures multiset(Rearm(q[..n], time)) == multiset(Rearm(q[1..n], time)) + multiset{q[0].(time := time)}
  {
    assert Rearm(q[..n], time) == [q[0].(time := time)] + Rearm(q[1..n], time);
  }

  /** After the overdue entries have been recycled, the entries are those that were not overdue and, due one waiting
      time from now, those that were; none is overdue any more. */
  lemma {:induction false} RecycledEntries<T>(q: seq<Entry<T>>, now: int, wait: nat)
    requires wait > 0
    ensures var n := Due(q, now);
            multiset(Recycle(q, n, now + wait)) == multiset(q[n..]) + multiset(Rearm(q[..n], now + wait))
    ensures Due(Recycle(q, Due(q, now), now + wait), now) == 0
    decreases Due(q, now)
  {
    var n, time := Due(q, now), now + wait;
    if n == 0 {
      assert q[0..] == q;
      assert Rearm(q[..0], time) == [];
    } else {
      RecycleOne(q, now, wait);
      RecycledEntries(InsertFirst(q, time), now, wait);
      RecycledSplit(q, n, time);
    }
  }

  lemma SplitMultiset<T>(q: seq<T>, n: nat)
    requires n <= |q|
    ensures multiset(q) == multiset(q[..n]) + multiset(q[n..])
  {
    assert q == q[..n] + q[n..];
  }

  lemma RecycledSplit<T>(q: seq<Entry<T>>, n: nat, time: int)
    requires 0 < n <= |q| && InsertFirst(q, time)[..n - 1] == q[1..n]
    ensures multiset(InsertFirst(q, time)[n - 1..]) + multiset(Rearm(q[1..n], time)) == multiset(q[n..]) + multiset(Rearm(q[..n], time))
  {
    var next, again := InsertFirst(q, time), q[0].(time := time);
    RearmFirst(q, n, time);
    InsertMembers(q[1..], again);
    SplitMultiset(q[1..], n - 1);
    SplitMultiset(next, n - 1);
    assert q[1..][..n - 1] == q[1..n] && q[1..][n - 1..] == q[n..];
    Cancel(multiset(q[1..n]), multiset(next[n - 1..]), multiset(q[n..]), again);
  }

  lemma Cancel<T>(a: multiset<T>, b: multiset<T>, c: multiset<T>, x: T)
    requires a + b == a + c + multiset{x}
    ensures b == c + multiset{x}
  {
    assert forall e :: b[e] == (a + b)[e] - a[e];
    assert forall e :: (c + multiset{x})[e] == (a + c + multiset{x})[e] - a[e];
  }

  lemma WaitingFirst<T>(q: seq<Entry<T>>, time: int)
    requires q != []
    ensures Waiting(InsertFirst(q, time)) == Waiting(q)
  {
    WaitingInsert(q[1..], q[0].(time := time));
    WaitingHead(q);
  }

  lemma {:induction false} RecycledSorted<T>(q: seq<Entry<T>>, n: nat, time: int)
    requires n <= |q| && Sorted(q)
    ensures Sorted(Recycle(q, n, time))
    decreases n
  {
    if n > 0 {
      InsertSorted(q[1..], q[0].(time := time));
      RecycledSorted(InsertFirst(q, time), n - 1, time);
    }
  }

  /** Recycling changes neither who is waiting nor how often. */
  lemma {:induction false} RecycledWaiting<T>(q: seq<Entry<T>>, n: nat, time: int)
    requires n <= |q|
    ensures Waiting(Recycle(q, n, time)) == Waiting(q)
    decreases n
  {
    if n > 0 {
      WaitingFirst(q, time);
      RecycledWaiting(InsertFirst(q, time), n - 1, time);
    }
  }

  /** How many entries a pass of the monitor at `now` collects: none before the earliest is a second overdue. */
  function Overdue<T>(q: seq<Entry<T>>, now: int): (n: nat)
    ensures n <= |q|
  {
    if q != [] && q[0].time < now then Due(q, now) else 0
  }

  /** A pass at `now` collects an entry if and only if its time has come, and some entry is a whole second overdue. */
  lemma CollectedIff<T>(q: seq<Entry<T>>, now: int, e: Entry<T>)
    requires Sorted(q) && e in q
    ensures e in q[..Overdue(q, now)] <==> e.time <= now && exists x :: x in q && x.time < now
  {
    var i :| 0 <= i < |q| && q[i] == e;
    DueEntries(q, now, i);
    assert q[0] in q && forall j :: 0 <= j < |q| ==> q[0].time <= q[j].time;
  }

  class Timers<T(==)> {
    /** Sock_MaxWaitTime, after the clamp in ReadConf. */
    const m_iWaitTime: nat
    var m_timerQueuemap: seq<Entry<T>>
    var m_cur_size_: nat
    var m_timer_value_: int

    ghost predicate Valid()
      reads this
    {
      && m_iWaitTime >= 5
      && Sorted(m_timerQueuemap)
      && m_cur_size_ == |m_timerQueuemap|
      && (m_cur_size_ > 0 ==> m_timer_value_ == m_timerQueuemap[0].time)
    }

    constructor (configured: int)
      ensures Valid() && m_timerQueuemap == []
      ensures m_iWaitTime == if configured > 5 then configured else 5
    {
      m_iWaitTime := if configured > 5 then configured else 5;
      m_timerQueuemap, m_cur_size_, m_timer_value_ := [], 0, 0;
    }

    method AddToTimerQueue(conn: T, sequence: nat, now: int)
      requires Valid()
      modifies this
      ensures Valid()
      ensures m_timerQueuemap == Insert(old(m_timerQueuemap), Entry(now + m_iWaitTime, conn, sequence))
    {
      InsertSorted(m_timerQueuemap, Entry(now + m_iWaitTime, conn, sequence));
      m_timerQueuemap := Insert(m_timerQueuemap, Entry(now + m_iWaitTime, conn, sequence));
      m_cur_size_ := m_cur_size_ + 1;
      m_timer_value_ := GetEarliestTime();
    }

    function GetEarliestTime(): (time: int)
      requires m_timerQueuemap != [] && Sorted(m_timerQueuemap)
      reads this
      ensures forall e :: e in m_timerQueuemap ==> time <= e.time
    {
      m_timerQueuemap[0].time
    }

    method RemoveFirstTimer() returns (first: Option<Entry<T>>)
      requires m_cur_size_ == |m_timerQueuemap|
      modifies this`m_timerQueuemap, this`m_cur_size_
      ensures m_cur_size_ == |m_timerQueuemap|
      ensures old(m_timerQueuemap) == [] ==> first.None? && m_timerQueuemap == []
      ensures old(m_timerQueuemap) != [] ==> first == Some(old(m_timerQueuemap)[0]) && m_timerQueuemap == old(m_timerQueuemap)[1..]
    {
      if m_cur_size_ <= 0 {
        return None;
      }
      first := Some(m_timerQueuemap[0]);
      m_timerQueuemap := m_timerQueuemap[1..];
      m_cur_size_ := m_cur_size_ - 1;
    }

    /** Take out one overdue entry, and put it back one waiting time from now. */
    method GetOverTimeTimer(cur_time: int) returns (result: Option<Entry<T>>)
      requires Valid()
      modifies this
      ensures Valid()
      ensures Due(old(m_timerQueuemap), cur_time) == 0 ==> result.None? && m_timerQueuemap == old(m_timerQueuemap)
      ensures Due(old(m_timerQueuemap), cur_time) > 0 ==>
                && result == Some(old(m_timerQueuemap)[0])
                && m_timerQueuemap == InsertFirst(old(m_timerQueuemap), cur_time + m_iWaitTime)
    {
      if m_cur_size_ == 0 {
        return None;
      }
      var earliesttime := GetEarliestTime();
      if earliesttime <= cur_time {
        result := RemoveFirstTimer();
        var again := Entry(cur_time + m_iWaitTime, result.value.conn, result.value.sequence);
        InsertSorted(m_timerQueuemap, again);
        m_timerQueuemap := Insert(m_timerQueuemap, again);
        m_cur_size_ := m_cur_size_ + 1;
        if m_cur_size_ > 0 {
          m_timer_value_ := GetEarliestTime();
        }
        return;
      }
      result := None;
    }

    /** The monitor's inner loop: collect everything overdue, and rearm it on the way. */
    method CollectOverdue(cur_time: int) returns (idle: seq<Entry<T>>)
      requires Valid()
      modifies this
      ensures Valid()
      ensures idle == old(m_timerQueuemap)[..Due(old(m_timerQueuemap), cur_time)]
      ensures m_timerQueuemap == Recycle(old(m_timerQueuemap), |idle|, cur_time + m_iWaitTime)
    {
      ghost var q, left := m_timerQueuemap, Due(m_timerQueuemap, cur_time);
      ghost var n := left;
      idle := [];
      var more := true;
      while more
        invariant Valid() && left == Due(m_timerQueuemap, cur_time)
        invariant idle + m_timerQueuemap[..left] == q[..n]
        invariant Recycle(m_timerQueuemap, left, cur_time + m_iWaitTime) == Recycle(q, n, cur_time + m_iWaitTime)
        invariant !more ==> left == 0
        decreases left, more
      {
        ghost var before := m_timerQueuemap;
        var result := GetOverTimeTimer(cur_time);
        if result.Some? {
          RecycleTurn(idle, before, m_timerQueuemap, left, cur_time, m_iWaitTime);
          idle, left := idle + [result.value], left - 1;
        } else {
          more := false;
        }
      }
    }

    /** The monitor thread up to where it lets go of the timers. */
    method CollectIdle(cur_time: int) returns (idle: seq<Entry<T>>)
      requires Valid()
      modifies this
      ensures Valid()
      ensures idle == old(m_timerQueuemap)[..Overdue(old(m_timerQueuemap), cur_time)]
      ensures m_timerQueuemap == Recycle(old(m_timerQueuemap), |idle|, cur_time + m_iWaitTime)
    {
      idle := [];
      if m_cur_size_ > 0 {
        var absolute_time := m_timer_value_;
        if absolute_time < cur_time {
          idle := CollectOverdue(cur_time);
        }
      }
    }

    /** Remove every entry of a connection, starting over after each removal. */
    method DeleteFromTimerQueue(conn: T)
      requires Valid()
      modifies this
      ensures Valid()
      ensures m_timerQueuemap == Without(old(m_timerQueuemap), conn)
    {
      var pos := 0;
      while pos < |m_timerQueuemap|
        invariant 0 <= pos <= |m_timerQueuemap|
        invariant Sorted(m_timerQueuemap) && m_cur_size_ == |m_timerQueuemap|
        invariant Without(m_timerQueuemap, conn) == Without(old(m_timerQueuemap), conn)
        invariant forall i :: 0 <= i < pos ==> m_timerQueuemap[i].conn != conn
        decreases |m_timerQueuemap|, |m_timerQueuemap| - pos
      {
        if m_timerQueuemap[pos].conn == conn {
          WithoutSplit(m_timerQueuemap, pos, conn);
          m_timerQueuemap := m_timerQueuemap[..pos] + m_timerQueuemap[pos + 1..];
          m_cur_size_ := m_cur_size_ - 1;
          pos := 0;
        } else {
          pos := pos + 1;
        }
      }
      WithoutNothing(m_timerQueuemap, conn);
      if m_cur_size_ > 0 {
        m_timer_value_ := GetEarliestTime();
      }
    }
  }

}
