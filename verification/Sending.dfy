/** The sending side: the queue-draining thread of net/flyd_socket.cc and the epoll write handler of
    net/flyd_socket_request.cc share psendMemPointer, psendbuf and isendlen of every connection.
    Each action below is one access to shared state, so any interleaving of the two threads is a run. */
module Sending {
  import opened Options
  import opened Words

  /** A queued message: the stamp in its message header, the packet to send, and which allocated block holds them. */
  datatype Msg = Msg(conn: nat, sequence: nat, packet: seq<byte>, block: nat)

  /** The send fields of a connection. `buf` is psendbuf[..isendlen]; `wire` is what the socket took. */
  datatype Conn = Conn(
    iCurrsequence: nat,
    iThrowsendCount: int,
    epollOut: bool,
    psendMemPointer: Option<seq<byte>>,
    buf: seq<byte>,
    wire: seq<byte>)

  /** Where the sender thread is; `pos` is its iterator. `Sent(.., 0)` stands for a full kernel buffer. */
  datatype Sender =
    | Idle
    | Scanning(pos: nat)
    | Claimed(pos: nat, conn: nat)
    | Sent(pos: nat, conn: nat, n: nat)
    | Recorded(pos: nat, conn: nat)
    | Counted(pos: nat, conn: nat)

  /** Where the write handler is. */
  datatype Handler =
    | Resting
    | Wrote(conn: nat, n: nat)
    | Cleared(conn: nat)
    | Freed(conn: nat)

  datatype State = State(
    conns: map<nat, Conn>,
    queue: seq<Msg>,
    sender: Sender,
    handler: Handler,
    enqueued: seq<Msg>,
    claimed: seq<Msg>,
    dropped: multiset<Msg>)

  datatype Step =
    | MsgSend(m: Msg)
    | BeginScan
    | EndScan
    | DropStale
    | SkipBusy
    | Claim
    | SenderSend(n: nat)
    | SenderFree
    | SenderRecord
    | SenderCount
    | SenderRegister
    | HandlerSend(conn: nat, n: nat)
    | HandlerAgain(conn: nat)
    | HandlerRecord
    | HandlerClear
    | HandlerFree
    | HandlerCount

  predicate OnConn(sender: Sender, c: nat) {
    !sender.Idle? && !sender.Scanning? && sender.conn == c
  }

  predicate HandlerOn(handler: Handler, c: nat) {
    !handler.Resting? && handler.conn == c
  }

  predicate Fresh(s: State, m: Msg) {
    m.conn in s.conns && m.sequence == s.conns[m.conn].iCurrsequence
  }

  /** The mutex of the send queue is held through a whole scan, so only msgSend waits for it; and every message is in a
      block of its own. */
  predicate Enabled(s: State, step: Step) {
    match step
    case MsgSend(m) =>
      s.sender.Idle? && m.conn in s.conns && m.packet != [] && forall e :: e in s.enqueued ==> e.block != m.block
    case BeginScan => s.sender.Idle? && s.queue != []
    case EndScan => s.sender.Scanning? && s.sender.pos == |s.queue|
    case DropStale => s.sender.Scanning? && s.sender.pos < |s.queue| && !Fresh(s, s.queue[s.sender.pos])
    case SkipBusy =>
      && s.sender.Scanning? && s.sender.pos < |s.queue| && Fresh(s, s.queue[s.sender.pos])
      && s.conns[s.queue[s.sender.pos].conn].iThrowsendCount > 0
    case Claim =>
      && s.sender.Scanning? && s.sender.pos < |s.queue| && Fresh(s, s.queue[s.sender.pos])
      && s.conns[s.queue[s.sender.pos].conn].iThrowsendCount <= 0
    case SenderSend(n) => s.sender.Claimed? && s.sender.conn in s.conns && n <= |s.conns[s.sender.conn].buf|
    case SenderFree => s.sender.Sent? && s.sender.conn in s.conns && s.sender.n == |s.conns[s.sender.conn].buf|
    case SenderRecord => s.sender.Sent? && s.sender.conn in s.conns && s.sender.n < |s.conns[s.sender.conn].buf|
    case SenderCount => s.sender.Recorded? && s.sender.conn in s.conns
    case SenderRegister => s.sender.Counted? && s.sender.conn in s.conns
    case HandlerSend(c, n) => s.handler.Resting? && c in s.conns && s.conns[c].epollOut && 0 < n <= |s.conns[c].buf|
    case HandlerAgain(c) => s.handler.Resting? && c in s.conns && s.conns[c].epollOut
    case HandlerRecord => s.handler.Wrote? && s.handler.conn in s.conns && s.handler.n < |s.conns[s.handler.conn].buf|
    case HandlerClear => s.handler.Wrote? && s.handler.conn in s.conns && s.handler.n == |s.conns[s.handler.conn].buf|
    case HandlerFree => s.handler.Cleared? && s.handler.conn in s.conns
    case HandlerCount => s.handler.Freed? && s.handler.conn in s.conns
  }

  function Erase(queue: seq<Msg>, pos: nat): seq<Msg>
    requires pos < |queue|
  {
    queue[..pos] + queue[pos + 1..]
  }

  function Next(s: State, step: Step): State
    requires Enabled(s, step)
  {
    match step
    case MsgSend(m) => s.(queue := s.queue + [m], enqueued := s.enqueued + [m])
    case BeginScan => s.(sender := Scanning(0))
    case EndScan => s.(sender := Idle)
    case DropStale =>
      s.(queue := Erase(s.queue, s.sender.pos), dropped := s.dropped + multiset{s.queue[s.sender.pos]})
    case SkipBusy => s.(sender := Scanning(s.sender.pos + 1))
    case Claim =>
      var m := s.queue[s.sender.pos];
      var c := s.conns[m.conn];
      s.(conns := s.conns[m.conn := c.(psendMemPointer := Some(m.packet), buf := m.packet)],
         queue := Erase(s.queue, s.sender.pos),
         sender := Claimed(s.sender.pos, m.conn),
         claimed := s.claimed + [m])
    case SenderSend(n) =>
      var c := s.conns[s.sender.conn];
      s.(conns := s.conns[s.sender.conn := c.(wire := c.wire + c.buf[..n])],
         sender := Sent(s.sender.pos, s.sender.conn, n))
    case SenderFree =>
      var c := s.conns[s.sender.conn];
      s.(conns := s.conns[s.sender.conn := c.(psendMemPointer := None)], sender := Scanning(s.sender.pos))
    case SenderRecord =>
      var c := s.conns[s.sender.conn];
      s.(conns := s.conns[s.sender.conn := c.(buf := c.buf[s.sender.n..])],
         sender := Recorded(s.sender.pos, s.sender.conn))
    case SenderCount =>
      var c := s.conns[s.sender.conn];
      s.(conns := s.conns[s.sender.conn := c.(iThrowsendCount := c.iThrowsendCount + 1)],
         sender := Counted(s.sender.pos, s.sender.conn))
    case SenderRegister =>
      var c := s.conns[s.sender.conn];
      s.(conns := s.conns[s.sender.conn := c.(epollOut := true)], sender := Scanning(s.sender.pos))
    case HandlerSend(k, n) =>
      var c := s.conns[k];
      s.(conns := s.conns[k := c.(wire := c.wire + c.buf[..n])], handler := Wrote(k, n))
    case HandlerAgain(k) => s
    case HandlerRecord =>
      var c := s.conns[s.handler.conn];
      s.(conns := s.conns[s.handler.conn := c.(buf := c.buf[s.handler.n..])], handler := Resting)
    case HandlerClear =>
      var c := s.conns[s.handler.conn];
      s.(conns := s.conns[s.handler.conn := c.(epollOut := false)], handler := Cleared(s.handler.conn))
    case HandlerFree =>
      var c := s.conns[s.handler.conn];
      s.(conns := s.conns[s.handler.conn := c.(psendMemPointer := None)], handler := Freed(s.handler.conn))
    case HandlerCount =>
      var c := s.conns[s.handler.conn];
      s.(conns := s.conns[s.handler.conn := c.(iThrowsendCount := c.iThrowsendCount - 1)], handler := Resting)
  }

  predicate Initial(s: State) {
    && s.queue == [] && s.sender.Idle? && s.handler.Resting?
    && s.enqueued == [] && s.claimed == [] && s.dropped == multiset{}
    && forall c :: c in s.conns ==>
         s.conns[c].iThrowsendCount == 0 && !s.conns[c].epollOut && s.conns[c].psendMemPointer.None? && s.conns[c].wire == []
  }

  // ---------- what is kept ----------

  /** All packets claimed for connection `c`, back to back. */
  function Stream(claimed: seq<Msg>, c: nat): seq<byte> {
    if claimed == [] then []
    else
      var last := claimed[|claimed| - 1];
      Stream(claimed[..|claimed| - 1], c) + (if last.conn == c then last.packet else [])
  }

  /** The packet claimed last for connection `c`. */
  function LastPacket(claimed: seq<Msg>, c: nat): seq<byte> {
    if claimed == [] then []
    else if claimed[|claimed| - 1].conn == c then claimed[|claimed| - 1].packet
    else LastPacket(claimed[..|claimed| - 1], c)
  }

  /** The sender as connection `c` sees it: Idle unless it holds `c`. */
  function SenderAt(s: State, c: nat): Sender { if OnConn(s.sender, c) then s.sender else Idle }

  /** The handler as connection `c` sees it: Resting unless it holds `c`. */
  function HandlerAt(s: State, c: nat): Handler { if HandlerOn(s.handler, c) then s.handler else Resting }

  /** A packet is in flight: claimed, and not yet released. */
  predicate Busy(k: Conn, sender: Sender) { !sender.Idle? || k.iThrowsendCount == 1 }

  /** The bytes of the in-flight packet that the socket has not taken. */
  function Unsent(k: Conn, sender: Sender, handler: Handler): seq<byte> {
    if sender.Sent? then (if sender.n <= |k.buf| then k.buf[sender.n..] else [])
    else if !sender.Idle? then k.buf
    else if handler.Wrote? then (if handler.n <= |k.buf| then k.buf[handler.n..] else [])
    else if !handler.Resting? then []
    else if k.iThrowsendCount == 1 then k.buf
    else []
  }

  /** One connection: who owns its send fields, and what its socket has taken of `stream`. */
  predicate ConnInv(k: Conn, sender: Sender, handler: Handler, stream: seq<byte>, last: seq<byte>) {
    && (sender.Idle? || handler.Resting?)
    && (k.iThrowsendCount == if k.epollOut || sender.Counted? || handler.Cleared? || handler.Freed? then 1 else 0)
    && (k.epollOut ==> sender.Idle? && !handler.Cleared? && !handler.Freed?)
    && (handler.Wrote? ==> k.epollOut && 0 < handler.n <= |k.buf|)
    && (sender.Sent? ==> sender.n <= |k.buf|)
    && !sender.Scanning?
    && k.psendMemPointer == (if Busy(k, sender) && !handler.Freed? then Some(last) else None)
    && (Busy(k, sender) ==> k.buf != [] && |k.buf| <= |last|)
    && k.wire + Unsent(k, sender, handler) == stream
  }

  predicate InvAt(s: State, c: nat)
    requires c in s.conns
  {
    ConnInv(s.conns[c], SenderAt(s, c), HandlerAt(s, c), Stream(s.claimed, c), LastPacket(s.claimed, c))
  }

  /** The iterator and the threads stay inside the queue and the pool; messages are accounted for. */
  predicate Shape(s: State) {
    && (!s.sender.Idle? && !s.sender.Scanning? ==> s.sender.conn in s.conns)
    && (!s.sender.Idle? ==> s.sender.pos <= |s.queue|)
    && (!s.handler.Resting? ==> s.handler.conn in s.conns)
    && (forall m :: m in s.queue ==> m.conn in s.conns && m.packet != [])
    && multiset(s.enqueued) == multiset(s.queue) + multiset(s.claimed) + s.dropped
  }

  predicate Inv(s: State) {
    Shape(s) && forall c :: c in s.conns ==> InvAt(s, c)
  }

  lemma StreamAppend(claimed: seq<Msg>, m: Msg, c: nat)
    ensures Stream(claimed + [m], c) == if m.conn == c then Stream(claimed, c) + m.packet else Stream(claimed, c)
    ensures LastPacket(claimed + [m], c) == if m.conn == c then m.packet else LastPacket(claimed, c)
  {
    assert (claimed + [m])[..|claimed|] == claimed;
  }

  lemma InitialInv(s: State)
    requires Initial(s)
    ensures Inv(s)
  {}

  lemma EraseOne(queue: seq<Msg>, pos: nat)
    requires pos < |queue|
    ensures multiset(queue) == multiset(Erase(queue, pos)) + multiset{queue[pos]}
    ensures forall m :: m in Erase(queue, pos) ==> m in queue
  {
    assert queue == queue[..pos] + [queue[pos]] + queue[pos + 1..];
  }

  lemma Cut(wire: seq<byte>, buf: seq<byte>, n: nat)
    requires n <= |buf|
    ensures wire + buf[..n] + buf[n..] == wire + buf
  {}

  lemma ShapeStep(s: State, step: Step)
    requires Shape(s) && Enabled(s, step)
    ensures Shape(Next(s, step))
  {
    if step.DropStale? {
      EraseOne(s.queue, s.sender.pos);
    } else if step.Claim? {
      ClaimShape(s);
    }
  }

  lemma ClaimShape(s: State)
    requires Shape(s) && Enabled(s, Claim)
    ensures Shape(Next(s, Claim))
  {
    EraseOne(s.queue, s.sender.pos);
    assert multiset(s.claimed + [s.queue[s.sender.pos]]) == multiset(s.claimed) + multiset{s.queue[s.sender.pos]};
  }

  /** The connection a step works on. */
  function Target(s: State, step: Step): (h: nat)
    requires Shape(s) && Enabled(s, step)
  {
    match step
    case Claim => s.queue[s.sender.pos].conn
    case SenderSend(_) | SenderFree | SenderRecord | SenderCount | SenderRegister => s.sender.conn
    case HandlerSend(c, _) => c
    case HandlerRecord | HandlerClear | HandlerFree | HandlerCount => s.handler.conn
    case _ => 0
  }

  predicate Works(step: Step) {
    !step.MsgSend? && !step.BeginScan? && !step.EndScan? && !step.DropStale? && !step.SkipBusy? && !step.HandlerAgain?
  }

  lemma OtherConnections(s: State, step: Step, c: nat)
    requires Shape(s) && Enabled(s, step) && c in s.conns && (Works(step) ==> c != Target(s, step))
    ensures var t := Next(s, step);
            c in t.conns && t.conns[c] == s.conns[c] && SenderAt(t, c) == SenderAt(s, c) && HandlerAt(t, c) == HandlerAt(s, c)
            && Stream(t.claimed, c) == Stream(s.claimed, c) && LastPacket(t.claimed, c) == LastPacket(s.claimed, c)
  {
    if step.Claim? {
      StreamAppend(s.claimed, s.queue[s.sender.pos], c);
    }
  }

  predicate SenderWorks(step: Step) {
    step.SenderSend? || step.SenderFree? || step.SenderRecord? || step.SenderCount? || step.SenderRegister?
  }

  lemma SenderTarget(s: State, step: Step)
    requires Shape(s) && Enabled(s, step) && SenderWorks(step) && InvAt(s, s.sender.conn)
    ensures InvAt(Next(s, step), s.sender.conn)
  {
    if step.SenderSend? { Cut(s.conns[s.sender.conn].wire, s.conns[s.sender.conn].buf, step.n); }
  }

  lemma HandlerSendTarget(s: State, step: Step)
    requires Enabled(s, step) && step.HandlerSend? && InvAt(s, step.conn)
    ensures InvAt(Next(s, step), step.conn)
  {
    Cut(s.conns[step.conn].wire, s.conns[step.conn].buf, step.n);
  }

  lemma HandlerWroteTarget(s: State, step: Step)
    requires Enabled(s, step) && (step.HandlerRecord? || step.HandlerClear?) && InvAt(s, s.handler.conn)
    ensures InvAt(Next(s, step), s.handler.conn)
  {}

  lemma HandlerReleaseTarget(s: State, step: Step)
    requires Enabled(s, step) && (step.HandlerFree? || step.HandlerCount?) && InvAt(s, s.handler.conn)
    ensures InvAt(Next(s, step), s.handler.conn)
  {}

  lemma ClaimTarget(s: State)
    requires Shape(s) && Enabled(s, Claim)
    requires InvAt(s, s.queue[s.sender.pos].conn)
    ensures InvAt(Next(s, Claim), s.queue[s.sender.pos].conn)
  {
    var m := s.queue[s.sender.pos];
    StreamAppend(s.claimed, m, m.conn);
    assert m in s.queue;
    assert s.conns[m.conn].wire + [] == s.conns[m.conn].wire;
  }

  lemma TargetInv(s: State, step: Step)
    requires Inv(s) && Enabled(s, step) && Works(step)
    ensures Target(s, step) in Next(s, step).conns && InvAt(Next(s, step), Target(s, step))
  {
    TargetKnown(s, step);
    var h := Target(s, step);
    assert InvAt(s, h);
    if step.Claim? {
      ClaimTarget(s);
    } else if SenderWorks(step) {
      SenderTarget(s, step);
    } else if step.HandlerSend? {
      HandlerSendTarget(s, step);
    } else if step.HandlerRecord? || step.HandlerClear? {
      HandlerWroteTarget(s, step);
    } else {
      HandlerReleaseTarget(s, step);
    }
  }

  lemma TargetKnown(s: State, step: Step)
    requires Shape(s) && Enabled(s, step) && Works(step)
    ensures Target(s, step) in s.conns
  {}

  lemma StepInvAt(s: State, step: Step, c: nat)
    requires Inv(s) && Enabled(s, step) && c in s.conns
    ensures c in Next(s, step).conns && InvAt(Next(s, step), c)
  {
    if Works(step) && c == Target(s, step) {
      TargetInv(s, step);
    } else {
      assert InvAt(s, c);
      OtherConnections(s, step, c);
    }
  }

  lemma NoNewConnections(s: State, step: Step, c: nat)
    requires Shape(s) && Enabled(s, step) && c in Next(s, step).conns
    ensures c in s.conns
  {
    if Works(step) {
      TargetKnown(s, step);
    }
  }

  lemma StepInv(s: State, step: Step)
    requires Inv(s) && Enabled(s, step)
    ensures Inv(Next(s, step))
  {
    ShapeStep(s, step);
    forall c | c in Next(s, step).conns ensures InvAt(Next(s, step), c) {
      NoNewConnections(s, step, c);
      StepInvAt(s, step, c);
    }
  }

  /** Every step of the run is allowed where it is taken. */
  predicate Run(s: State, steps: seq<Step>)
    decreases steps
  {
    steps == [] || (Enabled(s, steps[0]) && Run(Next(s, steps[0]), steps[1..]))
  }

  function End(s: State, steps: seq<Step>): State
    requires Run(s, steps)
    decreases steps
  {
    if steps == [] then s else End(Next(s, steps[0]), steps[1..])
  }

  lemma {:induction false} RunInv(s: State, steps: seq<Step>)
    requires Inv(s) && Run(s, steps)
    ensures Inv(End(s, steps))
    decreases steps
  {
    if steps != [] {
      StepInv(s, steps[0]);
      RunInv(Next(s, steps[0]), steps[1..]);
    }
  }

  /** All packets claimed for connection `c` but the last, back to back. */
  function Earlier(claimed: seq<Msg>, c: nat): seq<byte> {
    if claimed == [] then []
    else if claimed[|claimed| - 1].conn == c then Stream(claimed[..|claimed| - 1], c)
    else Earlier(claimed[..|claimed| - 1], c)
  }

  lemma {:induction false} StreamEndsWithLast(claimed: seq<Msg>, c: nat)
    ensures Stream(claimed, c) == Earlier(claimed, c) + LastPacket(claimed, c)
  {
    if claimed != [] && claimed[|claimed| - 1].conn != c {
      StreamEndsWithLast(claimed[..|claimed| - 1], c);
      assert Stream(claimed, c) == Stream(claimed[..|claimed| - 1], c) + [];
    }
  }

  /** What the wire has of a stream that ends with `last`, when no more than `last` is missing. */
  lemma SplitInFlight(wire: seq<byte>, unsent: seq<byte>, earlier: seq<byte>, last: seq<byte>)
    requires wire + unsent == earlier + last && |unsent| <= |last|
    ensures last == last[..|last| - |unsent|] + unsent && wire == earlier + last[..|last| - |unsent|]
  {
    var total, cut := earlier + last, |last| - |unsent|;
    assert total[|wire|..] == unsent && total[..|wire|] == wire;
    assert total[|wire|..] == last[cut..] && total[..|wire|] == earlier + last[..cut];
  }

  /** Over every interleaving, what the socket of a connection has taken and what is still to send are together all
      packets claimed for it, back to back; while one is in flight the socket has all the earlier ones and a part of it,
      and the rest of it is to send; the two threads never hold the same connection, and EPOLLOUT means that the count
      is one. */
  lemma SendIntegrity(init: State, steps: seq<Step>, c: nat)
    requires Initial(init) && Run(init, steps) && c in End(init, steps).conns
    ensures var s := End(init, steps);
            var k := s.conns[c];
            var unsent := Unsent(k, SenderAt(s, c), HandlerAt(s, c));
            var last := LastPacket(s.claimed, c);
            && 0 <= k.iThrowsendCount <= 1
            && (k.epollOut ==> k.iThrowsendCount == 1)
            && !(OnConn(s.sender, c) && HandlerOn(s.handler, c))
            && k.wire + unsent == Stream(s.claimed, c)
            && (Busy(k, SenderAt(s, c)) ==>
                  |unsent| <= |last| && last == last[..|last| - |unsent|] + unsent &&
                  k.wire == Earlier(s.claimed, c) + last[..|last| - |unsent|])
            && (!Busy(k, SenderAt(s, c)) ==> unsent == [] && k.psendMemPointer == None)
            && (k.epollOut ==> k.psendMemPointer == Some(last))
  {
    InitialInv(init);
    RunInv(init, steps);
    var s := End(init, steps);
    var k := s.conns[c];
    assert InvAt(s, c);
    if Busy(k, SenderAt(s, c)) {
      StreamEndsWithLast(s.claimed, c);
      SplitInFlight(k.wire, Unsent(k, SenderAt(s, c), HandlerAt(s, c)), Earlier(s.claimed, c), LastPacket(s.claimed, c));
    }
  }

  /** The messages given to msgSend in a run. */
  function Accepted(steps: seq<Step>): seq<Msg>
    decreases steps
  {
    if steps == [] then [] else AcceptedBy(steps[0]) + Accepted(steps[1..])
  }

  function AcceptedBy(step: Step): seq<Msg> { if step.MsgSend? then [step.m] else [] }

  lemma EnqueuedStep(s: State, step: Step)
    requires Enabled(s, step)
    ensures Next(s, step).enqueued == s.enqueued + AcceptedBy(step)
  {}

  lemma {:induction false} EnqueuedAre(s: State, steps: seq<Step>)
    requires Run(s, steps)
    ensures End(s, steps).enqueued == s.enqueued + Accepted(steps)
    decreases steps
  {
    if steps != [] {
      EnqueuedStep(s, steps[0]);
      EnqueuedAre(Next(s, steps[0]), steps[1..]);
      Behind(s.enqueued, AcceptedBy(steps[0]), Accepted(steps[1..]));
    }
  }

  lemma Behind<T>(a: seq<T>, b: seq<T>, c: seq<T>)
    ensures a + (b + c) == a + b + c && a + (b + []) == a + b + []
  {}

  /** What has been claimed was current, and what has been dropped was not. */
  ghost predicate Judged(s: State) {
    && (forall m :: m in s.claimed ==> m.conn in s.conns && m.sequence == s.conns[m.conn].iCurrsequence)
    && (forall m :: m in s.dropped ==> m.conn in s.conns && m.sequence != s.conns[m.conn].iCurrsequence)
  }

  predicate SameSequences(before: map<nat, Conn>, after: map<nat, Conn>) {
    before.Keys == after.Keys && forall c :: c in after ==> after[c].iCurrsequence == before[c].iCurrsequence
  }

  lemma SequencesStep(s: State, step: Step)
    requires Shape(s) && Enabled(s, step)
    ensures SameSequences(s.conns, Next(s, step).conns)
  {}

  lemma JudgedStep(s: State, step: Step)
    requires Shape(s) && Enabled(s, step) && Judged(s) && SameSequences(s.conns, Next(s, step).conns)
    ensures Judged(Next(s, step))
  {
    if step.DropStale? {
      assert s.queue[s.sender.pos] in s.queue;
    }
  }

  lemma {:induction false} JudgedRun(s: State, steps: seq<Step>)
    requires Inv(s) && Run(s, steps) && Judged(s)
    ensures Judged(End(s, steps))
    decreases steps
  {
    if steps != [] {
      StepInv(s, steps[0]);
      SequencesStep(s, steps[0]);
      JudgedStep(s, steps[0]);
      JudgedRun(Next(s, steps[0]), steps[1..]);
    }
  }

  /** No message is lost or sent twice: each one that msgSend was given is queued, claimed once while it was current, or
      dropped because it was stale. */
  lemma SendConservation(init: State, steps: seq<Step>)
    requires Initial(init) && Run(init, steps)
    ensures var s := End(init, steps);
            && multiset(Accepted(steps)) == multiset(s.queue) + multiset(s.claimed) + s.dropped
            && (forall m :: m in s.claimed ==> m.conn in s.conns && m.sequence == s.conns[m.conn].iCurrsequence)
            && (forall m :: m in s.dropped ==> m.conn in s.conns && m.sequence != s.conns[m.conn].iCurrsequence)
            && s.enqueued == Accepted(steps)
  {
    InitialInv(init);
    RunInv(init, steps);
    EnqueuedAre(init, steps);
    JudgedRun(init, steps);
    assert [] + Accepted(steps) == Accepted(steps);
  }

  // ---------- order ----------

  /** The messages of `ms` that connection `c` would still accept, in order. */
  function FreshFor(ms: seq<Msg>, c: nat, sequence: nat): seq<Msg> {
    if ms == [] then []
    else
      var last := ms[|ms| - 1];
      FreshFor(ms[..|ms| - 1], c, sequence) + (if last.conn == c && last.sequence == sequence then [last] else [])
  }

  lemma {:induction false} FreshForConcat(a: seq<Msg>, b: seq<Msg>, c: nat, sequence: nat)
    ensures FreshFor(a + b, c, sequence) == FreshFor(a, c, sequence) + FreshFor(b, c, sequence)
    decreases |b|
  {
    if b == [] {
      assert a + b == a;
    } else {
      FreshForConcat(a, b[..|b| - 1], c, sequence);
      assert (a + b)[..|a + b| - 1] == a + b[..|b| - 1];
    }
  }

  lemma FreshForOne(m: Msg, c: nat, sequence: nat)
    ensures FreshFor([m], c, sequence) == if m.conn == c && m.sequence == sequence then [m] else []
  {
    assert [m][..0] == [];
  }

  /** A queue, split at the iterator. */
  lemma FreshForSplit(queue: seq<Msg>, pos: nat, c: nat, sequence: nat)
    requires pos < |queue|
    ensures FreshFor(queue, c, sequence)
         == FreshFor(queue[..pos], c, sequence) + (FreshFor([queue[pos]], c, sequence) + FreshFor(queue[pos + 1..], c, sequence))
  {
    FreshForConcat(queue[..pos], [queue[pos]] + queue[pos + 1..], c, sequence);
    FreshForConcat([queue[pos]], queue[pos + 1..], c, sequence);
    assert queue == queue[..pos] + ([queue[pos]] + queue[pos + 1..]);
  }

  lemma FreshForErased(queue: seq<Msg>, pos: nat, c: nat, sequence: nat)
    requires pos < |queue|
    ensures FreshFor(Erase(queue, pos), c, sequence)
         == FreshFor(queue[..pos], c, sequence) + FreshFor(queue[pos + 1..], c, sequence)
    ensures Erase(queue, pos)[..pos] == queue[..pos]
  {
    FreshForConcat(queue[..pos], queue[pos + 1..], c, sequence);
  }

  lemma FreshForPassed(queue: seq<Msg>, pos: nat, c: nat, sequence: nat)
    requires pos < |queue|
    ensures FreshFor(queue[..pos + 1], c, sequence) == FreshFor(queue[..pos], c, sequence) + FreshFor([queue[pos]], c, sequence)
  {
    FreshForConcat(queue[..pos], [queue[pos]], c, sequence);
    assert queue[..pos + 1] == queue[..pos] + [queue[pos]];
  }

  /** What the scan under way has passed over. */
  function Passed(s: State): seq<Msg> {
    if s.sender.Idle? || s.sender.pos > |s.queue| then [] else s.queue[..s.sender.pos]
  }

  /** The claimed messages of a connection and then the queued ones are the accepted ones, in the order of msgSend. */
  predicate InOrder(claimed: seq<Msg>, queue: seq<Msg>, enqueued: seq<Msg>, c: nat, n: nat) {
    FreshFor(claimed, c, n) + FreshFor(queue, c, n) == FreshFor(enqueued, c, n)
  }

  predicate SendsInOrder(s: State, c: nat) {
    c in s.conns && InOrder(s.claimed, s.queue, s.enqueued, c, s.conns[c].iCurrsequence)
  }

  /** The scan claims a message although it has passed over another one for the same connection. */
  predicate Overtakes(s: State, step: Step, c: nat) {
    && step.Claim? && s.sender.Scanning? && s.sender.pos < |s.queue| && c in s.conns
    && s.queue[s.sender.pos].conn == c && FreshFor(Passed(s), c, s.conns[c].iCurrsequence) != []
  }

  predicate NoOvertaking(s: State, steps: seq<Step>, c: nat)
    requires Run(s, steps)
    decreases steps
  {
    steps == [] || (!Overtakes(s, steps[0], c) && NoOvertaking(Next(s, steps[0]), steps[1..], c))
  }

  /** No step gives a connection another sequence number. */
  lemma SequenceKept(s: State, step: Step, c: nat)
    requires Shape(s) && Enabled(s, step) && c in s.conns
    ensures c in Next(s, step).conns && Next(s, step).conns[c].iCurrsequence == s.conns[c].iCurrsequence
  {}

  /** A step that only moves a thread, or works on one connection. */
  predicate Quiet(step: Step) {
    !step.MsgSend? && !step.DropStale? && !step.Claim?
  }

  lemma QuietLists(s: State, step: Step)
    requires Enabled(s, step) && Quiet(step)
    ensures Next(s, step).queue == s.queue && Next(s, step).claimed == s.claimed && Next(s, step).enqueued == s.enqueued
  {}

  lemma OrderStep(s: State, step: Step, c: nat)
    requires Shape(s) && Enabled(s, step) && SendsInOrder(s, c) && !Overtakes(s, step, c)
    ensures SendsInOrder(Next(s, step), c)
  {
    SequenceKept(s, step, c);
    match step
    case MsgSend(m) => EnqueueOrder(s, m, c);
    case DropStale => DropOrder(s, c);
    case Claim => ClaimOrder(s, c);
    case _ => QuietLists(s, step);
  }

  lemma EnqueueOrder(s: State, m: Msg, c: nat)
    requires Enabled(s, MsgSend(m)) && SendsInOrder(s, c)
    ensures SendsInOrder(Next(s, MsgSend(m)), c)
  {
    FreshForConcat(s.queue, [m], c, s.conns[c].iCurrsequence);
    FreshForConcat(s.enqueued, [m], c, s.conns[c].iCurrsequence);
  }

  lemma DropOrder(s: State, c: nat)
    requires Enabled(s, DropStale) && SendsInOrder(s, c)
    ensures SendsInOrder(Next(s, DropStale), c)
  {
    var n, pos := s.conns[c].iCurrsequence, s.sender.pos;
    FreshForSplit(s.queue, pos, c, n);
    FreshForErased(s.queue, pos, c, n);
    FreshForOne(s.queue[pos], c, n);
    NothingBetween(FreshFor(s.queue[..pos], c, n), FreshFor(s.queue[pos + 1..], c, n));
  }

  lemma NothingBetween<T>(before: seq<T>, after: seq<T>)
    ensures before + ([] + after) == before + after
  {}

  /** Moving the head of one list to the end of another. */
  lemma MoveAcross<T>(a: seq<T>, before: seq<T>, moved: seq<T>, after: seq<T>)
    requires before == [] || moved == []
    ensures (a + moved) + (before + after) == a + (before + (moved + after))
  {}

  /** Claiming the message at the iterator keeps the order, if it overtakes nothing of its connection. */
  lemma ClaimOrdered(claimed: seq<Msg>, queue: seq<Msg>, enqueued: seq<Msg>, pos: nat, c: nat, n: nat)
    requires pos < |queue| && InOrder(claimed, queue, enqueued, c, n)
    requires FreshFor(queue[..pos], c, n) == [] || queue[pos].conn != c
    ensures InOrder(claimed + [queue[pos]], Erase(queue, pos), enqueued, c, n)
  {
    var m := queue[pos];
    FreshForSplit(queue, pos, c, n);
    FreshForErased(queue, pos, c, n);
    FreshForOne(m, c, n);
    FreshForConcat(claimed, [m], c, n);
    MoveAcross(FreshFor(claimed, c, n), FreshFor(queue[..pos], c, n), FreshFor([m], c, n), FreshFor(queue[pos + 1..], c, n));
  }

  lemma ClaimOrder(s: State, c: nat)
    requires Enabled(s, Claim) && SendsInOrder(s, c) && !Overtakes(s, Claim, c)
    ensures SendsInOrder(Next(s, Claim), c)
  {
    ClaimOrdered(s.claimed, s.queue, s.enqueued, s.sender.pos, c, s.conns[c].iCurrsequence);
  }

  // ---------- an overtaking claim ----------

  ghost predicate Distinct(ms: seq<Msg>) {
    forall m :: multiset(ms)[m] <= 1
  }

  lemma DistinctStep(s: State, step: Step)
    requires Enabled(s, step) && Distinct(s.enqueued)
    ensures Distinct(Next(s, step).enqueued)
  {
    if step.MsgSend? {
      assert step.m !in s.enqueued;
      assert multiset(s.enqueued + [step.m]) == multiset(s.enqueued) + multiset{step.m};
    }
  }

  lemma {:induction false} FreshForMember(ms: seq<Msg>, c: nat, n: nat, m: Msg)
    requires m in FreshFor(ms, c, n)
    ensures m in ms
  {
    if m in FreshFor(ms[..|ms| - 1], c, n) {
      FreshForMember(ms[..|ms| - 1], c, n, m);
    }
  }

  lemma OnlyOnce(queue: seq<Msg>, pos: nat)
    requires pos < |queue| && multiset(queue)[queue[pos]] <= 1
    ensures queue[pos] !in queue[..pos]
  {
    assert queue == queue[..pos] + ([queue[pos]] + queue[pos + 1..]);
  }

  /** The messages claimed and those accepted differ somewhere; from there on they always will. */
  predicate Crossed(claimed: seq<Msg>, enqueued: seq<Msg>) {
    exists i :: 0 <= i < |claimed| && i < |enqueued| && claimed[i] != enqueued[i]
  }

  lemma CrossedGrows(claimed: seq<Msg>, enqueued: seq<Msg>, a: seq<Msg>, b: seq<Msg>)
    requires Crossed(claimed, enqueued)
    ensures Crossed(claimed + a, enqueued + b)
  {
    var i :| 0 <= i < |claimed| && i < |enqueued| && claimed[i] != enqueued[i];
    assert (claimed + a)[i] != (enqueued + b)[i];
  }

  predicate CrossedFor(s: State, c: nat) {
    c in s.conns
    && Crossed(FreshFor(s.claimed, c, s.conns[c].iCurrsequence), FreshFor(s.enqueued, c, s.conns[c].iCurrsequence))
  }

  lemma CrossedIsDisorder(s: State, c: nat)
    requires CrossedFor(s, c)
    ensures !SendsInOrder(s, c)
  {
    var n := s.conns[c].iCurrsequence;
    var claimed, queued := FreshFor(s.claimed, c, n), FreshFor(s.queue, c, n);
    var i :| 0 <= i < |claimed| && i < |FreshFor(s.enqueued, c, n)| && claimed[i] != FreshFor(s.enqueued, c, n)[i];
    assert (claimed + queued)[i] == claimed[i];
  }

  lemma CrossedStep(s: State, step: Step, c: nat)
    requires Shape(s) && Enabled(s, step) && CrossedFor(s, c)
    ensures CrossedFor(Next(s, step), c)
  {
    SequenceKept(s, step, c);
    var n := s.conns[c].iCurrsequence;
    match step
    case MsgSend(m) =>
      FreshForConcat(s.enqueued, [m], c, n);
      CrossedGrows(FreshFor(s.claimed, c, n), FreshFor(s.enqueued, c, n), [], FreshFor([m], c, n));
      assert FreshFor(s.claimed, c, n) + [] == FreshFor(s.claimed, c, n);
    case Claim =>
      var m := s.queue[s.sender.pos];
      FreshForConcat(s.claimed, [m], c, n);
      CrossedGrows(FreshFor(s.claimed, c, n), FreshFor(s.enqueued, c, n), FreshFor([m], c, n), []);
      assert FreshFor(s.enqueued, c, n) + [] == FreshFor(s.enqueued, c, n);
    case DropStale =>
    case _ => QuietLists(s, step);
  }

  lemma {:induction false} CrossedRun(s: State, steps: seq<Step>, c: nat)
    requires Shape(s) && Run(s, steps) && CrossedFor(s, c)
    ensures CrossedFor(End(s, steps), c)
    decreases steps
  {
    if steps != [] {
      CrossedStep(s, steps[0], c);
      ShapeStep(s, steps[0]);
      CrossedRun(Next(s, steps[0]), steps[1..], c);
    }
  }

  /** `before` waits in front of `m`, and `m` is claimed first. */
  lemma OvertakingCrosses(claimed: seq<Msg>, before: seq<Msg>, m: Msg, after: seq<Msg>)
    requires before != [] && m !in before
    ensures Crossed(claimed + [m], claimed + (before + ([m] + after)))
  {
    var accepted := claimed + (before + ([m] + after));
    assert accepted[|claimed|] == before[0] && (claimed + [m])[|claimed|] == m;
  }

  lemma OvertakeStep(s: State, c: nat)
    requires Shape(s) && Distinct(s.enqueued) && Enabled(s, Claim) && SendsInOrder(s, c) && Overtakes(s, Claim, c)
    ensures CrossedFor(Next(s, Claim), c)
  {
    var n, pos := s.conns[c].iCurrsequence, s.sender.pos;
    var m, before := s.queue[pos], FreshFor(s.queue[..pos], c, n);
    FreshForSplit(s.queue, pos, c, n);
    FreshForOne(m, c, n);
    FreshForConcat(s.claimed, [m], c, n);
    assert multiset(s.queue)[m] <= multiset(s.enqueued)[m];
    OnlyOnce(s.queue, pos);
    if m in before {
      FreshForMember(s.queue[..pos], c, n, m);
    }
    OvertakingCrosses(FreshFor(s.claimed, c, n), before, m, FreshFor(s.queue[pos + 1..], c, n));
  }

  lemma {:induction false} RunOrder(s: State, steps: seq<Step>, c: nat)
    requires Shape(s) && Distinct(s.enqueued) && Run(s, steps) && SendsInOrder(s, c)
    ensures SendsInOrder(End(s, steps), c) <==> NoOvertaking(s, steps, c)
    decreases steps
  {
    if steps != [] {
      ShapeStep(s, steps[0]);
      if Overtakes(s, steps[0], c) {
        OvertakeStep(s, c);
        CrossedRun(Next(s, steps[0]), steps[1..], c);
        CrossedIsDisorder(End(s, steps), c);
      } else {
        OrderStep(s, steps[0], c);
        DistinctStep(s, steps[0]);
        RunOrder(Next(s, steps[0]), steps[1..], c);
      }
    }
  }

  /** Per connection, messages go out in the order of msgSend if and only if no scan claims one after it has passed over
      another for the same connection. */
  lemma OrderIffNoOvertaking(init: State, steps: seq<Step>, c: nat)
    requires Initial(init) && Run(init, steps) && c in init.conns
    ensures SendsInOrder(End(init, steps), c) <==> NoOvertaking(init, steps, c)
  {
    InitialInv(init);
    RunOrder(init, steps, c);
  }

  // ---------- when no scan overtakes ----------

  /** The handler does not release a connection that the scan under way has already passed over. */
  predicate Calm(s: State, step: Step) {
    step.HandlerCount? && s.handler.Freed? && s.handler.conn in s.conns ==>
      FreshFor(Passed(s), s.handler.conn, s.conns[s.handler.conn].iCurrsequence) == []
  }

  predicate CalmRun(s: State, steps: seq<Step>)
    requires Run(s, steps)
    decreases steps
  {
    steps == [] || (Calm(s, steps[0]) && CalmRun(Next(s, steps[0]), steps[1..]))
  }

  /** A connection passed over by the scan under way is still in flight. */
  predicate PassedBusy(passed: seq<Msg>, count: int, c: nat, n: nat) {
    FreshFor(passed, c, n) != [] ==> count > 0
  }

  predicate PassedBusyAt(s: State, c: nat) {
    c in s.conns && PassedBusy(Passed(s), s.conns[c].iThrowsendCount, c, s.conns[c].iCurrsequence)
  }

  lemma ErasedPassed(s: State, step: Step)
    requires Enabled(s, step) && (step.DropStale? || step.Claim?)
    ensures Passed(Next(s, step)) == Passed(s)
  {}

  lemma SkipBusyPassed(s: State, c: nat)
    requires Enabled(s, SkipBusy) && PassedBusyAt(s, c)
    ensures PassedBusyAt(Next(s, SkipBusy), c)
  {
    FreshForPassed(s.queue, s.sender.pos, c, s.conns[c].iCurrsequence);
    FreshForOne(s.queue[s.sender.pos], c, s.conns[c].iCurrsequence);
  }

  /** Any other step passes over nothing more, and only the handler's last one lowers a count. */
  lemma OtherPassed(s: State, step: Step, c: nat)
    requires Shape(s) && Enabled(s, step) && Quiet(step) && !step.SkipBusy? && c in s.conns
    ensures c in Next(s, step).conns && (Passed(Next(s, step)) == Passed(s) || Passed(Next(s, step)) == [])
    ensures Next(s, step).conns[c].iThrowsendCount >= s.conns[c].iThrowsendCount
         || (step.HandlerCount? && s.handler.conn == c)
  {}

  lemma PassedBusyStep(s: State, step: Step, c: nat)
    requires Shape(s) && Enabled(s, step) && Calm(s, step) && PassedBusyAt(s, c)
    ensures PassedBusyAt(Next(s, step), c)
  {
    SequenceKept(s, step, c);
    if step.SkipBusy? {
      SkipBusyPassed(s, c);
    } else if step.DropStale? || step.Claim? {
      ErasedPassed(s, step);
    } else if Quiet(step) {
      OtherPassed(s, step, c);
    }
  }

  lemma {:induction false} CalmOvertakesNothing(s: State, steps: seq<Step>, c: nat)
    requires Shape(s) && Run(s, steps) && CalmRun(s, steps) && PassedBusyAt(s, c)
    ensures NoOvertaking(s, steps, c)
    decreases steps
  {
    if steps != [] {
      PassedBusyStep(s, steps[0], c);
      ShapeStep(s, steps[0]);
      CalmOvertakesNothing(Next(s, steps[0]), steps[1..], c);
    }
  }

  /** So they do as long as no release lands in a scan that has already passed over that connection; in particular when
      every scan is one step. */
  lemma SendFifo(init: State, steps: seq<Step>, c: nat)
    requires Initial(init) && Run(init, steps) && CalmRun(init, steps) && c in init.conns
    ensures SendsInOrder(End(init, steps), c)
  {
    InitialInv(init);
    CalmOvertakesNothing(init, steps, c);
    OrderIffNoOvertaking(init, steps, c);
  }

  // ---------- a scan that does ----------

  lemma {:induction false} ExtendRun(init: State, steps: seq<Step>, step: Step)
    requires Run(init, steps) && Enabled(End(init, steps), step)
    ensures Run(init, steps + [step]) && End(init, steps + [step]) == Next(End(init, steps), step)
    decreases steps
  {
    if steps == [] {
      assert [step][1..] == [];
      assert steps + [step] == [step];
    } else {
      ExtendRun(Next(init, steps[0]), steps[1..], step);
      assert (steps + [step])[1..] == steps[1..] + [step];
    }
  }

  const QUIET := Conn(0, 0, false, None, [], [])
  const FIRST := Msg(0, 0, [1], 1)
  const SECOND := Msg(0, 0, [2], 2)
  const THIRD := Msg(0, 0, [3], 3)

  predicate Reaches(init: State, steps: seq<Step>, s: State) {
    Run(init, steps) && End(init, steps) == s
  }

  lemma ReachesNext(init: State, steps: seq<Step>, s: State, step: Step) returns (more: seq<Step>, t: State)
    requires Reaches(init, steps, s) && Enabled(s, step)
    ensures more == steps + [step] && t == Next(s, step) && Reaches(init, more, t)
  {
    ExtendRun(init, steps, step);
    more, t := steps + [step], Next(s, step);
  }

  /** FIRST is claimed, and */
  lemma FirstClaimed(init: State) returns (steps: seq<Step>, s: State)
    requires Initial(init) && init.conns == map[0 := QUIET]
    ensures Reaches(init, steps, s)
    ensures s == State(map[0 := QUIET.(psendMemPointer := Some([1]), buf := [1])], [],
                       Claimed(0, 0), Resting, [FIRST], [FIRST], multiset{})
  {
    steps, s := ReachesNext(init, [], init, MsgSend(FIRST));
    steps, s := ReachesNext(init, steps, s, BeginScan);
    steps, s := ReachesNext(init, steps, s, Claim);
  }

  /** meets a full kernel buffer, and waits for EPOLLOUT. */
  lemma FirstWaits(init: State) returns (steps: seq<Step>, s: State)
    requires Initial(init) && init.conns == map[0 := QUIET]
    ensures Reaches(init, steps, s)
    ensures s == State(map[0 := Conn(0, 1, true, Some([1]), [1], [])], [],
                       Scanning(0), Resting, [FIRST], [FIRST], multiset{})
  {
    steps, s := FirstClaimed(init);
    steps, s := ReachesNext(init, steps, s, SenderSend(0));
    assert s.conns[0].wire == [];
    steps, s := ReachesNext(init, steps, s, SenderRecord);
    assert s.conns[0].buf == [1];
    steps, s := ReachesNext(init, steps, s, SenderCount);
    steps, s := ReachesNext(init, steps, s, SenderRegister);
  }

  /** Two more messages are queued behind it, and a new scan has passed over SECOND. */
  lemma PassedOver(init: State) returns (steps: seq<Step>, s: State)
    requires Initial(init) && init.conns == map[0 := QUIET]
    ensures Reaches(init, steps, s)
    ensures s == State(map[0 := Conn(0, 1, true, Some([1]), [1], [])], [SECOND, THIRD],
                       Scanning(1), Resting, [FIRST, SECOND, THIRD], [FIRST], multiset{})
  {
    steps, s := FirstWaits(init);
    steps, s := ReachesNext(init, steps, s, EndScan);
    steps, s := ReachesNext(init, steps, s, MsgSend(SECOND));
    steps, s := ReachesNext(init, steps, s, MsgSend(THIRD));
    steps, s := ReachesNext(init, steps, s, BeginScan);
    steps, s := ReachesNext(init, steps, s, SkipBusy);
  }

  /** Then the handler finishes FIRST. */
  lemma FirstReleased(init: State) returns (steps: seq<Step>, s: State)
    requires Initial(init) && init.conns == map[0 := QUIET]
    ensures Reaches(init, steps, s)
    ensures s == State(map[0 := Conn(0, 0, false, None, [1], [1])], [SECOND, THIRD],
                       Scanning(1), Resting, [FIRST, SECOND, THIRD], [FIRST], multiset{})
  {
    steps, s := PassedOver(init);
    steps, s := ReachesNext(init, steps, s, HandlerSend(0, 1));
    assert s.conns[0].wire == [1];
    steps, s := ReachesNext(init, steps, s, HandlerClear);
    steps, s := ReachesNext(init, steps, s, HandlerFree);
    steps, s := ReachesNext(init, steps, s, HandlerCount);
  }

  /** And the same scan sends THIRD before SECOND. */
  lemma SendReordered() returns (init: State, steps: seq<Step>)
    ensures Initial(init) && Run(init, steps)
    ensures End(init, steps).enqueued == [Msg(0, 0, [1], 1), Msg(0, 0, [2], 2), Msg(0, 0, [3], 3)]
    ensures End(init, steps).claimed == [Msg(0, 0, [1], 1), Msg(0, 0, [3], 3)]
    ensures End(init, steps).queue == [Msg(0, 0, [2], 2)]
  {
    init := State(map[0 := QUIET], [], Idle, Resting, [], [], multiset{});
    var s: State;
    steps, s := FirstReleased(init);
    steps, s := ReachesNext(init, steps, s, Claim);
  }

  // ---------- the code ----------

  /** The run `steps` is calm and leads from `start` to `t`. */
  predicate Follows(start: State, steps: seq<Step>, t: State) {
    Run(start, steps) && CalmRun(start, steps) && End(start, steps) == t
  }

  lemma NoSteps(start: State)
    ensures Follows(start, [], start)
  {}

  /** One more step at the end of a calm run. */
  lemma OneMore(start: State, steps: seq<Step>, s: State, step: Step)
    requires Follows(start, steps, s) && Enabled(s, step) && Calm(s, step)
    ensures Follows(start, steps + [step], Next(s, step))
  {
    ExtendRun(start, steps, step);
    ExtendCalm(start, steps, step);
  }

  lemma {:induction false} ExtendCalm(start: State, steps: seq<Step>, step: Step)
    requires Run(start, steps) && CalmRun(start, steps)
    requires Enabled(End(start, steps), step) && Calm(End(start, steps), step)
    requires Run(start, steps + [step])
    ensures CalmRun(start, steps + [step])
    decreases steps
  {
    if steps == [] {
      assert steps + [step] == [step] && [step][1..] == [];
    } else {
      assert (steps + [step])[1..] == steps[1..] + [step];
      ExtendCalm(Next(start, steps[0]), steps[1..], step);
    }
  }

  // ---------- what a scan does ----------

  /** How much of a message the kernel takes when it answers `choice`: anything from nothing to all of it. */
  function Portion(m: Msg, choice: nat): (n: nat)
    ensures n <= |m.packet|
  {
    choice % (|m.packet| + 1)
  }

  /** What the calls of send for `sent` have put on the socket of `c`, the i-th with the kernel's i-th answer. */
  function OnWire(sent: seq<Msg>, kernel: nat -> nat, c: nat): seq<byte> {
    if sent == [] then []
    else
      var i := |sent| - 1;
      OnWire(sent[..i], kernel, c) + if sent[i].conn == c then sent[i].packet[..Portion(sent[i], kernel(i))] else []
  }

  /** The write handler is left with what the kernel did not take of `m`. */
  predicate LeftToHandler(k: Conn, m: Msg, n: nat)
    requires n <= |m.packet|
  {
    k.iThrowsendCount == 1 && k.epollOut && k.buf == m.packet[n..] && k.psendMemPointer == Some(m.packet)
  }

  /** A message that cannot be sent yet: current, and another one of its connection is in flight. */
  predicate Blocked(conns: map<nat, Conn>, m: Msg) {
    m.conn in conns && m.sequence == conns[m.conn].iCurrsequence && conns[m.conn].iThrowsendCount > 0
  }

  /** The sockets have taken what the kernel took of the messages sent, and nothing else. */
  predicate Wires(before: map<nat, Conn>, after: map<nat, Conn>, sent: seq<Msg>, kernel: nat -> nat) {
    forall c :: c in after ==> c in before && after[c].wire == before[c].wire + OnWire(sent, kernel, c)
  }

  /** Whatever was taken only in part is left to the write handler. */
  predicate Remainders(conns: map<nat, Conn>, sent: seq<Msg>, kernel: nat -> nat) {
    forall i :: 0 <= i < |sent| && Portion(sent[i], kernel(i)) < |sent[i].packet| ==>
                  sent[i].conn in conns && LeftToHandler(conns[sent[i].conn], sent[i], Portion(sent[i], kernel(i)))
  }

  /** The messages of the queue are still there, sent, or dropped because they were stale. */
  ghost predicate Sorted(conns: map<nat, Conn>, queue: seq<Msg>, left: seq<Msg>, sent: seq<Msg>, gone: multiset<Msg>) {
    && multiset(queue) == multiset(left) + multiset(sent) + gone
    && (forall m :: m in sent ==> m.conn in conns && m.sequence == conns[m.conn].iCurrsequence)
    && (forall m :: m in gone ==> m.conn in conns && m.sequence != conns[m.conn].iCurrsequence)
  }

  /** How far a scan from `start` has come in `s`. */
  ghost predicate Scanned(start: State, s: State, kernel: nat -> nat, sent: seq<Msg>, gone: multiset<Msg>) {
    && s.sender.Scanning? && s.sender.pos <= |s.queue|
    && (forall i :: 0 <= i < s.sender.pos ==> Blocked(s.conns, s.queue[i]))
    && SameSequences(start.conns, s.conns)
    && Wires(start.conns, s.conns, sent, kernel)
    && Remainders(s.conns, sent, kernel)
    && Sorted(s.conns, start.queue, s.queue, sent, gone)
    && s.claimed == start.claimed + sent && s.dropped == start.dropped + gone
  }

  /** One message claimed and given to the kernel, which took `n` bytes of it. */
  predicate SentOne(s: State, t: State, n: nat) {
    && s.sender.Scanning? && s.sender.pos < |s.queue| && t.sender == s.sender
    && t.queue == Erase(s.queue, s.sender.pos) && t.dropped == s.dropped
    && var m := s.queue[s.sender.pos];
       && t.claimed == s.claimed + [m] && n <= |m.packet|
       && m.conn in s.conns && m.sequence == s.conns[m.conn].iCurrsequence && s.conns[m.conn].iThrowsendCount == 0
       && m.conn in t.conns && t.conns == s.conns[m.conn := t.conns[m.conn]]
       && var k := t.conns[m.conn];
          && k.iCurrsequence == s.conns[m.conn].iCurrsequence && k.wire == s.conns[m.conn].wire + m.packet[..n]
          && if n < |m.packet| then LeftToHandler(k, m, n)
             else k.iThrowsendCount == 0 && k.epollOut == s.conns[m.conn].epollOut && k.psendMemPointer == None
  }

  /** What one call of send, which took `n` bytes, and its bookkeeping do to a connection. */
  function AfterSend(k: Conn, n: nat): Conn
    requires n <= |k.buf|
  {
    var wire := k.wire + k.buf[..n];
    if n == |k.buf| then k.(wire := wire, psendMemPointer := None)
    else k.(wire := wire, buf := k.buf[n..], iThrowsendCount := k.iThrowsendCount + 1, epollOut := true)
  }

  lemma ClaimedAndSent(s: State, t: State, m: Msg, n: nat)
    requires s.sender.Scanning? && s.sender.pos < |s.queue| && t.sender == s.sender && m == s.queue[s.sender.pos]
    requires t.queue == Erase(s.queue, s.sender.pos) && t.dropped == s.dropped && t.claimed == s.claimed + [m]
    requires n <= |m.packet| && Fresh(s, m) && s.conns[m.conn].iThrowsendCount == 0
    requires t.conns == s.conns[m.conn := AfterSend(s.conns[m.conn].(psendMemPointer := Some(m.packet), buf := m.packet), n)]
    ensures SentOne(s, t, n)
  {}

  lemma ScanStarts(start: State, s: State, kernel: nat -> nat)
    requires s == start.(sender := Scanning(0))
    ensures Scanned(start, s, kernel, [], multiset{})
  {}

  lemma ScanDrops(start: State, s: State, kernel: nat -> nat, sent: seq<Msg>, gone: multiset<Msg>)
    requires Scanned(start, s, kernel, sent, gone) && Enabled(s, DropStale) && s.queue[s.sender.pos].conn in s.conns
    ensures Scanned(start, Next(s, DropStale), kernel, sent, gone + multiset{s.queue[s.sender.pos]})
  {
    EraseOne(s.queue, s.sender.pos);
  }

  lemma ScanSkips(start: State, s: State, kernel: nat -> nat, sent: seq<Msg>, gone: multiset<Msg>)
    requires Scanned(start, s, kernel, sent, gone) && Enabled(s, SkipBusy)
    ensures Scanned(start, Next(s, SkipBusy), kernel, sent, gone)
  {}

  lemma OnWireOneMore(sent: seq<Msg>, kernel: nat -> nat, m: Msg, c: nat)
    ensures OnWire(sent + [m], kernel, c)
            == OnWire(sent, kernel, c) + if m.conn == c then m.packet[..Portion(m, kernel(|sent|))] else []
  {
    assert (sent + [m])[..|sent|] == sent;
  }

  lemma WiresOneMore(start: State, s: State, t: State, kernel: nat -> nat, sent: seq<Msg>)
    requires s.sender.Scanning? && s.sender.pos < |s.queue| && Wires(start.conns, s.conns, sent, kernel)
    requires SentOne(s, t, Portion(s.queue[s.sender.pos], kernel(|sent|)))
    ensures Wires(start.conns, t.conns, sent + [s.queue[s.sender.pos]], kernel)
  {
    var m := s.queue[s.sender.pos];
    forall c | c in t.conns
      ensures c in start.conns && t.conns[c].wire == start.conns[c].wire + OnWire(sent + [m], kernel, c)
    {
      OnWireOneMore(sent, kernel, m, c);
      Behind(start.conns[c].wire, OnWire(sent, kernel, c), m.packet[..Portion(m, kernel(|sent|))]);
      assert t.conns[c].wire == s.conns[c].wire + if m.conn == c then m.packet[..Portion(m, kernel(|sent|))] else [];
    }
  }

  lemma RemaindersOneMore(s: State, t: State, kernel: nat -> nat, sent: seq<Msg>)
    requires s.sender.Scanning? && s.sender.pos < |s.queue| && Remainders(s.conns, sent, kernel)
    requires SentOne(s, t, Portion(s.queue[s.sender.pos], kernel(|sent|)))
    ensures Remainders(t.conns, sent + [s.queue[s.sender.pos]], kernel)
  {
    var m := s.queue[s.sender.pos];
    var all := sent + [m];
    forall i | 0 <= i < |all| && Portion(all[i], kernel(i)) < |all[i].packet|
      ensures all[i].conn in t.conns && LeftToHandler(t.conns[all[i].conn], all[i], Portion(all[i], kernel(i)))
    {
      if i < |sent| {
        assert all[i] == sent[i] && sent[i].conn != m.conn;
      }
    }
  }

  lemma SortedOneMore(conns: map<nat, Conn>, queue: seq<Msg>, left: seq<Msg>, pos: nat, sent: seq<Msg>, gone: multiset<Msg>)
    requires Sorted(conns, queue, left, sent, gone) && pos < |left|
    requires left[pos].conn in conns && left[pos].sequence == conns[left[pos].conn].iCurrsequence
    ensures Sorted(conns, queue, Erase(left, pos), sent + [left[pos]], gone)
  {
    EraseOne(left, pos);
    assert multiset(sent + [left[pos]]) == multiset(sent) + multiset{left[pos]};
  }

  lemma SortedSame(before: map<nat, Conn>, after: map<nat, Conn>, queue: seq<Msg>, left: seq<Msg>, sent: seq<Msg>,
                   gone: multiset<Msg>)
    requires Sorted(before, queue, left, sent, gone) && SameSequences(before, after)
    ensures Sorted(after, queue, left, sent, gone)
  {}

  lemma SameSequencesSent(s: State, t: State, n: nat)
    requires SentOne(s, t, n)
    ensures SameSequences(s.conns, t.conns)
  {}

  lemma SameSequencesAlong(a: map<nat, Conn>, b: map<nat, Conn>, c: map<nat, Conn>)
    requires SameSequences(a, b) && SameSequences(b, c)
    ensures SameSequences(a, c)
  {}

  lemma BlockedStill(s: State, t: State, n: nat)
    requires SentOne(s, t, n) && forall i :: 0 <= i < s.sender.pos ==> Blocked(s.conns, s.queue[i])
    ensures forall i :: 0 <= i < t.sender.pos ==> i < |t.queue| && Blocked(t.conns, t.queue[i])
  {
    forall i | 0 <= i < t.sender.pos ensures i < |t.queue| && Blocked(t.conns, t.queue[i]) {
      assert t.queue[i] == s.queue[i] && Blocked(s.conns, s.queue[i]);
    }
  }

  lemma ScanEnds(start: State, s: State, kernel: nat -> nat, sent: seq<Msg>, gone: multiset<Msg>)
    requires Scanned(start, s, kernel, sent, gone) && s.sender.pos == |s.queue|
    ensures forall m :: m in s.queue ==>
              m.conn in s.conns && m.sequence == s.conns[m.conn].iCurrsequence && s.conns[m.conn].iThrowsendCount > 0
  {
    forall m | m in s.queue ensures Blocked(s.conns, m) {
      var i :| 0 <= i < |s.queue| && s.queue[i] == m;
    }
  }

  lemma ScanSends(start: State, s: State, t: State, kernel: nat -> nat, sent: seq<Msg>, gone: multiset<Msg>)
    requires Scanned(start, s, kernel, sent, gone) && s.sender.pos < |s.queue|
    requires SentOne(s, t, Portion(s.queue[s.sender.pos], kernel(|sent|)))
    ensures Scanned(start, t, kernel, sent + [s.queue[s.sender.pos]], gone)
  {
    var n := Portion(s.queue[s.sender.pos], kernel(|sent|));
    SameSequencesSent(s, t, n);
    SameSequencesAlong(start.conns, s.conns, t.conns);
    BlockedStill(s, t, n);
    WiresOneMore(start, s, t, kernel, sent);
    RemaindersOneMore(s, t, kernel, sent);
    SortedOneMore(s.conns, start.queue, s.queue, s.sender.pos, sent, gone);
    SortedSame(s.conns, t.conns, start.queue, t.queue, sent + [s.queue[s.sender.pos]], gone);
    assert start.claimed + sent + [s.queue[s.sender.pos]] == start.claimed + (sent + [s.queue[s.sender.pos]]);
  }

  /** The send queue and the connections, updated in place as the source does. Every small method below
      is one access to the shared state; the two ghost fields say where the threads are. */
  class SendSide {
    var m_MsgSendQueue: seq<Msg>
    var m_iSendMsgQueueCount: int
    var conns: map<nat, Conn>
    ghost var sender: Sender
    ghost var handler: Handler
    ghost var enqueued: seq<Msg>
    ghost var claimed: seq<Msg>
    ghost var dropped: multiset<Msg>

    ghost function View(): State
      reads this
    {
      State(conns, m_MsgSendQueue, sender, handler, enqueued, claimed, dropped)
    }

    ghost predicate CountMatches()
      reads this
    {
      m_iSendMsgQueueCount == |m_MsgSendQueue|
    }

    ghost predicate Valid()
      reads this
    {
      Inv(View()) && CountMatches()
    }

    constructor (conns: map<nat, Conn>)
      requires Initial(State(conns, [], Idle, Resting, [], [], multiset{}))
      ensures Valid() && Initial(View()) && this.conns == conns
    {
      this.conns := conns;
      m_MsgSendQueue, m_iSendMsgQueueCount := [], 0;
      sender, handler := Idle, Resting;
      enqueued, claimed, dropped := [], [], multiset{};
      new;
      InitialInv(View());
    }

    /** msgSend */
    method MsgSend(m: Msg)
      requires Valid() && Enabled(View(), Step.MsgSend(m))
      modifies this
      ensures Valid() && View() == Next(old(View()), Step.MsgSend(m))
      ensures m_MsgSendQueue == old(m_MsgSendQueue) + [m] && conns == old(conns)
      ensures m_iSendMsgQueueCount == |m_MsgSendQueue|
    {
      StepInv(View(), Step.MsgSend(m));
      m_MsgSendQueue := m_MsgSendQueue + [m];
      m_iSendMsgQueueCount := m_iSendMsgQueueCount + 1;
      enqueued := enqueued + [m];
    }

    method DropMessage(pos: nat)
      requires CountMatches() && sender == Scanning(pos) && Enabled(View(), DropStale)
      modifies this
      ensures CountMatches() && View() == Next(old(View()), DropStale)
    {
      dropped := dropped + multiset{m_MsgSendQueue[pos]};
      m_MsgSendQueue := Erase(m_MsgSendQueue, pos);
      m_iSendMsgQueueCount := m_iSendMsgQueueCount - 1;
    }

    method ClaimMessage(pos: nat)
      requires CountMatches() && sender == Scanning(pos) && Enabled(View(), Claim)
      modifies this
      ensures CountMatches() && View() == Next(old(View()), Claim)
    {
      var m := m_MsgSendQueue[pos];
      m_MsgSendQueue := Erase(m_MsgSendQueue, pos);
      m_iSendMsgQueueCount := m_iSendMsgQueueCount - 1;
      conns := conns[m.conn := conns[m.conn].(psendMemPointer := Some(m.packet), buf := m.packet)];
      sender, claimed := Claimed(pos, m.conn), claimed + [m];
    }

    /** sendproc: the kernel takes the first `n` bytes of psendbuf; none of them is EAGAIN. */
    method CallSend(c: nat, n: nat)
      requires CountMatches() && sender.Claimed? && sender.conn == c && Enabled(View(), SenderSend(n))
      modifies this
      ensures CountMatches() && View() == Next(old(View()), SenderSend(n))
    {
      conns := conns[c := conns[c].(wire := conns[c].wire + conns[c].buf[..n])];
      sender := Sent(sender.pos, c, n);
    }

    method ReleaseMemory(c: nat)
      requires CountMatches() && sender.Sent? && sender.conn == c && Enabled(View(), SenderFree)
      modifies this
      ensures CountMatches() && View() == Next(old(View()), SenderFree)
    {
      conns := conns[c := conns[c].(psendMemPointer := None)];
      sender := Scanning(sender.pos);
    }

    method RecordProgress(c: nat, n: nat)
      requires CountMatches() && sender.Sent? && sender.conn == c && sender.n == n && Enabled(View(), SenderRecord)
      modifies this
      ensures CountMatches() && View() == Next(old(View()), SenderRecord)
    {
      conns := conns[c := conns[c].(buf := conns[c].buf[n..])];
      sender := Recorded(sender.pos, c);
    }

    method IncrementCount(c: nat)
      requires CountMatches() && sender.Recorded? && sender.conn == c && Enabled(View(), SenderCount)
      modifies this
      ensures CountMatches() && View() == Next(old(View()), SenderCount)
    {
      conns := conns[c := conns[c].(iThrowsendCount := conns[c].iThrowsendCount + 1)];
      sender := Counted(sender.pos, c);
    }

    method RegisterWriteEvent(c: nat)
      requires CountMatches() && sender.Counted? && sender.conn == c && Enabled(View(), SenderRegister)
      modifies this
      ensures CountMatches() && View() == Next(old(View()), SenderRegister)
    {
      conns := conns[c := conns[c].(epollOut := true)];
      sender := Scanning(sender.pos);
    }

    /** One pass of ServerSendQueueThread over the queue: a run of the step system without handler steps. `sent` are the
        messages given to the kernel, whose i-th answer is `kernel(i)`, and `gone` those thrown away. */
    method DrainQueue(kernel: nat -> nat) returns (ghost steps: seq<Step>, ghost sent: seq<Msg>, ghost gone: multiset<Msg>)
      requires Valid() && sender.Idle? && handler.Resting?
      modifies this
      ensures Valid() && sender.Idle? && handler.Resting?
      ensures Follows(old(View()), steps, View())
      ensures enqueued == old(enqueued) && claimed == old(claimed) + sent && dropped == old(dropped) + gone
      ensures forall m :: m in m_MsgSendQueue ==>
                m.conn in conns && m.sequence == conns[m.conn].iCurrsequence && conns[m.conn].iThrowsendCount > 0
      ensures SameSequences(old(conns), conns)
      ensures Sorted(conns, old(m_MsgSendQueue), m_MsgSendQueue, sent, gone)
      ensures Wires(old(conns), conns, sent, kernel) && Remainders(conns, sent, kernel)
    {
      ghost var start := View();
      steps, sent, gone := [], [], multiset{};
      NoSteps(start);
      if m_iSendMsgQueueCount > 0 {
        OneMore(start, steps, View(), BeginScan);
        steps := steps + [BeginScan];
        sender := Scanning(0);
        ScanStarts(start, View(), kernel);
        var pos: nat, calls: nat := 0, 0;
        while pos < |m_MsgSendQueue|
          invariant sender == Scanning(pos) && handler.Resting? && calls == |sent|
          invariant CountMatches() && Follows(start, steps, View()) && enqueued == old(enqueued)
          invariant Scanned(start, View(), kernel, sent, gone)
          decreases |m_MsgSendQueue| - pos, |m_MsgSendQueue|
        {
          RunInv(start, steps);
          steps, sent, gone, pos, calls := ScanOne(start, steps, sent, gone, pos, kernel, calls);
        }
        OneMore(start, steps, View(), EndScan);
        steps := steps + [EndScan];
        ScanEnds(start, View(), kernel, sent, gone);
        sender := Idle;
        RunInv(start, steps);
      }
    }

    /** The loop body. */
    method ScanOne(ghost start: State, ghost before: seq<Step>, ghost sentBefore: seq<Msg>, ghost goneBefore: multiset<Msg>,
                   pos: nat, kernel: nat -> nat, calls: nat)
      returns (ghost steps: seq<Step>, ghost sent: seq<Msg>, ghost gone: multiset<Msg>, next: nat, made: nat)
      requires Valid() && sender == Scanning(pos) && handler.Resting? && pos < |m_MsgSendQueue|
      requires Follows(start, before, View())
      requires Scanned(start, View(), kernel, sentBefore, goneBefore) && calls == |sentBefore|
      modifies this
      ensures CountMatches() && sender == Scanning(next) && handler.Resting? && enqueued == old(enqueued)
      ensures Follows(start, steps, View())
      ensures Scanned(start, View(), kernel, sent, gone) && made == |sent|
      ensures (next == pos && |m_MsgSendQueue| < |old(m_MsgSendQueue)|) ||
              (next == pos + 1 && |m_MsgSendQueue| == |old(m_MsgSendQueue)|)
    {
      sent, gone, next, made := sentBefore, goneBefore, pos, calls;
      var m := m_MsgSendQueue[pos];
      assert m in m_MsgSendQueue;
      if conns[m.conn].iCurrsequence != m.sequence {
        OneMore(start, before, View(), DropStale);
        ScanDrops(start, View(), kernel, sent, gone);
        steps := before + [DropStale];
        gone := gone + multiset{m};
        DropMessage(pos);
      } else if conns[m.conn].iThrowsendCount > 0 {
        OneMore(start, before, View(), SkipBusy);
        ScanSkips(start, View(), kernel, sent, gone);
        steps := before + [SkipBusy];
        next := pos + 1;
        sender := Scanning(next);
      } else {
        ghost var s := View();
        steps := SendOne(start, before, pos, kernel(calls));
        ScanSends(start, s, View(), kernel, sent, gone);
        sent := sent + [m];
        made := calls + 1;
      }
    }

    /** The rest of the loop body: claim the message, call send() once, and record what it did. */
    method SendOne(ghost start: State, ghost before: seq<Step>, pos: nat, choice: nat) returns (ghost steps: seq<Step>)
      requires Valid() && sender == Scanning(pos) && handler.Resting?
      requires Enabled(View(), Claim) && Follows(start, before, View())
      modifies this
      ensures CountMatches() && sender == Scanning(pos) && handler.Resting?
      ensures |m_MsgSendQueue| == |old(m_MsgSendQueue)| - 1 && enqueued == old(enqueued)
      ensures Follows(start, steps, View())
      ensures SentOne(old(View()), View(), Portion(old(m_MsgSendQueue)[pos], choice))
    {
      ghost var s := View();
      var m := m_MsgSendQueue[pos];
      OneMore(start, before, View(), Claim);
      ClaimMessage(pos);
      var sendsize := choice % (|conns[m.conn].buf| + 1);
      steps := SendClaimed(start, before + [Claim], m.conn, sendsize);
      assert InvAt(s, m.conn);
      ClaimedAndSent(s, View(), m, sendsize);
    }

    /** send() and what follows. */
    method SendClaimed(ghost start: State, ghost before: seq<Step>, c: nat, n: nat) returns (ghost steps: seq<Step>)
      requires CountMatches() && sender.Claimed? && sender.conn == c && handler.Resting?
      requires Enabled(View(), SenderSend(n)) && Follows(start, before, View())
      modifies this
      ensures CountMatches() && sender == Scanning(old(sender.pos)) && handler.Resting?
      ensures m_MsgSendQueue == old(m_MsgSendQueue) && enqueued == old(enqueued)
      ensures claimed == old(claimed) && dropped == old(dropped)
      ensures c in old(conns) && n <= |old(conns)[c].buf| && conns == old(conns)[c := AfterSend(old(conns)[c], n)]
      ensures Follows(start, steps, View())
    {
      OneMore(start, before, View(), SenderSend(n));
      steps := before + [SenderSend(n)];
      CallSend(c, n);
      if n == |conns[c].buf| {
        OneMore(start, steps, View(), SenderFree);
        steps := steps + [SenderFree];
        ReleaseMemory(c);
      } else {
        steps := WaitForWriteEvent(start, steps, c, n);
      }
    }

    /** The packet was not taken whole: leave the rest to the write handler. */
    method WaitForWriteEvent(ghost start: State, ghost before: seq<Step>, c: nat, n: nat) returns (ghost steps: seq<Step>)
      requires CountMatches() && sender.Sent? && sender.conn == c && sender.n == n && handler.Resting?
      requires Enabled(View(), SenderRecord) && Follows(start, before, View())
      modifies this
      ensures CountMatches() && sender == Scanning(old(sender.pos)) && handler.Resting?
      ensures m_MsgSendQueue == old(m_MsgSendQueue) && enqueued == old(enqueued)
      ensures claimed == old(claimed) && dropped == old(dropped)
      ensures c in old(conns) && n <= |old(conns)[c].buf|
      ensures conns == old(conns)[c := old(conns)[c].(buf := old(conns)[c].buf[n..],
                                                      iThrowsendCount := old(conns)[c].iThrowsendCount + 1,
                                                      epollOut := true)]
      ensures Follows(start, steps, View())
    {
      OneMore(start, before, View(), SenderRecord);
      steps := before + [SenderRecord];
      RecordProgress(c, n);
      OneMore(start, steps, View(), SenderCount);
      steps := steps + [SenderCount];
      IncrementCount(c);
      OneMore(start, steps, View(), SenderRegister);
      steps := steps + [SenderRegister];
      RegisterWriteEvent(c);
    }

    method HandlerCallSend(c: nat, n: nat)
      requires CountMatches() && Enabled(View(), HandlerSend(c, n))
      modifies this
      ensures CountMatches() && View() == Next(old(View()), HandlerSend(c, n))
    {
      conns := conns[c := conns[c].(wire := conns[c].wire + conns[c].buf[..n])];
      handler := Wrote(c, n);
    }

    method HandlerRecordProgress(c: nat, n: nat)
      requires CountMatches() && handler == Wrote(c, n) && Enabled(View(), HandlerRecord)
      modifies this
      ensures CountMatches() && View() == Next(old(View()), HandlerRecord)
    {
      conns := conns[c := conns[c].(buf := conns[c].buf[n..])];
      handler := Resting;
    }

    method ClearWriteEvent(c: nat)
      requires CountMatches() && handler.Wrote? && handler.conn == c && Enabled(View(), HandlerClear)
      modifies this
      ensures CountMatches() && View() == Next(old(View()), HandlerClear)
    {
      conns := conns[c := conns[c].(epollOut := false)];
      handler := Cleared(c);
    }

    method HandlerReleaseMemory(c: nat)
      requires CountMatches() && handler == Cleared(c) && c in conns
      modifies this
      ensures CountMatches() && View() == Next(old(View()), HandlerFree)
    {
      conns := conns[c := conns[c].(psendMemPointer := None)];
      handler := Freed(c);
    }

    method DecrementCount(c: nat)
      requires CountMatches() && handler == Freed(c) && c in conns
      modifies this
      ensures CountMatches() && View() == Next(old(View()), HandlerCount)
    {
      conns := conns[c := conns[c].(iThrowsendCount := conns[c].iThrowsendCount - 1)];
      handler := Resting;
    }

    /** flyd_write_request_handler on a writable event; `sendsize` is what send() took, 0 for EAGAIN. */
    method WriteRequestHandler(c: nat, sendsize: nat) returns (ghost steps: seq<Step>)
      requires Valid() && sender.Idle? && handler.Resting?
      requires c in conns && conns[c].epollOut && sendsize <= |conns[c].buf|
      modifies this
      ensures Valid() && sender.Idle? && handler.Resting?
      ensures Follows(old(View()), steps, View())
      ensures c in conns && conns[c].wire == old(conns[c].wire) + old(conns[c].buf[..sendsize])
      ensures sendsize < |old(conns[c].buf)| ==>
                && conns[c].buf == old(conns[c].buf)[sendsize..] && conns[c].epollOut
                && conns[c].iThrowsendCount == old(conns[c].iThrowsendCount)
      ensures sendsize == |old(conns[c].buf)| ==>
                && !conns[c].epollOut && conns[c].psendMemPointer == None
                && conns[c].iThrowsendCount == old(conns[c].iThrowsendCount) - 1
    {
      ghost var start := View();
      steps := [];
      NoSteps(start);
      if sendsize == 0 {
        return;
      }
      OneMore(start, steps, View(), HandlerSend(c, sendsize));
      steps := steps + [HandlerSend(c, sendsize)];
      HandlerCallSend(c, sendsize);
      if sendsize != |conns[c].buf| {
        OneMore(start, steps, View(), HandlerRecord);
        steps := steps + [HandlerRecord];
        HandlerRecordProgress(c, sendsize);
      } else {
        steps := FinishPacket(start, steps, c);
      }
      RunInv(start, steps);
    }

    /** The packet is out: no more write events, free its memory, and last of all lower the count. */
    method FinishPacket(ghost start: State, ghost before: seq<Step>, c: nat) returns (ghost steps: seq<Step>)
      requires CountMatches() && sender.Idle? && handler.Wrote? && handler.conn == c
      requires Enabled(View(), HandlerClear) && Follows(start, before, View())
      modifies this
      ensures CountMatches() && sender.Idle? && handler.Resting?
      ensures c in conns && conns[c].wire == old(conns[c].wire)
      ensures c in old(conns) && !conns[c].epollOut && conns[c].psendMemPointer == None
      ensures conns[c].iThrowsendCount == old(conns)[c].iThrowsendCount - 1
      ensures Follows(start, steps, View())
    {
      OneMore(start, before, View(), HandlerClear);
      steps := before + [HandlerClear];
      ClearWriteEvent(c);
      OneMore(start, steps, View(), HandlerFree);
      steps := steps + [HandlerFree];
      HandlerReleaseMemory(c);
      OneMore(start, steps, View(), HandlerCount);
      steps := steps + [HandlerCount];
      DecrementCount(c);
    }
  }
}
