/** The double-buffered logger of logging/AsyncLogging.cc. Front-end threads append lines while the back end swaps the
    filled buffers out, writes them, and keeps two of them for the next swap. A unique_ptr is a Ptr that a move leaves
    Null, so no buffer is ever in two places. */
module AsyncLogging {
  import L = LogStream

  const LARGE_BUFFER: nat := 4000 * 1000
  const MOST_BUFFERS: nat := 25

  type Line = seq<char>

  /** A FixedBuffer<kLargeBuffer>: data_[..length()], and (for the proofs) the lines put into it. */
  datatype Buffer = Buffer(data: seq<char>, lines: seq<Line>)

  datatype BufferPtr = Null | Ptr(buffer: Buffer)

  /** Where the back end is. `Waiting` is inside waitForSeconds, with the mutex free. */
  datatype Pc =
    | Head
    | Waiting
    | Swapped
    | Writing(i: nat)
    | Resized
    | FirstRefilled
    | SecondRefilled
    | Stopped

  /** The histories say what was appended (of what fits in a buffer), written and dropped. */
  datatype State = State(
    currentBuffer: BufferPtr,
    nextBuffer: BufferPtr,
    buffers: seq<BufferPtr>,
    newBuffer1: BufferPtr,
    newBuffer2: BufferPtr,
    buffersToWrite: seq<BufferPtr>,
    pc: Pc,
    file: seq<char>,
    appended: seq<Line>,
    written: seq<Line>,
    dropped: seq<Line>,
    drops: nat)

  /** Lock takes the mutex and either waits or swaps; Wake is a notification, a timeout or neither. */
  datatype Step =
    | Append(line: Line)
    | Lock
    | Wake
    | Drop(notice: seq<char>)
    | Write
    | Resize
    | Refill1
    | Refill2
    | Clear
    | Stop

  function Flatten(lines: seq<Line>): seq<char> {
    if lines == [] then [] else lines[0] + Flatten(lines[1..])
  }

  function LinesIn(p: BufferPtr): seq<Line> {
    if p.Ptr? then p.buffer.lines else []
  }

  function LinesOf(bs: seq<BufferPtr>): seq<Line> {
    if bs == [] then [] else LinesIn(bs[0]) + LinesOf(bs[1..])
  }

  function Empty(): Buffer { Buffer([], []) }

  function Avail(b: Buffer): int { LARGE_BUFFER - |b.data| }

  /** FixedBuffer::append */
  function Put(b: Buffer, line: Line): Buffer {
    Buffer(L.Fitted(b.data, LARGE_BUFFER, line), if Avail(b) > |line| then b.lines + [line] else b.lines)
  }

  predicate Enabled(s: State, step: Step) {
    match step
    case Append(line) => s.currentBuffer.Ptr?
    case Lock => s.pc.Head?
    case Wake => s.pc.Waiting?
    case Drop(notice) => s.pc.Swapped?
    case Write => s.pc.Writing? && s.pc.i < |s.buffersToWrite| && s.buffersToWrite[s.pc.i].Ptr?
    case Resize => s.pc.Writing? && s.pc.i == |s.buffersToWrite|
    case Refill1 => s.pc.Resized? && (s.newBuffer1.Null? ==> s.buffersToWrite != [])
    case Refill2 => s.pc.FirstRefilled? && (s.newBuffer2.Null? ==> s.buffersToWrite != [])
    case Clear => s.pc.SecondRefilled?
    case Stop => s.pc.Head?
  }

  function Appended(s: State, line: Line): State
    requires s.currentBuffer.Ptr?
  {
    var t := s.(appended := if |line| < LARGE_BUFFER then s.appended + [line] else s.appended);
    if Avail(s.currentBuffer.buffer) > |line| then
      t.(currentBuffer := Ptr(Put(s.currentBuffer.buffer, line)))
    else
      t.(buffers := s.buffers + [s.currentBuffer],
         currentBuffer := Ptr(Put(if s.nextBuffer.Ptr? then s.nextBuffer.buffer else Empty(), line)),
         nextBuffer := Null)
  }

  /** The rest of the critical section of the back end, which ends with the mutex released. */
  function Swap(s: State): State {
    s.(currentBuffer := s.newBuffer1,
       newBuffer1 := Null,
       buffersToWrite := s.buffers + [s.currentBuffer],
       buffers := s.buffersToWrite,
       nextBuffer := if s.nextBuffer.Null? then s.newBuffer2 else s.nextBuffer,
       newBuffer2 := if s.nextBuffer.Null? then Null else s.newBuffer2,
       pc := Swapped)
  }

  function Last(bs: seq<BufferPtr>): BufferPtr
    requires bs != []
  {
    bs[|bs| - 1]
  }

  function Next(s: State, step: Step): State
    requires Enabled(s, step)
  {
    match step
    case Append(line) => Appended(s, line)
    case Lock => if s.buffers == [] then s.(pc := Waiting) else Swap(s)
    case Wake => Swap(s)
    case Drop(notice) =>
      if |s.buffersToWrite| > MOST_BUFFERS then
        s.(file := s.file + notice,
           dropped := s.dropped + LinesOf(s.buffersToWrite[2..]),
           drops := s.drops + 1,
           buffersToWrite := s.buffersToWrite[..2],
           pc := Writing(0))
      else
        s.(pc := Writing(0))
    case Write =>
      var b := s.buffersToWrite[s.pc.i].buffer;
      s.(file := s.file + b.data, written := s.written + b.lines, pc := Writing(s.pc.i + 1))
    case Resize =>
      s.(buffersToWrite := if |s.buffersToWrite| > 2 then s.buffersToWrite[..2] else s.buffersToWrite, pc := Resized)
    case Refill1 =>
      if s.newBuffer1.Ptr? then s.(pc := FirstRefilled) else
      s.(newBuffer1 := if Last(s.buffersToWrite).Null? then Null else Ptr(Empty()),
         buffersToWrite := s.buffersToWrite[..|s.buffersToWrite| - 1],
         pc := FirstRefilled)
    case Refill2 =>
      if s.newBuffer2.Ptr? then s.(pc := SecondRefilled) else
      s.(newBuffer2 := if Last(s.buffersToWrite).Null? then Null else Ptr(Empty()),
         buffersToWrite := s.buffersToWrite[..|s.buffersToWrite| - 1],
         pc := SecondRefilled)
    case Clear => s.(buffersToWrite := [], pc := Head)
    case Stop => s.(pc := Stopped)
  }

  /** A buffer holds whole lines, and stays below its size. */
  predicate Whole(p: BufferPtr) {
    p.Ptr? && p.buffer.data == Flatten(p.buffer.lines) && |p.buffer.data| < LARGE_BUFFER
  }

  predicate AllWhole(bs: seq<BufferPtr>) {
    forall i :: 0 <= i < |bs| ==> Whole(bs[i])
  }

  /** The buffers the back end holds, by where it is. */
  predicate Stocked(s: State) {
    match s.pc
    case Head => s.newBuffer1 == s.newBuffer2 == Ptr(Empty()) && s.buffersToWrite == []
    case Waiting => s.newBuffer1 == s.newBuffer2 == Ptr(Empty()) && s.buffersToWrite == []
    case Swapped => InHand(s) && |s.buffersToWrite| >= 1
    case Writing(i) => InHand(s) && |s.buffersToWrite| >= 1 && i <= |s.buffersToWrite|
    case Resized => InHand(s) && |s.buffersToWrite| >= 1
    case FirstRefilled =>
      && s.newBuffer1 == Ptr(Empty())
      && (s.newBuffer2 == Ptr(Empty()) || (s.newBuffer2.Null? && s.buffersToWrite != []))
    case SecondRefilled => s.newBuffer1 == s.newBuffer2 == Ptr(Empty())
    case Stopped => s.newBuffer1 == s.newBuffer2 == Ptr(Empty()) && s.buffersToWrite == []
  }

  predicate InHand(s: State) {
    && s.newBuffer1.Null?
    && (s.newBuffer2 == Ptr(Empty()) || (s.newBuffer2.Null? && |s.buffersToWrite| >= 2))
  }

  /** The key to recycling: when the front end has used up the spare buffer, there is one waiting to be written. */
  predicate Spare(s: State) {
    if s.nextBuffer.Null? then s.buffers != [] else s.nextBuffer == Ptr(Empty())
  }

  predicate Shape(s: State) {
    && Whole(s.currentBuffer) && Spare(s) && AllWhole(s.buffers) && AllWhole(s.buffersToWrite)
    && Stocked(s)
  }

  function Unwritten(s: State): seq<BufferPtr> {
    if s.pc.Swapped? then s.buffersToWrite
    else if s.pc.Writing? && s.pc.i <= |s.buffersToWrite| then s.buffersToWrite[s.pc.i..]
    else []
  }

  function Pending(unwritten: seq<BufferPtr>, filled: seq<BufferPtr>, current: BufferPtr): seq<Line> {
    LinesOf(unwritten) + LinesOf(filled) + LinesIn(current)
  }

  /** The lines that are in some buffer and not yet in the file, in order. */
  function PendingLines(s: State): seq<Line> {
    Pending(Unwritten(s), s.buffers, s.currentBuffer)
  }

  ghost predicate Tally(written: seq<Line>, pending: seq<Line>, dropped: seq<Line>, appended: seq<Line>) {
    multiset(written) + multiset(pending) + multiset(dropped) == multiset(appended)
  }

  predicate InOrder(written: seq<Line>, pending: seq<Line>, file: seq<char>, appended: seq<Line>) {
    written + pending == appended && file == Flatten(written)
  }

  /** `a` is `b` with some elements left out. */
  predicate Subsequence<T(==)>(a: seq<T>, b: seq<T>)
    decreases b
  {
    a == [] ||
    (b != [] && ((a[|a| - 1] == b[|b| - 1] && Subsequence(a[..|a| - 1], b[..|b| - 1])) || Subsequence(a, b[..|b| - 1])))
  }

  ghost predicate Conserved(s: State) {
    && Tally(s.written, PendingLines(s), s.dropped, s.appended)
    && (s.drops == 0 ==> s.dropped == [] && InOrder(s.written, PendingLines(s), s.file, s.appended))
  }

  /** Drops or not, what was written and then what is pending is in the order of appending. */
  predicate Ordered(s: State) {
    Subsequence(s.written + PendingLines(s), s.appended)
  }

  ghost predicate Inv(s: State) { Shape(s) && Conserved(s) && Ordered(s) }

  lemma AppendShape(s: State, line: Line)
    requires Shape(s)
    ensures Shape(Appended(s, line))
  {
    FlattenConcat(s.currentBuffer.buffer.lines, [line]);
    assert Flatten([line]) == line;
  }

  lemma ShapeStep(s: State, step: Step)
    requires Shape(s) && Enabled(s, step)
    ensures Shape(Next(s, step))
  {
    if step.Append? {
      AppendShape(s, step.line);
    }
  }

  lemma {:induction false} FlattenConcat(a: seq<Line>, b: seq<Line>)
    ensures Flatten(a + b) == Flatten(a) + Flatten(b)
  {
    if a == [] {
      assert a + b == b;
    } else {
      FlattenConcat(a[1..], b);
      assert (a + b)[1..] == a[1..] + b;
      Associate(a[0], Flatten(a[1..]), Flatten(b));
    }
  }

  lemma {:induction false} LinesOfConcat(a: seq<BufferPtr>, b: seq<BufferPtr>)
    ensures LinesOf(a + b) == LinesOf(a) + LinesOf(b)
  {
    if a == [] {
      assert a + b == b;
    } else {
      assert (a + b)[1..] == a[1..] + b && (a + b)[0] == a[0];
      LinesOfConcat(a[1..], b);
      Associate(LinesIn(a[0]), LinesOf(a[1..]), LinesOf(b));
    }
  }

  lemma {:induction false} LinesOfSnoc(bs: seq<BufferPtr>, p: BufferPtr)
    ensures LinesOf(bs + [p]) == LinesOf(bs) + LinesIn(p)
  {
    LinesOfConcat(bs, [p]);
    assert LinesOf([p]) == LinesIn(p);
  }

  lemma Associate<T>(a: seq<T>, b: seq<T>, c: seq<T>)
    ensures a + b + c == a + (b + c)
  {}

  /** A full buffer moves to the filled ones, and the next begins with `line`, or with nothing. */
  lemma PendingRotate(unwritten: seq<BufferPtr>, filled: seq<BufferPtr>, current: BufferPtr, next: BufferPtr)
    ensures Pending(unwritten, filled + [current], next) == Pending(unwritten, filled, current) + LinesIn(next)
  {
    LinesOfSnoc(filled, current);
    Associate(LinesOf(unwritten), LinesOf(filled), LinesIn(current));
  }

  lemma PendingSwap(filled: seq<BufferPtr>, current: BufferPtr, next: BufferPtr)
    requires LinesIn(next) == []
    ensures Pending(filled + [current], [], next) == Pending([], filled, current)
  {
    LinesOfSnoc(filled, current);
  }

  lemma PendingWrite(unwritten: seq<BufferPtr>, filled: seq<BufferPtr>, current: BufferPtr)
    requires unwritten != []
    ensures Pending(unwritten, filled, current) == LinesIn(unwritten[0]) + Pending(unwritten[1..], filled, current)
  {
    var b, rest := LinesIn(unwritten[0]), LinesOf(unwritten[1..]);
    Associate(b, rest, LinesOf(filled));
    Associate(b, rest + LinesOf(filled), LinesIn(current));
  }

  lemma PendingDrop(kept: seq<BufferPtr>, gone: seq<BufferPtr>, filled: seq<BufferPtr>, current: BufferPtr)
    ensures multiset(Pending(kept + gone, filled, current))
         == multiset(Pending(kept, filled, current)) + multiset(LinesOf(gone))
  {
    LinesOfConcat(kept, gone);
  }

  /** An appended line ends up behind everything pending, unless no buffer could hold it. */
  lemma AppendRecords(s: State, line: Line)
    requires Shape(s)
    ensures PendingLines(Appended(s, line)) == PendingLines(s) + if |line| < 4000000 then [line] else []
  {
    var t := Appended(s, line);
    if Avail(s.currentBuffer.buffer) > |line| {
      Associate(LinesOf(Unwritten(s)) + LinesOf(s.buffers), LinesIn(s.currentBuffer), [line]);
    } else {
      PendingRotate(Unwritten(s), s.buffers, s.currentBuffer, t.currentBuffer);
      assert LinesIn(t.currentBuffer) == if |line| < LARGE_BUFFER then [line] else [];
    }
  }

  lemma SwapConserved(s: State)
    requires Inv(s) && (s.pc.Head? || s.pc.Waiting?)
    ensures Conserved(Swap(s))
  {
    PendingSwap(s.buffers, s.currentBuffer, s.newBuffer1);
  }

  lemma SubsequenceSnoc<T>(a: seq<T>, b: seq<T>, x: T)
    requires Subsequence(a, b)
    ensures Subsequence(a + [x], b + [x])
  {
    assert (a + [x])[..|a|] == a && (b + [x])[..|b|] == b;
  }

  /** Leaving out some more in the middle. */
  lemma {:induction false} SubsequenceGap<T>(front: seq<T>, gap: seq<T>, back: seq<T>, b: seq<T>)
    requires Subsequence(front + gap + back, b)
    ensures Subsequence(front + back, b)
    decreases |b|
  {
    var a := front + gap + back;
    if front + back != [] && b != [] {
      var init := b[..|b| - 1];
      if Subsequence(a, init) {
        SubsequenceGap(front, gap, back, init);
      } else if back != [] {
        assert a[..|a| - 1] == front + gap + back[..|back| - 1];
        SubsequenceGap(front, gap, back[..|back| - 1], init);
        assert (front + back)[..|front + back| - 1] == front + back[..|back| - 1];
      } else if gap != [] {
        assert a[..|a| - 1] == front + gap[..|gap| - 1] + back;
        SubsequenceGap(front, gap[..|gap| - 1], back, init);
      } else {
        assert a == front + back;
      }
    }
  }

  lemma OneMoreLine(written: seq<Line>, pending: seq<Line>, dropped: seq<Line>, appended: seq<Line>, more: seq<Line>)
    requires Tally(written, pending, dropped, appended)
    ensures Tally(written, pending + more, dropped, appended + more)
    ensures written + pending == appended ==> written + (pending + more) == appended + more
  {}

  lemma AppendConserved(s: State, line: Line)
    requires Inv(s)
    ensures Conserved(Appended(s, line))
  {
    var more := if |line| < LARGE_BUFFER then [line] else [];
    AppendRecords(s, line);
    OneMoreLine(s.written, PendingLines(s), s.dropped, s.appended, more);
    assert Appended(s, line).appended == s.appended + more;
  }

  /** What a write changes: the lines of one buffer are no longer pending but written. */
  lemma WriteMoves(s: State) returns (b: Buffer)
    requires Enabled(s, Write)
    ensures b == s.buffersToWrite[s.pc.i].buffer && PendingLines(s) == b.lines + PendingLines(Next(s, Write))
  {
    b := s.buffersToWrite[s.pc.i].buffer;
    assert s.buffersToWrite[s.pc.i..][1..] == s.buffersToWrite[s.pc.i + 1..];
    PendingWrite(Unwritten(s), s.buffers, s.currentBuffer);
  }

  lemma TallyWrite(written: seq<Line>, b: seq<Line>, after: seq<Line>, dropped: seq<Line>, appended: seq<Line>)
    ensures written + b + after == written + (b + after)
    ensures Tally(written, b + after, dropped, appended) ==> Tally(written + b, after, dropped, appended)
  {}

  lemma WriteConserved(s: State)
    requires Inv(s) && Enabled(s, Write)
    ensures Conserved(Next(s, Write))
  {
    var b := WriteMoves(s);
    TallyWrite(s.written, b.lines, PendingLines(Next(s, Write)), s.dropped, s.appended);
    FlattenConcat(s.written, b.lines);
  }

  /** What a drop changes: the lines of the buffers `gone` are no longer pending but dropped. */
  predicate Dropping(s: State, t: State, kept: seq<BufferPtr>, gone: seq<BufferPtr>) {
    && PendingLines(s) == Pending(kept + gone, s.buffers, s.currentBuffer)
    && PendingLines(t) == Pending(kept, s.buffers, s.currentBuffer)
    && t.dropped == s.dropped + LinesOf(gone) && t.written == s.written && t.appended == s.appended
    && (t.drops == 0 ==> s.drops == 0 && gone == [] && t.file == s.file)
  }

  lemma DropMoves(s: State, notice: seq<char>) returns (kept: seq<BufferPtr>, gone: seq<BufferPtr>)
    requires Enabled(s, Drop(notice))
    ensures Dropping(s, Next(s, Drop(notice)), kept, gone)
  {
    var bs := s.buffersToWrite;
    assert Unwritten(Next(s, Drop(notice))) == Next(s, Drop(notice)).buffersToWrite;
    if |bs| > MOST_BUFFERS {
      kept, gone := bs[..2], bs[2..];
      assert bs == kept + gone;
    } else {
      kept, gone := bs, [];
      assert bs == kept + gone;
    }
  }

  lemma DroppingConserved(s: State, t: State, kept: seq<BufferPtr>, gone: seq<BufferPtr>)
    requires Dropping(s, t, kept, gone) && Conserved(s)
    ensures Conserved(t)
  {
    PendingDrop(kept, gone, s.buffers, s.currentBuffer);
    TallyDrop(s.written, PendingLines(s), PendingLines(t), s.dropped, LinesOf(gone), s.appended);
    if t.drops == 0 {
      assert kept + gone == kept;
    }
  }

  lemma DropConserved(s: State, notice: seq<char>)
    requires Conserved(s) && Enabled(s, Drop(notice))
    ensures Conserved(Next(s, Drop(notice)))
  {
    var kept, gone := DropMoves(s, notice);
    DroppingConserved(s, Next(s, Drop(notice)), kept, gone);
  }

  lemma TallyDrop(written: seq<Line>, before: seq<Line>, after: seq<Line>, dropped: seq<Line>, gone: seq<Line>, appended: seq<Line>)
    requires Tally(written, before, dropped, appended)
    requires multiset(before) == multiset(after) + multiset(gone)
    ensures Tally(written, after, dropped + gone, appended)
  {}

  /** The steps in which the back end only handles buffers it has written. */
  lemma QuietConserved(s: State, step: Step)
    requires Inv(s) && Enabled(s, step)
    requires step.Resize? || step.Refill1? || step.Refill2? || step.Clear? || step.Stop?
    ensures Conserved(Next(s, step))
  {
    NothingUnwritten(s, step);
    SameConserved(s, Next(s, step));
  }

  /** What the two states have in common. */
  predicate SameLog(s: State, t: State) {
    && Unwritten(t) == Unwritten(s) && t.buffers == s.buffers && t.currentBuffer == s.currentBuffer
    && t.written == s.written && t.dropped == s.dropped && t.appended == s.appended && t.drops == s.drops && t.file == s.file
  }

  lemma SameConserved(s: State, t: State)
    requires SameLog(s, t) && Conserved(s)
    ensures Conserved(t)
  {}

  lemma NothingUnwritten(s: State, step: Step)
    requires Enabled(s, step)
    requires step.Resize? || step.Refill1? || step.Refill2? || step.Clear? || step.Stop?
    ensures SameLog(s, Next(s, step))
  {}

  lemma AppendOrdered(s: State, line: Line)
    requires Inv(s)
    ensures Ordered(Appended(s, line))
  {
    AppendRecords(s, line);
    if |line| < LARGE_BUFFER {
      SubsequenceSnoc(s.written + PendingLines(s), s.appended, line);
      Associate(s.written, PendingLines(s), [line]);
    } else {
      assert PendingLines(s) + [] == PendingLines(s);
    }
  }

  lemma WriteOrdered(s: State)
    requires Inv(s) && Enabled(s, Write)
    ensures Ordered(Next(s, Write))
  {
    var b := WriteMoves(s);
    TallyWrite(s.written, b.lines, PendingLines(Next(s, Write)), s.dropped, s.appended);
  }

  lemma Regroup<T>(written: seq<T>, kept: seq<T>, gone: seq<T>, filled: seq<T>, current: seq<T>)
    ensures written + (kept + gone + filled + current) == (written + kept) + gone + (filled + current)
    ensures written + (kept + filled + current) == (written + kept) + (filled + current)
  {}

  lemma PendingGap(written: seq<Line>, kept: seq<BufferPtr>, gone: seq<BufferPtr>, filled: seq<BufferPtr>, current: BufferPtr,
      appended: seq<Line>)
    requires Subsequence(written + Pending(kept + gone, filled, current), appended)
    ensures Subsequence(written + Pending(kept, filled, current), appended)
  {
    LinesOfConcat(kept, gone);
    Regroup(written, LinesOf(kept), LinesOf(gone), LinesOf(filled), LinesIn(current));
    SubsequenceGap(written + LinesOf(kept), LinesOf(gone), LinesOf(filled) + LinesIn(current), appended);
  }

  lemma DroppingOrdered(s: State, t: State, kept: seq<BufferPtr>, gone: seq<BufferPtr>)
    requires Dropping(s, t, kept, gone) && Ordered(s)
    ensures Ordered(t)
  {
    PendingGap(s.written, kept, gone, s.buffers, s.currentBuffer, s.appended);
  }

  lemma DropOrdered(s: State, notice: seq<char>)
    requires Ordered(s) && Enabled(s, Drop(notice))
    ensures Ordered(Next(s, Drop(notice)))
  {
    var kept, gone := DropMoves(s, notice);
    DroppingOrdered(s, Next(s, Drop(notice)), kept, gone);
  }

  lemma SwapOrdered(s: State)
    requires Inv(s) && (s.pc.Head? || s.pc.Waiting?)
    ensures Ordered(Swap(s))
  {
    PendingSwap(s.buffers, s.currentBuffer, s.newBuffer1);
  }

  lemma QuietOrdered(s: State, step: Step)
    requires Inv(s) && Enabled(s, step)
    requires step.Resize? || step.Refill1? || step.Refill2? || step.Clear? || step.Stop?
    ensures Ordered(Next(s, step))
  {
    NothingUnwritten(s, step);
    SameOrdered(s, Next(s, step));
  }

  lemma SameOrdered(s: State, t: State)
    requires SameLog(s, t) && Ordered(s)
    ensures Ordered(t)
  {}

  lemma OrderedStep(s: State, step: Step)
    requires Inv(s) && Enabled(s, step)
    ensures Ordered(Next(s, step))
  {
    match step
    case Append(line) => AppendOrdered(s, line);
    case Lock => if s.buffers != [] { SwapOrdered(s); } else { SameOrdered(s, Next(s, step)); }
    case Wake => SwapOrdered(s);
    case Drop(notice) => DropOrdered(s, notice);
    case Write => WriteOrdered(s);
    case _ => QuietOrdered(s, step);
  }

  lemma ConservedStep(s: State, step: Step)
    requires Inv(s) && Enabled(s, step)
    ensures Conserved(Next(s, step))
  {
    match step
    case Append(line) => AppendConserved(s, line);
    case Lock => if s.buffers != [] { SwapConserved(s); }
    case Wake => SwapConserved(s);
    case Drop(notice) => DropConserved(s, notice);
    case Write => WriteConserved(s);
    case _ => QuietConserved(s, step);
  }

  lemma InvStep(s: State, step: Step)
    requires Inv(s) && Enabled(s, step)
    ensures Inv(Next(s, step))
  {
    ShapeStep(s, step);
    ConservedStep(s, step);
    OrderedStep(s, step);
  }

  function Initial(): State {
    State(Ptr(Empty()), Ptr(Empty()), [], Ptr(Empty()), Ptr(Empty()), [], Head, [], [], [], [], 0)
  }

  predicate Enabling(s: State, steps: seq<Step>)
    decreases steps
  {
    steps == [] || (Enabled(s, steps[0]) && Enabling(Next(s, steps[0]), steps[1..]))
  }

  function Run(s: State, steps: seq<Step>): State
    requires Enabling(s, steps)
    decreases steps
  {
    if steps == [] then s else Run(Next(s, steps[0]), steps[1..])
  }

  lemma {:induction false} RunInv(s: State, steps: seq<Step>)
    requires Inv(s) && Enabling(s, steps)
    ensures Inv(Run(s, steps))
    decreases steps
  {
    if steps != [] {
      InvStep(s, steps[0]);
      RunInv(Next(s, steps[0]), steps[1..]);
    }
  }

  lemma InitialInv()
    ensures Inv(Initial())
  {
    assert Initial().written + PendingLines(Initial()) == [];
  }

  /** The lines appended in a run, without those as long as a whole buffer. */
  function Fitting(steps: seq<Step>): seq<Line>
    decreases steps
  {
    if steps == [] then [] else Fits(steps[0]) + Fitting(steps[1..])
  }

  function Fits(step: Step): seq<Line> {
    if step.Append? && |step.line| < 4000000 then [step.line] else []
  }

  lemma AppendedStep(s: State, step: Step)
    requires Enabled(s, step)
    ensures Next(s, step).appended == s.appended + Fits(step)
  {}

  lemma {:induction false} AppendedAre(s: State, steps: seq<Step>)
    requires Enabling(s, steps)
    ensures Run(s, steps).appended == s.appended + Fitting(steps)
    decreases steps
  {
    if steps != [] {
      AppendedStep(s, steps[0]);
      AppendedAre(Next(s, steps[0]), steps[1..]);
      Associate(s.appended, Fits(steps[0]), Fitting(steps[1..]));
    }
  }

  /** Never more than 25 buffers to write at once. */
  predicate KeepsUp(s: State, steps: seq<Step>)
    requires Enabling(s, steps)
    decreases steps
  {
    steps == [] || ((steps[0].Drop? ==> |s.buffersToWrite| <= 25) && KeepsUp(Next(s, steps[0]), steps[1..]))
  }

  lemma {:induction false} NothingDropped(s: State, steps: seq<Step>)
    requires Enabling(s, steps)
    ensures Run(s, steps).drops >= s.drops
    ensures Run(s, steps).drops == s.drops <==> KeepsUp(s, steps)
    decreases steps
  {
    if steps != [] {
      NothingDropped(Next(s, steps[0]), steps[1..]);
    }
  }

  /** More than 25 buffers: all but the first two are dropped, and the file says so. */
  lemma DropFacts(s: State, notice: seq<char>)
    requires s.pc.Swapped?
    ensures var t := Next(s, Drop(notice));
            && (|s.buffersToWrite| > 25 ==>
                  && t.buffersToWrite == [s.buffersToWrite[0], s.buffersToWrite[1]] && t.file == s.file + notice
                  && t.dropped == s.dropped + LinesOf(s.buffersToWrite[2..]) && t.drops == s.drops + 1)
            && (|s.buffersToWrite| <= 25 ==>
                  && t.buffersToWrite == s.buffersToWrite && t.file == s.file && t.dropped == s.dropped
                  && t.drops == s.drops)
  {}

  /** Of what was written two buffers are kept for the next pass, at most. */
  lemma KeptFacts(s: State)
    requires Enabled(s, Resize)
    ensures var t := Next(s, Resize);
            && |t.buffersToWrite| <= 2 && t.buffersToWrite <= s.buffersToWrite
            && (|s.buffersToWrite| >= 2 ==> |t.buffersToWrite| == 2)
  {}

  /** Whatever the front ends and the back end do in whatever order: every appended line that fits in a buffer is in the
      file, in a buffer or dropped with a notice; what was written and then what is pending is in the order of appending,
      drops or not; and as long as the back end keeps up, the file is exactly the lines written, and they and the pending
      ones are the appended ones. No line is split: every buffer with lines in it holds them whole, back to back. */
  lemma LogConservation(steps: seq<Step>)
    requires Enabling(Initial(), steps)
    ensures var s := Run(Initial(), steps);
            && multiset(Fitting(steps)) == multiset(s.written) + multiset(PendingLines(s)) + multiset(s.dropped)
            && Subsequence(s.written + PendingLines(s), Fitting(steps))
            && Whole(s.currentBuffer) && AllWhole(s.buffers) && AllWhole(s.buffersToWrite)
            && (KeepsUp(Initial(), steps) ==>
                  && s.file == Flatten(s.written) && s.written + PendingLines(s) == Fitting(steps) && s.dropped == []
                  && Flatten(Fitting(steps)) == s.file + Flatten(PendingLines(s)))
  {
    InitialInv();
    RunInv(Initial(), steps);
    AppendedAre(Initial(), steps);
    NothingDropped(Initial(), steps);
    var s := Run(Initial(), steps);
    assert s.appended == Fitting(steps);
    FlattenConcat(s.written, PendingLines(s));
  }

  // ---------- what one pass of the back end achieves ----------

  lemma {:induction false} RunConcat(s: State, a: seq<Step>, b: seq<Step>)
    requires Enabling(s, a) && Enabling(Run(s, a), b)
    ensures Enabling(s, a + b) && Run(s, a + b) == Run(Run(s, a), b)
    decreases a
  {
    if a == [] {
      assert a + b == b;
    } else {
      assert (a + b)[1..] == a[1..] + b;
      RunConcat(Next(s, a[0]), a[1..], b);
    }
  }

  predicate SameButWritten(s: State, t: State) {
    && t.currentBuffer == s.currentBuffer && t.nextBuffer == s.nextBuffer && t.buffers == s.buffers
    && t.newBuffer1 == s.newBuffer1 && t.newBuffer2 == s.newBuffer2 && t.buffersToWrite == s.buffersToWrite
    && t.drops == s.drops
  }

  lemma {:induction false} WritesAll(s: State, n: nat)
    requires s.pc.Writing? && s.pc.i + n == |s.buffersToWrite| && AllWhole(s.buffersToWrite)
    ensures Enabling(s, Writes(n))
    ensures var t := Run(s, Writes(n));
            && SameButWritten(s, t) && t.pc == Writing(|s.buffersToWrite|)
            && t.written == s.written + LinesOf(s.buffersToWrite[s.pc.i..])
            && t.file == s.file + Flatten(LinesOf(s.buffersToWrite[s.pc.i..]))
    decreases n
  {
    WritesEnabled(s, n);
    if n > 0 {
      FirstWrite(s, n);
      var next := Next(s, Write);
      WritesAll(next, n - 1);
      var b := s.buffersToWrite[s.pc.i];
      assert s.buffersToWrite[s.pc.i..] == [b] + s.buffersToWrite[s.pc.i + 1..];
      WroteOne(s.written, s.file, b, s.buffersToWrite[s.pc.i + 1..]);
    } else {
      assert s.buffersToWrite[s.pc.i..] == [];
    }
  }

  lemma WroteOne(written: seq<Line>, file: seq<char>, b: BufferPtr, rest: seq<BufferPtr>)
    requires Whole(b)
    ensures LinesOf([b] + rest) == b.buffer.lines + LinesOf(rest)
    ensures written + b.buffer.lines + LinesOf(rest) == written + LinesOf([b] + rest)
    ensures file + b.buffer.data + Flatten(LinesOf(rest)) == file + Flatten(LinesOf([b] + rest))
  {
    assert ([b] + rest)[1..] == rest;
    FlattenConcat(b.buffer.lines, LinesOf(rest));
  }

  /** The end of a pass, after the writing. */
  lemma PassEnds(s: State)
    requires Shape(s) && s.pc == Writing(|s.buffersToWrite|)
    ensures Enabling(s, [Resize, Refill1, Refill2, Clear])
    ensures var t := Run(s, [Resize, Refill1, Refill2, Clear]);
            && t.pc.Head? && t.written == s.written && t.file == s.file && t.drops == s.drops
            && t.buffers == s.buffers && t.currentBuffer == s.currentBuffer
  {
    var a := Next(s, Resize);
    ShapeStep(s, Resize);
    var b := Next(a, Refill1);
    ShapeStep(a, Refill1);
    var c := Next(b, Refill2);
    ShapeStep(b, Refill2);
    var d := Next(c, Clear);
    assert [Resize, Refill1, Refill2, Clear][1..] == [Refill1, Refill2, Clear];
    assert [Refill1, Refill2, Clear][1..] == [Refill2, Clear] && [Refill2, Clear][1..] == [Clear] && [Clear][1..] == [];
    assert Enabling(d, []) && Enabling(c, [Clear]) && Enabling(b, [Refill2, Clear]);
    assert Run(b, [Refill2, Clear]) == d;
  }

  function Pass(n: nat, notice: seq<char>): seq<Step> {
    [Wake, Drop(notice)] + Writes(n) + [Resize, Refill1, Refill2, Clear]
  }

  /** Once the back end has the mutex, one pass writes every line that is pending then, if it keeps up: the file holds
      them all, and it is ready for the next pass. */
  lemma PassWritesAll(s: State, notice: seq<char>)
    requires Shape(s) && s.pc.Waiting? && |s.buffers| < 25
    ensures Enabling(s, Pass(|s.buffers| + 1, notice))
    ensures var t := Run(s, Pass(|s.buffers| + 1, notice));
            && t.pc.Head? && t.drops == s.drops
            && t.written == s.written + PendingLines(s) && t.file == s.file + Flatten(PendingLines(s))
            && PendingLines(t) == []
  {
    var n := |s.buffers| + 1;
    var a := PassBegins(s, notice);
    WritesAll(a, n);
    var b := Run(a, Writes(n));
    assert a.buffersToWrite[0..] == a.buffersToWrite;
    PassEnds(b);
    RunThree(s, [Wake, Drop(notice)], Writes(n), [Resize, Refill1, Refill2, Clear]);
    PendingWhileWaiting(s);
  }

  lemma PendingWhileWaiting(s: State)
    requires s.pc.Waiting?
    ensures PendingLines(s) == LinesOf(s.buffers + [s.currentBuffer])
  {
    LinesOfSnoc(s.buffers, s.currentBuffer);
    assert LinesOf([]) + LinesOf(s.buffers) == LinesOf(s.buffers);
  }

  lemma RunThree(s: State, a: seq<Step>, b: seq<Step>, c: seq<Step>)
    requires Enabling(s, a) && Enabling(Run(s, a), b) && Enabling(Run(Run(s, a), b), c)
    ensures Enabling(s, a + b + c) && Run(s, a + b + c) == Run(Run(Run(s, a), b), c)
  {
    RunConcat(s, a, b);
    RunConcat(s, a + b, c);
  }

  lemma PassBegins(s: State, notice: seq<char>) returns (t: State)
    requires Shape(s) && s.pc.Waiting? && |s.buffers| < 25
    ensures Enabling(s, [Wake, Drop(notice)]) && t == Run(s, [Wake, Drop(notice)]) && Shape(t)
    ensures t.pc == Writing(0) && t.buffersToWrite == s.buffers + [s.currentBuffer] && t.buffers == []
    ensures t.currentBuffer == Ptr(Empty()) && t.written == s.written && t.file == s.file && t.drops == s.drops
  {
    var swapped := Next(s, Wake);
    ShapeStep(s, Wake);
    t := Next(swapped, Drop(notice));
    ShapeStep(swapped, Drop(notice));
    assert [Wake, Drop(notice)][1..] == [Drop(notice)] && [Drop(notice)][1..] == [];
    assert Enabling(t, []) && Enabling(swapped, [Drop(notice)]);
    assert Run(swapped, [Drop(notice)]) == t;
  }

  /** The assertions in threadFunc, and what the back end needs to go on. */
  predicate AssertionsHold(s: State) {
    && s.currentBuffer.Ptr?
    && (s.pc.Head? ==> s.newBuffer1 == s.newBuffer2 == Ptr(Empty()) && s.buffersToWrite == [])
    && (s.pc.Swapped? ==> s.buffersToWrite != [])
    && (s.pc.Resized? ==> Enabled(s, Refill1))
    && (s.pc.FirstRefilled? ==> Enabled(s, Refill2))
    && (s.pc.Writing? ==> Enabled(s, Write) || Enabled(s, Resize))
  }

  /** The assertions hold in every run, drops included, so no refill takes from an empty vector: the back end can always
      go on, and the front end can always append. */
  lemma BuffersAreRecycled(steps: seq<Step>)
    requires Enabling(Initial(), steps)
    ensures AssertionsHold(Run(Initial(), steps))
  {
    InitialInv();
    RunInv(Initial(), steps);
    ShapeAsserts(Run(Initial(), steps));
  }

  lemma ShapeAsserts(s: State)
    requires Shape(s)
    ensures AssertionsHold(s)
  {}

  function Writes(n: nat): (steps: seq<Step>)
    ensures |steps| == n
  {
    if n == 0 then [] else [Write] + Writes(n - 1)
  }

  lemma {:induction false} WritesEnabled(s: State, n: nat)
    requires s.pc.Writing? && s.pc.i + n <= |s.buffersToWrite| && AllWhole(s.buffersToWrite)
    ensures Enabling(s, Writes(n))
    decreases n
  {
    if n > 0 {
      assert Writes(n)[1..] == Writes(n - 1);
      assert Whole(s.buffersToWrite[s.pc.i]);
      WritesEnabled(Next(s, Write), n - 1);
    }
  }

  lemma FirstWrite(s: State, n: nat)
    requires n > 0 && s.pc.Writing? && s.pc.i + n <= |s.buffersToWrite| && AllWhole(s.buffersToWrite)
    ensures Enabled(s, Write) && Enabling(s, Writes(n)) && Enabling(Next(s, Write), Writes(n - 1))
    ensures Run(s, Writes(n)) == Run(Next(s, Write), Writes(n - 1))
  {
    assert Whole(s.buffersToWrite[s.pc.i]);
    WritesEnabled(s, n);
    WritesEnabled(Next(s, Write), n - 1);
    assert Writes(n)[1..] == Writes(n - 1);
  }

  /** The logger, with the buffers of its back end's thread as fields too. */
  class AsyncLogging {
    var currentBuffer_: BufferPtr
    var nextBuffer_: BufferPtr
    var buffers_: seq<BufferPtr>
    var newBuffer1: BufferPtr
    var newBuffer2: BufferPtr
    var buffersToWrite: seq<BufferPtr>
    var output: seq<char>
    ghost var appended: seq<Line>
    ghost var written: seq<Line>
    ghost var dropped: seq<Line>
    ghost var drops: nat

    ghost function View(pc: Pc): State
      reads this
    {
      State(currentBuffer_, nextBuffer_, buffers_, newBuffer1, newBuffer2, buffersToWrite, pc, output, appended, written, dropped, drops)
    }

    constructor ()
      ensures View(Head) == Initial()
    {
      currentBuffer_, nextBuffer_, buffers_ := Ptr(Empty()), Ptr(Empty()), [];
      newBuffer1, newBuffer2, buffersToWrite := Ptr(Empty()), Ptr(Empty()), [];
      output := [];
      appended, written, dropped, drops := [], [], [], 0;
    }

    method Append(logline: Line, ghost pc: Pc)
      requires currentBuffer_.Ptr?
      modifies this
      ensures View(pc) == Next(old(View(pc)), Step.Append(logline))
    {
      if Avail(currentBuffer_.buffer) > |logline| {
        currentBuffer_ := Ptr(Put(currentBuffer_.buffer, logline));
      } else {
        buffers_ := buffers_ + [currentBuffer_];
        if nextBuffer_.Ptr? {
          currentBuffer_ := nextBuffer_;
          nextBuffer_ := Null;
        } else {
          currentBuffer_ := Ptr(Empty());
        }
        currentBuffer_ := Ptr(Put(currentBuffer_.buffer, logline));
      }
      appended := if |logline| < LARGE_BUFFER then appended + [logline] else appended;
    }

    /** The back end takes the mutex; if nothing is filled it starts to wait, and swaps when it wakes. */
    method LockBuffers() returns (waiting: bool)
      modifies this
      ensures View(if waiting then Waiting else Swapped) == Next(old(View(Head)), Lock)
      ensures waiting <==> old(buffers_) == []
    {
      if buffers_ == [] {
        return true;
      }
      SwapBuffers();
      return false;
    }

    method SwapBuffers()
      modifies this
      ensures View(Swapped) == Next(old(View(Waiting)), Wake) == Swap(old(View(Head)))
    {
      buffers_ := buffers_ + [currentBuffer_];
      currentBuffer_ := newBuffer1;
      newBuffer1 := Null;
      buffersToWrite, buffers_ := buffers_, buffersToWrite;
      if nextBuffer_.Null? {
        nextBuffer_ := newBuffer2;
        newBuffer2 := Null;
      }
    }

    method DropMost(notice: seq<char>)
      modifies this
      ensures View(Writing(0)) == Next(old(View(Swapped)), Drop(notice))
    {
      if |buffersToWrite| > MOST_BUFFERS {
        output := output + notice;
        dropped, drops := dropped + LinesOf(buffersToWrite[2..]), drops + 1;
        buffersToWrite := buffersToWrite[..2];
      }
    }

    method WriteBuffers()
      requires AllWhole(buffersToWrite)
      modifies this`output, this`written
      ensures Enabling(old(View(Writing(0))), Writes(|buffersToWrite|))
      ensures View(Writing(|buffersToWrite|)) == Run(old(View(Writing(0))), Writes(|buffersToWrite|))
    {
      ghost var n := |buffersToWrite|;
      WritesEnabled(View(Writing(0)), n);
      var i := 0;
      while i < |buffersToWrite|
        invariant i <= n && Enabling(View(Writing(i)), Writes(n - i))
        invariant Run(View(Writing(i)), Writes(n - i)) == Run(old(View(Writing(0))), Writes(n))
      {
        FirstWrite(View(Writing(i)), n - i);
        var buffer := buffersToWrite[i].buffer;
        output := output + buffer.data;
        written := written + buffer.lines;
        i := i + 1;
      }
    }

    method KeepTwo()
      modifies this`buffersToWrite
      ensures View(Resized) == Next(old(View(Writing(|buffersToWrite|))), Resize)
    {
      if |buffersToWrite| > 2 {
        buffersToWrite := buffersToWrite[..2];
      }
    }

    method RefillBuffer1()
      requires Enabled(View(Resized), Refill1) && AllWhole(buffersToWrite)
      modifies this`newBuffer1, this`buffersToWrite
      ensures View(FirstRefilled) == Next(old(View(Resized)), Refill1)
    {
      if newBuffer1.Null? {
        newBuffer1 := Last(buffersToWrite);
        buffersToWrite := buffersToWrite[..|buffersToWrite| - 1];
        newBuffer1 := Ptr(newBuffer1.buffer.(data := [], lines := []));
      }
    }

    method RefillBuffer2()
      requires Enabled(View(FirstRefilled), Refill2) && AllWhole(buffersToWrite)
      modifies this`newBuffer2, this`buffersToWrite
      ensures View(SecondRefilled) == Next(old(View(FirstRefilled)), Refill2)
    {
      if newBuffer2.Null? {
        newBuffer2 := Last(buffersToWrite);
        buffersToWrite := buffersToWrite[..|buffersToWrite| - 1];
        newBuffer2 := Ptr(newBuffer2.buffer.(data := [], lines := []));
      }
    }

    method ClearWritten()
      modifies this`buffersToWrite
      ensures View(Head) == Next(old(View(SecondRefilled)), Clear)
    {
      buffersToWrite := [];
    }
  }
}
