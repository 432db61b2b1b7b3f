/** The packet format and the checks made before a message is handled: logic/flyd_logic.cc. */
module Logic {
  import opened Words
  import opened Crc32
  import opened Framing

  // ---------- the wire format ----------

  datatype Packet = Packet(code: nat, body: seq<byte>) {
    predicate Sendable() { code < 0x1_0000 && PKG_HEADER_LENGTH + |body| < 0x1_0000 }
  }

  /** htons */
  function ShortBytes(n: nat): seq<byte>
    requires n < 0x1_0000
  {
    [(n / 256) as byte, (n % 256) as byte]
  }

  /** The bytes of a list of bits, most significant byte first. */
  function BytesOf(bits: seq<bool>): (bytes: seq<byte>)
    requires |bits| % 8 == 0
    ensures 8 * |bytes| == |bits|
    decreases |bits|
  {
    if bits == [] then [] else BytesOf(bits[8..]) + [ByteOf(bits[..8])]
  }

  function BitsOf(bytes: seq<byte>): (bits: seq<bool>)
    ensures |bits| == 8 * |bytes|
  {
    if bytes == [] then [] else BitsOf(bytes[1..]) + ByteBits(bytes[0])
  }

  /** htonl */
  function LongBytes(w: uint32): (bytes: seq<byte>)
    ensures |bytes| == 4
  {
    BytesOf(w)
  }

  /** ntohl */
  function NetworkLong(a: byte, b: byte, c: byte, d: byte): uint32 { BitsOf([a, b, c, d]) }

  function CrcField(body: seq<byte>): uint32 { if body == [] then ZERO else Crc(body) }

  function Header(p: Packet): (h: seq<byte>)
    requires p.Sendable()
    ensures |h| == PKG_HEADER_LENGTH
  {
    ShortBytes(PKG_HEADER_LENGTH + |p.body|) + ShortBytes(p.code) + LongBytes(CrcField(p.body))
  }

  function Encode(p: Packet): seq<byte>
    requires p.Sendable()
  {
    Header(p) + p.body
  }

  lemma ShortRoundTrip(n: nat)
    requires n < 0x1_0000
    ensures NetworkShort(ShortBytes(n)[0], ShortBytes(n)[1]) == n
  {}

  lemma ShortBytesOf(high: byte, low: byte)
    ensures ShortBytes(NetworkShort(high, low)) == [high, low]
  {}

  lemma {:induction false} BitsOfAppend(bytes: seq<byte>, b: byte)
    ensures BitsOf(bytes + [b]) == ByteBits(b) + BitsOf(bytes)
  {
    if bytes == [] {
      assert bytes + [b] == [b] && [b][1..] == [];
    } else {
      BitsOfAppend(bytes[1..], b);
      assert (bytes + [b])[1..] == bytes[1..] + [b];
      Associate(ByteBits(b), BitsOf(bytes[1..]), ByteBits(bytes[0]));
    }
  }

  lemma Associate<T>(a: seq<T>, b: seq<T>, c: seq<T>)
    ensures a + b + c == a + (b + c)
  {}

  lemma {:induction false} BitsOfBytes(bits: seq<bool>)
    requires |bits| % 8 == 0
    ensures BitsOf(BytesOf(bits)) == bits
    decreases |bits|
  {
    if bits != [] {
      BitsOfBytes(bits[8..]);
      BitsOfAppend(BytesOf(bits[8..]), ByteOf(bits[..8]));
      ByteOfBits(bits[..8]);
      assert bits == bits[..8] + bits[8..];
    }
  }

  lemma BytesOfAppend(bits: seq<bool>, low: seq<bool>)
    requires |bits| % 8 == 0 && |low| == 8
    ensures BytesOf(low + bits) == BytesOf(bits) + [ByteOf(low)]
  {
    assert (low + bits)[8..] == bits && (low + bits)[..8] == low;
  }

  lemma {:induction false} BytesOfBits(bytes: seq<byte>)
    ensures BytesOf(BitsOf(bytes)) == bytes
    decreases |bytes|
  {
    if bytes != [] {
      var front, last := bytes[..|bytes| - 1], bytes[|bytes| - 1];
      assert bytes == front + [last];
      BitsOfAppend(front, last);
      BytesOfAppend(BitsOf(front), ByteBits(last));
      BitsOfByte(last);
      BytesOfBits(front);
    }
  }

  lemma LongRoundTrip(w: uint32)
    ensures var l := LongBytes(w); NetworkLong(l[0], l[1], l[2], l[3]) == w
  {
    var l := LongBytes(w);
    assert l == [l[0], l[1], l[2], l[3]];
    BitsOfBytes(w);
  }

  lemma LongBytesOf(a: byte, b: byte, c: byte, d: byte)
    ensures LongBytes(NetworkLong(a, b, c, d)) == [a, b, c, d]
  {
    BytesOfBits([a, b, c, d]);
  }

  // ---------- what happens to a queued packet ----------

  datatype Command = Ping | Register | LogIn

  datatype Verdict = BadCrc | Stale | UnknownCode | NoHandler | Dispatch(command: Command, body: seq<byte>)

  /** A packet as framing delivers it: as long as its header says. */
  predicate Framed(packet: seq<byte>) {
    |packet| >= PKG_HEADER_LENGTH && |packet| == NetworkShort(packet[0], packet[1])
  }

  /** The packet that these bytes would have to be. */
  function Claimed(packet: seq<byte>): (p: Packet)
    requires Framed(packet)
    ensures p.Sendable()
  {
    Packet(NetworkShort(packet[2], packet[3]), packet[PKG_HEADER_LENGTH..])
  }

  /** The CRC field is right for the body; a packet without a body carries zero. */
  predicate CrcMatches(packet: seq<byte>)
    requires Framed(packet)
  {
    NetworkLong(packet[4], packet[5], packet[6], packet[7]) == CrcField(packet[PKG_HEADER_LENGTH..])
  }

  function Examine(packet: seq<byte>, current: bool): Verdict
    requires Framed(packet)
  {
    if !CrcMatches(packet) then BadCrc else Route(Claimed(packet), current)
  }

  function Route(p: Packet, current: bool): Verdict {
    if !current then Stale
    else if p.code == 0 then Dispatch(Ping, p.body)
    else if p.code == 5 then Dispatch(Register, p.body)
    else if p.code == 6 then Dispatch(LogIn, p.body)
    else if p.code <= 4 then NoHandler
    else UnknownCode
  }

  lemma SameAround<T>(front: seq<T>, m: seq<T>, n: seq<T>, back: seq<T>)
    requires |m| == |n|
    ensures front + m + back == front + n + back <==> m == n
  {
    assert (front + m + back)[|front|..|front| + |m|] == m;
    assert (front + n + back)[|front|..|front| + |n|] == n;
  }

  lemma LongBytesInjective(v: uint32, w: uint32)
    ensures LongBytes(v) == LongBytes(w) <==> v == w
  {
    LongRoundTrip(v);
    LongRoundTrip(w);
  }

  lemma PacketParts(packet: seq<byte>)
    requires Framed(packet)
    ensures packet == ShortBytes(|packet|) + ShortBytes(NetworkShort(packet[2], packet[3]))
                      + LongBytes(NetworkLong(packet[4], packet[5], packet[6], packet[7])) + packet[PKG_HEADER_LENGTH..]
  {
    ShortBytesOf(packet[0], packet[1]);
    ShortBytesOf(packet[2], packet[3]);
    LongBytesOf(packet[4], packet[5], packet[6], packet[7]);
  }

  lemma DifferOnlyInField(packet: seq<byte>, e: seq<byte>, front: seq<byte>, field: uint32, crc: uint32, body: seq<byte>)
    requires packet == front + LongBytes(field) + body && e == front + LongBytes(crc) + body
    ensures packet == e <==> field == crc
  {
    LongBytesInjective(field, crc);
    SameAround(front, LongBytes(field), LongBytes(crc), body);
  }

  /** A packet passes if and only if it is, byte for byte, the encoding of the code and body that it holds. */
  lemma IntactMeansCrc(packet: seq<byte>)
    requires Framed(packet)
    ensures packet == Encode(Claimed(packet)) <==> CrcMatches(packet)
  {
    var p := Claimed(packet);
    var field := NetworkLong(packet[4], packet[5], packet[6], packet[7]);
    PacketParts(packet);
    DifferOnlyInField(packet, Encode(p), ShortBytes(|packet|) + ShortBytes(p.code), field, CrcField(p.body), p.body);
  }

  lemma {:induction false} BitsOfZeros(bytes: seq<byte>)
    requires forall i :: 0 <= i < |bytes| ==> bytes[i] == 0
    ensures forall i :: 0 <= i < |BitsOf(bytes)| ==> !BitsOf(bytes)[i]
  {
    if bytes != [] {
      BitsOfZeros(bytes[1..]);
      ZeroBits(8);
    }
  }

  lemma ZeroField(a: byte, b: byte, c: byte, d: byte)
    ensures NetworkLong(a, b, c, d) == ZERO <==> a == b == c == d == 0
  {
    LongBytesOf(a, b, c, d);
    LongBytesOf(0, 0, 0, 0);
    BitsOfZeros([0, 0, 0, 0]);
    assert NetworkLong(0, 0, 0, 0) == ZERO;
  }

  lemma Assembled<T>(s: seq<T>, front: seq<T>, middle: seq<T>, back: seq<T>)
    requires |s| == |front| + |middle| + |back|
    requires s[..|front|] == front && s[|front|..|front| + |middle|] == middle && s[|front| + |middle|..] == back
    ensures s == front + middle + back
  {}

  lemma EncodeFields(p: Packet, crc32: uint32)
    requires p.Sendable() && crc32 == CrcField(p.body)
    ensures Encode(p) == ShortBytes(PKG_HEADER_LENGTH + |p.body|) + ShortBytes(p.code) + LongBytes(crc32) + p.body
  {}

  class LogicSocket {
    const receiver: Receiver
    const crc: CCRC32

    constructor (receiver: Receiver)
      ensures this.receiver == receiver && fresh(crc) && crc.Valid() && fresh(crc.crc32_table)
    {
      this.receiver := receiver;
      crc := new CCRC32();
    }

    /** The worker's job: take the oldest message, check it, and find its handler. */
    method ThreadRecvProcFunc() returns (verdict: Verdict)
      requires crc.Valid()
      requires receiver.m_MsgRecvQueue != [] && Framed(receiver.m_MsgRecvQueue[0].packet)
      modifies receiver
      ensures receiver.m_MsgRecvQueue == old(receiver.m_MsgRecvQueue)[1..]
      ensures var m := old(receiver.m_MsgRecvQueue)[0];
              verdict == Examine(m.packet, m.conn.iCurrsequence == m.sequence)
    {
      var m := receiver.m_MsgRecvQueue[0];
      receiver.m_MsgRecvQueue := receiver.m_MsgRecvQueue[1..];
      var packet := m.packet;
      var intact := CheckCrc(packet);
      if !intact {
        return BadCrc;
      }
      verdict := HandleMessage(m.conn, m.sequence, NetworkShort(packet[2], packet[3]), packet[PKG_HEADER_LENGTH..]);
    }

    /** The first half of threadRecvProcFunc. */
    method CheckCrc(packet: seq<byte>) returns (intact: bool)
      requires crc.Valid() && Framed(packet)
      ensures intact == CrcMatches(packet)
    {
      var pkglen := NetworkShort(packet[0], packet[1]);
      if PKG_HEADER_LENGTH == pkglen {
        ZeroField(packet[4], packet[5], packet[6], packet[7]);
        intact := packet[4] == packet[5] == packet[6] == packet[7] == 0;
      } else {
        var calccrc := crc.Get_CRC(packet[PKG_HEADER_LENGTH..]);
        intact := calccrc == NetworkLong(packet[4], packet[5], packet[6], packet[7]);
      }
    }

    /** The second half of threadRecvProcFunc, for a message whose CRC is right. */
    method HandleMessage(conn: Connection, sequence: nat, imsgCode: nat, body: seq<byte>) returns (verdict: Verdict)
      ensures verdict == Route(Packet(imsgCode, body), conn.iCurrsequence == sequence)
    {
      if conn.iCurrsequence != sequence {
        return Stale;
      }
      if imsgCode >= 7 {
        return UnknownCode;
      }
      if imsgCode in {1, 2, 3, 4} {
        return NoHandler;
      }
      return Dispatch(if imsgCode == 0 then Ping else if imsgCode == 5 then Register else LogIn, body);
    }

    /** Write a 16-bit field in network order. */
    method PutShort(buf: array<byte>, at: nat, n: nat)
      requires at + 2 <= buf.Length && n < 0x1_0000
      modifies buf
      ensures buf[at..at + 2] == ShortBytes(n)
      ensures forall k :: 0 <= k < at || at + 2 <= k < buf.Length ==> buf[k] == old(buf[k])
    {
      buf[at], buf[at + 1] := (n / 256) as byte, (n % 256) as byte;
    }

    /** Write a 32-bit field in network order. */
    method PutLong(buf: array<byte>, at: nat, w: uint32)
      requires at + 4 <= buf.Length
      modifies buf
      ensures buf[at..at + 4] == LongBytes(w)
      ensures forall k :: 0 <= k < at || at + 4 <= k < buf.Length ==> buf[k] == old(buf[k])
    {
      var b := LongBytes(w);
      buf[at], buf[at + 1], buf[at + 2], buf[at + 3] := b[0], b[1], b[2], b[3];
    }

    /** The message code, and then the length of the whole packet. */
    method PutCodeAndLength(buf: array<byte>, code: nat)
      requires PKG_HEADER_LENGTH <= buf.Length < 0x1_0000 && code < 0x1_0000
      modifies buf
      ensures buf[..4] == ShortBytes(buf.Length) + ShortBytes(code)
      ensures forall k :: 4 <= k < buf.Length ==> buf[k] == old(buf[k])
    {
      PutShort(buf, 2, code);
      PutShort(buf, 0, buf.Length);
    }

    /** The CRC field, behind which the body stands. */
    method PutCrc(buf: array<byte>, ghost front: seq<byte>, ghost body: seq<byte>, crc32: uint32)
      requires |front| == 4 && buf.Length == PKG_HEADER_LENGTH + |body|
      requires buf[..4] == front && buf[PKG_HEADER_LENGTH..] == body
      modifies buf
      ensures buf[..] == front + LongBytes(crc32) + body
    {
      PutLong(buf, 4, crc32);
      Assembled(buf[..], front, LongBytes(crc32), body);
    }

    /** _HandleRegister's answer: a body, and a header filled in field by field. */
    method BuildReply(code: nat, body: seq<byte>) returns (sendbuf: array<byte>)
      requires crc.Valid()
      requires body != [] && Packet(code, body).Sendable()
      ensures fresh(sendbuf) && sendbuf[..] == Encode(Packet(code, body))
    {
      sendbuf := new byte[PKG_HEADER_LENGTH + |body|](_ => 0);
      forall i | 0 <= i < |body| { sendbuf[PKG_HEADER_LENGTH + i] := body[i]; }
      assert sendbuf[PKG_HEADER_LENGTH..] == body;
      PutCodeAndLength(sendbuf, code);
      var crc32 := crc.Get_CRC(body);
      PutCrc(sendbuf, ShortBytes(sendbuf.Length) + ShortBytes(code), body, crc32);
      EncodeFields(Packet(code, body), crc32);
    }

    /** SendNoBodyPkgToClient: a header alone, its CRC field zero. */
    method BuildNoBodyReply(code: nat) returns (sendbuf: array<byte>)
      requires code < 0x1_0000
      ensures fresh(sendbuf) && sendbuf[..] == Encode(Packet(code, []))
    {
      sendbuf := new byte[PKG_HEADER_LENGTH](_ => 0);
      PutCodeAndLength(sendbuf, code);
      PutCrc(sendbuf, ShortBytes(sendbuf.Length) + ShortBytes(code), [], ZERO);
      EncodeFields(Packet(code, []), ZERO);
    }
  }

  // ---------- round trip ----------

  function EncodeAll(ps: seq<Packet>): seq<byte>
    requires forall p :: p in ps ==> p.Sendable()
  {
    if ps == [] then [] else Encode(ps[0]) + EncodeAll(ps[1..])
  }

  function Each<A, B>(f: A --> B, s: seq<A>): (r: seq<B>)
    requires forall i :: 0 <= i < |s| ==> f.requires(s[i])
    ensures |r| == |s|
  {
    seq(|s|, i requires 0 <= i < |s| => f(s[i]))
  }

  lemma EachFirst<A, B>(f: A --> B, s: seq<A>)
    requires s != [] && forall i :: 0 <= i < |s| ==> f.requires(s[i])
    ensures Each(f, s) == [f(s[0])] + Each(f, s[1..])
  {
    assert forall i :: 0 <= i < |s[1..]| ==> s[1..][i] == s[i + 1];
  }

  function EncodeEach(ps: seq<Packet>): (es: seq<seq<byte>>)
    requires forall p :: p in ps ==> p.Sendable()
    ensures |es| == |ps|
  {
    Each(Encode, ps)
  }

  lemma EncodedHeader(p: Packet)
    requires p.Sendable()
    ensures var e := Encode(p);
            |e| == PKG_HEADER_LENGTH + |p.body| && NetworkShort(e[0], e[1]) == |e| &&
            NetworkShort(e[2], e[3]) == p.code && e[PKG_HEADER_LENGTH..] == p.body
  {
    ShortRoundTrip(PKG_HEADER_LENGTH + |p.body|);
    ShortRoundTrip(p.code);
  }

  /** Any list of packets of legal length is rebuilt from its encoding, in order, with nothing left over. */
  /** Four bytes read as a number, the first the highest. */
  function BigEndian(a: byte, b: byte, c: byte, d: byte): int {
    0x1000000 * (a as int) + 0x10000 * (b as int) + 0x100 * (c as int) + d as int
  }

  lemma TwoParts(low: seq<bool>, high: seq<bool>)
    requires |low| == 8
    ensures Value(low + high) == Value(low) + 256 * Value(high)
  {
    PowerOfEight();
    ValueConcat(low, high);
  }

  lemma {:induction false} ValueConcat(low: seq<bool>, high: seq<bool>)
    ensures Value(low + high) == Value(low) + Pow2(|low|) * Value(high)
  {
    if low == [] {
      assert low + high == high;
    } else {
      assert (low + high)[1..] == low[1..] + high;
      ValueConcat(low[1..], high);
      TwiceSum(Value(low[1..]), Pow2(|low| - 1), Value(high));
    }
  }

  lemma TwiceSum(x: int, p: int, y: int)
    ensures 2 * (x + p * y) == 2 * x + (2 * p) * y
  {}

  lemma NetworkBytes(a: byte, b: byte, c: byte, d: byte)
    ensures NetworkLong(a, b, c, d) == ByteBits(d) + (ByteBits(c) + (ByteBits(b) + ByteBits(a)))
  {
    assert [a, b, c, d] == [a, b, c] + [d] && [a, b, c] == [a, b] + [c] && [a, b] == [a] + [b] && [a] == [] + [a];
    BitsOfAppend([a, b, c], d);
    BitsOfAppend([a, b], c);
    BitsOfAppend([a], b);
    BitsOfAppend([], a);
    assert ByteBits(a) + BitsOf([]) == ByteBits(a);
  }

  lemma ByteValue(b: byte)
    ensures Value(ByteBits(b)) == b as nat
  {
    PowerOfEight();
    ValueBits(b as nat, 8);
  }

  /** ntohl reads the first byte as the highest. */
  lemma NetworkOrder(a: byte, b: byte, c: byte, d: byte)
    ensures Value(NetworkLong(a, b, c, d)) == BigEndian(a, b, c, d)
  {
    NetworkBytes(a, b, c, d);
    ByteValue(a);
    ByteValue(b);
    ByteValue(c);
    ByteValue(d);
    TwoParts(ByteBits(d), ByteBits(c) + (ByteBits(b) + ByteBits(a)));
    TwoParts(ByteBits(c), ByteBits(b) + ByteBits(a));
    TwoParts(ByteBits(b), ByteBits(a));
  }

  lemma EncodedField(p: Packet)
    requires p.Sendable()
    ensures |Encode(p)| >= 8 && NetworkLong(Encode(p)[4], Encode(p)[5], Encode(p)[6], Encode(p)[7]) == CrcField(p.body)
  {
    LongRoundTrip(CrcField(p.body));
    var e, l := Encode(p), LongBytes(CrcField(p.body));
    assert e[4] == l[0] && e[5] == l[1] && e[6] == l[2] && e[7] == l[3];
  }

  /** The wire format, byte by byte: the whole length, the code and the CRC of the body, high bytes first, and the body. */
  lemma WireFormat(p: Packet)
    requires p.Sendable()
    ensures var e := Encode(p);
            && |e| == 8 + |p.body| && e[8..] == p.body
            && 256 * (e[0] as int) + e[1] as int == |e|
            && 256 * (e[2] as int) + e[3] as int == p.code
            && BigEndian(e[4], e[5], e[6], e[7]) == if p.body == [] then 0 else Value(Crc(p.body))
  {
    EncodedHeader(p);
    EncodedField(p);
    var e := Encode(p);
    NetworkOrder(e[4], e[5], e[6], e[7]);
    ZeroValue();
  }

  lemma ZeroValue()
    ensures Value(ZERO) == 0
  {
    ValueOfLow(ZERO, 0);
    assert ZERO[..0] == [];
  }

  lemma {:induction false} FramingRoundTrip(ps: seq<Packet>)
    requires forall p :: p in ps ==> p.Sendable() && LegalLength(PKG_HEADER_LENGTH + |p.body|)
    ensures Parse(EncodeAll(ps)) == Parsed(EncodeEach(ps), [])
  {
    if ps != [] {
      var first, later := Encode(ps[0]), EncodeAll(ps[1..]);
      EncodedHeader(ps[0]);
      var all := EncodeAll(ps);
      assert all[0] == first[0] && all[1] == first[1] && all[..|first|] == first && all[|first|..] == later;
      ParsePacket(all, |first|);
      FramingRoundTrip(ps[1..]);
      EachFirst(Encode, ps);
    }
  }

  /** One packet alone gets through exactly when its body has at most 28992 bytes. */
  lemma DeliveredIffLegal(p: Packet)
    requires p.Sendable()
    ensures Parse(Encode(p)).packets == [Encode(p)] <==> |p.body| <= 28992
  {
    if LegalLength(PKG_HEADER_LENGTH + |p.body|) {
      FramingRoundTrip([p]);
      assert [p][1..] == [];
      assert EncodeAll([p]) == Encode(p) + [] == Encode(p);
      assert EncodeEach([p]) == [Encode(p)];
    } else {
      var e := Encode(p);
      ParsedPackets(e);
      EncodedHeader(p);
      assert Parse(e).packets == [e] ==> e in Parse(e).packets;
    }
  }

  /** The register reply is longer than this very framing lets through. */
  lemma RegisterReplyTooLong(body: seq<byte>)
    requires |body| == 65000
    ensures Packet(5, body).Sendable() && Parse(Encode(Packet(5, body))).packets != [Encode(Packet(5, body))]
  {
    DeliveredIffLegal(Packet(5, body));
  }

  /** Whatever was encoded passes the CRC check and is handled with its own code and body. */
  lemma EncodedIsDispatched(p: Packet, current: bool)
    requires p.Sendable()
    ensures Framed(Encode(p)) && Claimed(Encode(p)) == p
    ensures Examine(Encode(p), current) == Route(p, current)
  {
    EncodedHeader(p);
    IntactMeansCrc(Encode(p));
  }

  lemma DispatchedPassed(packet: seq<byte>, current: bool)
    requires Framed(packet) && Examine(packet, current).Dispatch?
    ensures current && CrcMatches(packet) && Examine(packet, current).body == Claimed(packet).body
    ensures Claimed(packet).code in {0, 5, 6}
  {}

  /** The codes: ping, register and login have a handler, four more are reserved, and a stale packet has none. */
  lemma CodesOfHandlers(p: Packet)
    requires p.Sendable()
    ensures Framed(Encode(p)) && Examine(Encode(p), false) == Stale
    ensures p.code == 0 ==> Examine(Encode(p), true) == Dispatch(Ping, p.body)
    ensures p.code == 5 ==> Examine(Encode(p), true) == Dispatch(Register, p.body)
    ensures p.code == 6 ==> Examine(Encode(p), true) == Dispatch(LogIn, p.body)
    ensures p.code in {1, 2, 3, 4} ==> Examine(Encode(p), true) == NoHandler
    ensures p.code >= 7 ==> Examine(Encode(p), true) == UnknownCode
  {
    EncodedIsDispatched(p, true);
    EncodedIsDispatched(p, false);
  }

  /** ... and nothing else is: a handled message is the encoding of its code and body. */
  lemma DispatchedWasEncoded(packet: seq<byte>, current: bool)
    requires Framed(packet) && Examine(packet, current).Dispatch?
    ensures current && packet == Encode(Claimed(packet)) && Examine(packet, current).body == Claimed(packet).body
    ensures Claimed(packet).code in {0, 5, 6}
  {
    DispatchedPassed(packet, current);
    IntactMeansCrc(packet);
  }

  /** From one end to the other: of the packets sent back to back, the i-th that framing delivers is examined as the i-th
      that was sent, with its code and body. */
  lemma SentIsExamined(ps: seq<Packet>, i: nat, current: bool)
    requires (forall p :: p in ps ==> p.Sendable() && LegalLength(PKG_HEADER_LENGTH + |p.body|)) && i < |ps|
    ensures |Parse(EncodeAll(ps)).packets| == |ps|
    ensures Framed(Parse(EncodeAll(ps)).packets[i])
    ensures Examine(Parse(EncodeAll(ps)).packets[i], current) == Route(ps[i], current)
  {
    FramingRoundTrip(ps);
    assert EncodeEach(ps)[i] == Encode(ps[i]);
    EncodedIsDispatched(ps[i], current);
  }

  /** The receive side from one end to the other: whatever the kernel's short reads, packets sent back to back are queued as
      they were encoded, in order, with the connection's stamp, and nothing is left over. */
  method ReceivePackets(receiver: Receiver, c: Connection, ghost ps: seq<Packet>, input: seq<byte>, cut: nat -> nat)
    requires forall p :: p in ps ==> p.Sendable() && LegalLength(PKG_HEADER_LENGTH + |p.body|)
    requires input == EncodeAll(ps)
    requires c.Valid() && c.stream == [] && c.queued == [] && c.pnewMemPointer == null
    modifies receiver, c, c.recvArray, c.dataHeadInfo
    ensures receiver.m_MsgRecvQueue == old(receiver.m_MsgRecvQueue) + Stamped(c, c.iCurrsequence, EncodeEach(ps))
    ensures c.Pending() == [] && c.iCurrsequence == old(c.iCurrsequence)
  {
    FramingRoundTrip(ps);
    receiver.ReceiveAll(c, input, cut);
  }

  /** A body damaged in transit by one burst of at most 32 bits is always dropped. */
  lemma DamagedBodyDropped(p: Packet, received: seq<byte>, k: nat, current: bool)
    requires p.Sendable() && |received| == |p.body| && received != p.body
    requires BurstAt(MessageBits(p.body), MessageBits(received), k)
    ensures Framed(Header(p) + received)
    ensures Examine(Header(p) + received, current) == BadCrc
  {
    var packet := Header(p) + received;
    EncodedHeader(p);
    assert forall i :: 0 <= i < PKG_HEADER_LENGTH ==> packet[i] == Encode(p)[i];
    assert packet[PKG_HEADER_LENGTH..] == received;
    IntactMeansCrc(Encode(p));
    BurstDetected(p.body, received, k);
  }
}
