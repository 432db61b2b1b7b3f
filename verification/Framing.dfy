/** Rebuilding length-prefixed packets from short reads: the receive half of net/flyd_socket_request.cc. */
module Framing {
  import opened Words

  const PKG_HEADER_LENGTH: nat := 8
  const PKG_MAX_LENGTH: nat := 30000
  const DATA_BUFSIZE: nat := 20

  function NetworkShort(high: byte, low: byte): (n: nat)
    ensures n < 0x1_0000
  {
    256 * (high as nat) + low as nat
  }

  predicate LegalLength(n: nat) { PKG_HEADER_LENGTH <= n <= PKG_MAX_LENGTH - 1000 }

  /** What a byte stream means: its complete packets, and the bytes of the unfinished one. */
  datatype Parsed = Parsed(packets: seq<seq<byte>>, rest: seq<byte>)

  /** A one-shot parser: a header with an illegal length is skipped, and nothing else is. */
  function Parse(stream: seq<byte>): Parsed
    decreases |stream|
  {
    if |stream| < PKG_HEADER_LENGTH then
      Parsed([], stream)
    else
      var length := NetworkShort(stream[0], stream[1]);
      if !LegalLength(length) then
        Parse(stream[PKG_HEADER_LENGTH..])
      else if |stream| < length then
        Parsed([], stream)
      else
        var tail := Parse(stream[length..]);
        Parsed([stream[..length]] + tail.packets, tail.rest)
  }

  /** Parsing may stop anywhere and go on from what was left over. */
  lemma {:induction false} ParseAppend(s: seq<byte>, t: seq<byte>)
    ensures Parse(s + t) == Then(Parse(s).packets, Parse(s).rest + t)
    decreases |s|
  {
    if |s| < PKG_HEADER_LENGTH {
      ThenNothing(s + t);
    } else {
      var length := NetworkShort(s[0], s[1]);
      if !LegalLength(length) {
        ParseAppend(s[PKG_HEADER_LENGTH..], t);
        assert (s + t)[PKG_HEADER_LENGTH..] == s[PKG_HEADER_LENGTH..] + t;
      } else if |s| < length {
        ThenNothing(s + t);
      } else {
        ParseAppend(s[length..], t);
        ParsePacket(s, length);
        ParsePacket(s + t, length);
        assert (s + t)[length..] == s[length..] + t && (s + t)[..length] == s[..length];
        ThenAfter(s[..length], Parse(s[length..]), t);
      }
    }
  }

  lemma ThenNothing(whole: seq<byte>)
    ensures Then([], whole) == Parse(whole)
  {}

  lemma ThenAfter(packet: seq<byte>, tail: Parsed, t: seq<byte>)
    ensures Then([packet] + tail.packets, tail.rest + t)
         == Parsed([packet] + Then(tail.packets, tail.rest + t).packets, Then(tail.packets, tail.rest + t).rest)
  {}

  lemma ParsePacket(s: seq<byte>, length: nat)
    requires |s| >= PKG_HEADER_LENGTH && length == NetworkShort(s[0], s[1]) && LegalLength(length) && length <= |s|
    ensures Parse(s) == Parsed([s[..length]] + Parse(s[length..]).packets, Parse(s[length..]).rest)
  {}

  /** The packets so far, and then the meaning of `whole`. */
  function Then(packets: seq<seq<byte>>, whole: seq<byte>): Parsed {
    Parsed(packets + Parse(whole).packets, Parse(whole).rest)
  }

  lemma ThenShort(packets: seq<seq<byte>>, whole: seq<byte>)
    requires |whole| < PKG_HEADER_LENGTH
          || (LegalLength(NetworkShort(whole[0], whole[1])) && |whole| < NetworkShort(whole[0], whole[1]))
    ensures Then(packets, whole) == Parsed(packets, whole)
  {
    assert Parse(whole) == Parsed([], whole);
  }

  lemma ThenIllegal(packets: seq<seq<byte>>, whole: seq<byte>)
    requires |whole| == PKG_HEADER_LENGTH && !LegalLength(NetworkShort(whole[0], whole[1]))
    ensures Then(packets, whole) == Parsed(packets, [])
  {
    assert Parse(whole) == Parsed([], []);
  }

  lemma ThenWhole(packets: seq<seq<byte>>, whole: seq<byte>)
    requires |whole| >= PKG_HEADER_LENGTH && |whole| == NetworkShort(whole[0], whole[1]) && LegalLength(|whole|)
    ensures Then(packets, whole) == Parsed(packets + [whole], [])
  {
    assert whole[|whole|..] == [] && whole[..|whole|] == whole;
    assert Parse(whole) == Parsed([whole], []);
  }

  /** What the first two bytes say: 256 times the first and the second. */
  function Announced(p: seq<byte>): int
    requires |p| >= 2
  {
    256 * (p[0] as int) + p[1] as int
  }

  /** Every packet that comes out has between 8 and 29000 bytes, as its header says. */
  lemma {:induction false} ParsedPackets(stream: seq<byte>)
    ensures forall p :: p in Parse(stream).packets ==> 8 <= |p| <= 29000 && |p| == Announced(p)
    decreases |stream|
  {
    if |stream| >= PKG_HEADER_LENGTH {
      var length := NetworkShort(stream[0], stream[1]);
      if !LegalLength(length) {
        ParsedPackets(stream[PKG_HEADER_LENGTH..]);
      } else if length <= |stream| {
        ParsedPackets(stream[length..]);
      }
    }
  }

  /** A header that announces any other length is thrown away, and nothing else with it. */
  lemma HeaderAlone(header: seq<byte>)
    requires |header| == 8
    ensures Parse(header) == Parsed([], []) <==> Announced(header) < 8 || Announced(header) > 29000
    ensures Parse(header) == Parsed([header], []) <==> Announced(header) == 8
    ensures Parse(header) == Parsed([], header) <==> 8 < Announced(header) <= 29000
  {
    assert header[8..] == [] && header[..8] == header;
    assert Parse([]) == Parsed([], []);
  }

  // ---------- the receive machine ----------

  datatype RecvState = HdInit | HdRecving | BdInit | BdRecving

  /** A queued packet with the stamp of the message header put in front of it. */
  datatype Message = Message(conn: Connection, sequence: nat, packet: seq<byte>)

  /** The receive side of a connection. `precvbuf` is the array it points into and an offset. */
  class Connection {
    var iCurrsequence: nat
    var curStat: RecvState
    const dataHeadInfo: array<byte>
    var recvArray: array<byte>
    var recvOffset: nat
    var irecvlen: nat
    var pnewMemPointer: array?<byte>
    var newMemSequence: nat

    /** Every byte read so far, and the packets handed over so far. */
    ghost var stream: seq<byte>
    ghost var queued: seq<seq<byte>>

    /** The bytes of the packet being received. */
    ghost function Pending(): seq<byte>
      reads this, recvArray
    {
      if recvOffset <= recvArray.Length then recvArray[..recvOffset] else []
    }

    /** Where reading goes on, in every state: behind what was received, up to the end of the header or packet. */
    ghost predicate Aimed()
      reads this, dataHeadInfo, recvArray, pnewMemPointer
    {
      && dataHeadInfo.Length == DATA_BUFSIZE
      && irecvlen > 0
      && (curStat.HdInit? || curStat.HdRecving? ==>
            && recvArray == dataHeadInfo && pnewMemPointer == null
            && recvOffset + irecvlen == PKG_HEADER_LENGTH
            && (curStat.HdInit? <==> recvOffset == 0))
      && (curStat.BdInit? || curStat.BdRecving? ==>
            && recvArray == pnewMemPointer && recvArray != dataHeadInfo
            && recvOffset + irecvlen == recvArray.Length
            && recvOffset >= PKG_HEADER_LENGTH
            && (curStat.BdInit? <==> recvOffset == PKG_HEADER_LENGTH)
            && recvArray.Length == NetworkShort(recvArray[0], recvArray[1])
            && LegalLength(recvArray.Length)
            && newMemSequence == iCurrsequence)
    }

    ghost predicate Valid()
      reads this, dataHeadInfo, recvArray, pnewMemPointer
    {
      && Aimed()
      && Parse(stream) == Parsed(queued, Pending())
    }

    constructor (sequence: nat)
      ensures Valid() && stream == [] && queued == [] && iCurrsequence == sequence
      ensures fresh(dataHeadInfo) && recvArray == dataHeadInfo
    {
      iCurrsequence := sequence;
      curStat := HdInit;
      dataHeadInfo := new byte[DATA_BUFSIZE](_ => 0);
      recvArray := dataHeadInfo;
      recvOffset := 0;
      irecvlen := PKG_HEADER_LENGTH;
      pnewMemPointer := null;
      newMemSequence := 0;
      stream := [];
      queued := [];
    }
  }

  function Stamped(c: Connection, sequence: nat, packets: seq<seq<byte>>): (messages: seq<Message>)
    ensures |messages| == |packets|
  {
    seq(|packets|, i requires 0 <= i < |packets| => Message(c, sequence, packets[i]))
  }

  class Receiver {
    var m_MsgRecvQueue: seq<Message>

    constructor ()
      ensures m_MsgRecvQueue == []
    {
      m_MsgRecvQueue := [];
    }

    /** recvproc: the kernel puts `incoming` where precvbuf points. */
    method RecvProc(c: Connection, incoming: seq<byte>) returns (reco: nat)
      requires c.Valid() && 0 < |incoming| <= c.irecvlen
      modifies c`stream, c.recvArray
      ensures reco == |incoming| && c.Aimed()
      ensures c.stream == old(c.stream) + incoming
      ensures c.recvArray[..c.recvOffset + reco] == old(c.Pending()) + incoming
      ensures Parse(c.stream) == Then(c.queued, old(c.Pending()) + incoming)
    {
      ParseAppend(c.stream, incoming);
      reco := |incoming|;
      forall i | 0 <= i < reco { c.recvArray[c.recvOffset + i] := incoming[i]; }
      c.stream := c.stream + incoming;
    }

    /** One readable event: flyd_wait_request_handler. */
    method WaitRequestHandler(c: Connection, incoming: seq<byte>)
      requires c.Valid() && 0 < |incoming| <= c.irecvlen
      modifies this, c, c.recvArray
      ensures c.Valid() && c.stream == old(c.stream) + incoming
      ensures c.iCurrsequence == old(c.iCurrsequence)
      ensures c.recvArray == old(c.recvArray) || c.recvArray == c.dataHeadInfo || fresh(c.recvArray)
      ensures Delivered(c, old(c.queued), old(m_MsgRecvQueue))
    {
      var reco := RecvProc(c, incoming);
      if c.curStat.HdInit? {
        if reco == PKG_HEADER_LENGTH {
          HeaderComplete(c);
        } else {
          MoveOn(c, reco, HdRecving);
        }
      } else if c.curStat.HdRecving? {
        if c.irecvlen == reco {
          HeaderComplete(c);
        } else {
          MoveOn(c, reco, HdRecving);
        }
      } else if c.curStat.BdInit? {
        if reco == c.irecvlen {
          assert c.recvArray[..c.recvOffset + reco] == c.pnewMemPointer[..];
          PacketComplete(c);
        } else {
          MoveOn(c, reco, BdRecving);
        }
      } else {
        if c.irecvlen == reco {
          assert c.recvArray[..c.recvOffset + reco] == c.pnewMemPointer[..];
          PacketComplete(c);
        } else {
          MoveOn(c, reco, BdRecving);
        }
      }
    }

    /** An incomplete header or packet: precvbuf moves forward, irecvlen shrinks. */
    method MoveOn(c: Connection, reco: nat, next: RecvState)
      requires c.Aimed() && 0 < reco < c.irecvlen
      requires next == if c.curStat.HdInit? || c.curStat.HdRecving? then HdRecving else BdRecving
      requires Parse(c.stream) == Then(c.queued, c.recvArray[..c.recvOffset + reco])
      modifies c`curStat, c`recvOffset, c`irecvlen
      ensures c.Valid()
    {
      ThenShort(c.queued, c.recvArray[..c.recvOffset + reco]);
      c.curStat := next;
      c.recvOffset := c.recvOffset + reco;
      c.irecvlen := c.irecvlen - reco;
    }

    /** The queue grew by exactly the packets handed over since `queued`, with the connection's stamp. */
    ghost predicate Delivered(c: Connection, queued: seq<seq<byte>>, queue: seq<Message>)
      reads this, c
    {
      && queued <= c.queued
      && m_MsgRecvQueue == queue + Stamped(c, c.iCurrsequence, c.queued[|queued|..])
    }

    /** flyd_wait_request_handler_proc_p1: a whole header stands in dataHeadInfo. */
    method HeaderComplete(c: Connection)
      requires c.dataHeadInfo.Length == DATA_BUFSIZE && c.pnewMemPointer == null
      requires Parse(c.stream) == Then(c.queued, c.dataHeadInfo[..PKG_HEADER_LENGTH])
      modifies this, c
      ensures var length := Announced(c.dataHeadInfo[..PKG_HEADER_LENGTH]);
              && (length < 8 || length > 29000 ==>
                    c.curStat.HdInit? && c.irecvlen == 8 && m_MsgRecvQueue == old(m_MsgRecvQueue))
              && (length == 8 ==>
                    && c.curStat.HdInit? && c.irecvlen == 8
                    && m_MsgRecvQueue == old(m_MsgRecvQueue)
                                         + [Message(c, c.iCurrsequence, c.dataHeadInfo[..PKG_HEADER_LENGTH])])
              && (8 < length <= 29000 ==>
                    c.curStat.BdInit? && c.irecvlen == length - 8 && m_MsgRecvQueue == old(m_MsgRecvQueue))
      ensures c.Valid() && c.stream == old(c.stream)
      ensures c.iCurrsequence == old(c.iCurrsequence)
      ensures c.recvArray == c.dataHeadInfo || fresh(c.recvArray)
      ensures Delivered(c, old(c.queued), old(m_MsgRecvQueue))
    {
      ghost var header := c.dataHeadInfo[..PKG_HEADER_LENGTH];
      var pkgLen := NetworkShort(c.dataHeadInfo[0], c.dataHeadInfo[1]);
      if pkgLen < PKG_HEADER_LENGTH {
        ThenIllegal(c.queued, header);
        StartOver(c);
      } else if pkgLen > PKG_MAX_LENGTH - 1000 {
        ThenIllegal(c.queued, header);
        StartOver(c);
      } else {
        var pTmpBuffer := NewMemory(c, pkgLen);
        if pkgLen == PKG_HEADER_LENGTH {
          assert pTmpBuffer[..] == header;
          PacketComplete(c);
        } else {
          ThenShort(c.queued, header);
          c.curStat := BdInit;
          c.recvArray, c.recvOffset := pTmpBuffer, PKG_HEADER_LENGTH;
          c.irecvlen := pkgLen - PKG_HEADER_LENGTH;
        }
      }
    }

    /** The state machine and the receive position go back to an empty header. */
    method StartOver(c: Connection)
      modifies c`curStat, c`recvArray, c`recvOffset, c`irecvlen
      ensures c.curStat == HdInit && c.recvArray == c.dataHeadInfo
      ensures c.recvOffset == 0 && c.irecvlen == PKG_HEADER_LENGTH
    {
      c.curStat := HdInit;
      c.recvArray, c.recvOffset := c.dataHeadInfo, 0;
      c.irecvlen := PKG_HEADER_LENGTH;
    }

    /** Memory for the whole packet, with its message header and packet header filled in. */
    method NewMemory(c: Connection, pkgLen: nat) returns (pTmpBuffer: array<byte>)
      requires c.dataHeadInfo.Length == DATA_BUFSIZE && pkgLen >= PKG_HEADER_LENGTH
      modifies c`pnewMemPointer, c`newMemSequence
      ensures fresh(pTmpBuffer) && c.pnewMemPointer == pTmpBuffer && c.newMemSequence == c.iCurrsequence
      ensures pTmpBuffer.Length == pkgLen
      ensures pTmpBuffer[..PKG_HEADER_LENGTH] == c.dataHeadInfo[..PKG_HEADER_LENGTH]
    {
      pTmpBuffer := new byte[pkgLen](_ => 0);
      c.pnewMemPointer := pTmpBuffer;
      c.newMemSequence := c.iCurrsequence;
      forall i | 0 <= i < PKG_HEADER_LENGTH { pTmpBuffer[i] := c.dataHeadInfo[i]; }
    }

    /** flyd_wait_request_handler_proc_plast: a whole packet stands in the new memory. */
    method PacketComplete(c: Connection)
      requires c.dataHeadInfo.Length == DATA_BUFSIZE
      requires c.pnewMemPointer != null && c.newMemSequence == c.iCurrsequence
      requires LegalLength(c.pnewMemPointer.Length)
      requires c.pnewMemPointer.Length == NetworkShort(c.pnewMemPointer[0], c.pnewMemPointer[1])
      requires Parse(c.stream) == Then(c.queued, c.pnewMemPointer[..])
      modifies this, c
      ensures c.Valid() && c.stream == old(c.stream)
      ensures c.iCurrsequence == old(c.iCurrsequence) && c.recvArray == c.dataHeadInfo
      ensures Delivered(c, old(c.queued), old(m_MsgRecvQueue))
      ensures c.curStat.HdInit? && c.irecvlen == PKG_HEADER_LENGTH
      ensures m_MsgRecvQueue == old(m_MsgRecvQueue) + [Message(c, c.iCurrsequence, old(c.pnewMemPointer[..]))]
    {
      ghost var whole := c.pnewMemPointer[..];
      ThenWhole(c.queued, whole);
      m_MsgRecvQueue := m_MsgRecvQueue + [Message(c, c.newMemSequence, c.pnewMemPointer[..])];
      c.queued := c.queued + [whole];
      c.pnewMemPointer := null;
      StartOver(c);
      assert c.queued[|old(c.queued)|..] == [whole];
    }

    /** A whole stream arriving in pieces: `cut` chooses the size of every short read. */
    method ReceiveAll(c: Connection, input: seq<byte>, cut: nat -> nat)
      requires c.Valid() && c.stream == [] && c.queued == [] && c.pnewMemPointer == null
      modifies this, c, c.recvArray, c.dataHeadInfo
      ensures c.Valid() && c.stream == input && c.iCurrsequence == old(c.iCurrsequence)
      ensures m_MsgRecvQueue == old(m_MsgRecvQueue) + Stamped(c, c.iCurrsequence, Parse(input).packets)
      ensures c.Pending() == Parse(input).rest
      ensures forall i :: |old(m_MsgRecvQueue)| <= i < |m_MsgRecvQueue| ==>
                m_MsgRecvQueue[i].conn == c && m_MsgRecvQueue[i].sequence == old(c.iCurrsequence)
    {
      var position := 0;
      while position < |input|
        invariant 0 <= position <= |input|
        invariant c.Valid() && c.stream == input[..position]
        invariant c.iCurrsequence == old(c.iCurrsequence)
        invariant c.recvArray == old(c.recvArray) || c.recvArray == c.dataHeadInfo || fresh(c.recvArray)
        invariant m_MsgRecvQueue == old(m_MsgRecvQueue) + Stamped(c, c.iCurrsequence, c.queued)
      {
        var available := if |input| - position < c.irecvlen then |input| - position else c.irecvlen;
        var n := 1 + cut(position) % available;
        ghost var before := c.queued;
        WaitRequestHandler(c, input[position..position + n]);
        assert Stamped(c, c.iCurrsequence, c.queued)
            == Stamped(c, c.iCurrsequence, before) + Stamped(c, c.iCurrsequence, c.queued[|before|..]);
        assert input[..position] + input[position..position + n] == input[..position + n];
        position := position + n;
      }
      assert input[..position] == input;
    }
  }
}
