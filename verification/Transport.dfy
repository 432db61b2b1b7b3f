/** The two halves of the transport together: what a peer with the same framing makes of the bytes that a socket has
    taken. */
module Transport {
  import opened Words
  import opened Framing
  import L = Logic
  import S = Sending

  /** A packet that announces its own length, which is legal. */
  predicate IsFrame(packet: seq<byte>) {
    8 <= |packet| <= 29000 && Announced(packet) == |packet|
  }

  /** The packets of the messages for connection `c`, in order. */
  function PacketsFor(ms: seq<S.Msg>, c: nat): seq<seq<byte>> {
    if ms == [] then []
    else
      var last := ms[|ms| - 1];
      PacketsFor(ms[..|ms| - 1], c) + (if last.conn == c then [last.packet] else [])
  }

  lemma FrameParses(packet: seq<byte>)
    requires IsFrame(packet)
    ensures Parse(packet) == Parsed([packet], [])
  {
    ParsePacket(packet, |packet|);
    assert packet[..|packet|] == packet && packet[|packet|..] == [];
  }

  /** Framing delivers a packet as it is if and only if the packet is a frame. */
  lemma DeliveredIffFrame(packet: seq<byte>)
    ensures Parse(packet).packets == [packet] <==> IsFrame(packet)
  {
    ParsedPackets(packet);
    if IsFrame(packet) {
      FrameParses(packet);
    } else {
      assert Parse(packet).packets == [packet] ==> packet in Parse(packet).packets;
    }
  }

  /** What the replies are built as is a frame, up to the length that framing lets through. */
  lemma EncodedIsFrame(p: L.Packet)
    requires p.Sendable()
    ensures IsFrame(L.Encode(p)) <==> |p.body| <= 28992
  {
    L.EncodedHeader(p);
  }

  predicate AllFrames(ms: seq<S.Msg>, c: nat) {
    forall m :: m in ms && m.conn == c ==> IsFrame(m.packet)
  }

  lemma {:induction false} StreamParses(ms: seq<S.Msg>, c: nat)
    requires AllFrames(ms, c)
    ensures Parse(S.Stream(ms, c)) == Parsed(PacketsFor(ms, c), [])
  {
    if ms != [] {
      var front, last := ms[..|ms| - 1], ms[|ms| - 1];
      StreamParses(front, c);
      if last.conn == c {
        ParseAppend(S.Stream(front, c), last.packet);
        FrameParses(last.packet);
        assert [] + last.packet == last.packet;
      } else {
        assert S.Stream(ms, c) == S.Stream(front, c) + [] == S.Stream(front, c);
        assert PacketsFor(ms, c) == PacketsFor(front, c) + [] == PacketsFor(front, c);
      }
    }
  }

  /** More bytes never take a packet back. */
  lemma ParseGrows(taken: seq<byte>, unsent: seq<byte>)
    ensures Parse(taken).packets <= Parse(taken + unsent).packets
  {
    ParseAppend(taken, unsent);
  }

  lemma {:induction false} PacketsForConcat(a: seq<S.Msg>, b: seq<S.Msg>, c: nat)
    ensures PacketsFor(a + b, c) == PacketsFor(a, c) + PacketsFor(b, c)
    decreases |b|
  {
    if b == [] {
      assert a + b == a;
    } else {
      PacketsForConcat(a, b[..|b| - 1], c);
      assert (a + b)[..|a + b| - 1] == a + b[..|b| - 1];
    }
  }

  /** Every message claimed for `c` carries its sequence number. */
  predicate Stamped(ms: seq<S.Msg>, c: nat, n: nat) {
    forall m :: m in ms && m.conn == c ==> m.sequence == n
  }

  lemma {:induction false} ClaimedStamped(s: S.State, steps: seq<S.Step>, c: nat)
    requires S.Inv(s) && S.Run(s, steps) && c in s.conns && Stamped(s.claimed, c, s.conns[c].iCurrsequence)
    ensures c in S.End(s, steps).conns && S.End(s, steps).conns[c].iCurrsequence == s.conns[c].iCurrsequence
    ensures Stamped(S.End(s, steps).claimed, c, s.conns[c].iCurrsequence)
    decreases steps
  {
    if steps != [] {
      var next := S.Next(s, steps[0]);
      S.StepInv(s, steps[0]);
      S.SequenceKept(s, steps[0], c);
      StampedStep(s, steps[0], c);
      ClaimedStamped(next, steps[1..], c);
    }
  }

  lemma StampedStep(s: S.State, step: S.Step, c: nat)
    requires S.Enabled(s, step) && c in s.conns && Stamped(s.claimed, c, s.conns[c].iCurrsequence)
    ensures Stamped(S.Next(s, step).claimed, c, s.conns[c].iCurrsequence)
  {
    if step.Claim? {
      assert S.Fresh(s, s.queue[s.sender.pos]);
    }
  }

  lemma {:induction false} StampedPackets(ms: seq<S.Msg>, c: nat, n: nat)
    requires Stamped(ms, c, n)
    ensures PacketsFor(S.FreshFor(ms, c, n), c) == PacketsFor(ms, c)
  {
    if ms != [] {
      var front, last := ms[..|ms| - 1], ms[|ms| - 1];
      StampedPackets(front, c, n);
      if last.conn == c {
        PacketsForConcat(S.FreshFor(front, c, n), [last], c);
        assert PacketsFor([last], c) == [last.packet] by {
          assert [last][..0] == [];
        }
      } else {
        assert S.FreshFor(ms, c, n) == S.FreshFor(front, c, n) + [] == S.FreshFor(front, c, n);
        assert PacketsFor(ms, c) == PacketsFor(front, c) + [] == PacketsFor(front, c);
      }
    }
  }

  lemma ClaimedFrames(init: S.State, steps: seq<S.Step>, c: nat)
    requires S.Initial(init) && S.Run(init, steps) && AllFrames(S.End(init, steps).enqueued, c)
    ensures AllFrames(S.End(init, steps).claimed, c)
  {
    S.SendConservation(init, steps);
    var s := S.End(init, steps);
    forall m | m in s.claimed && m.conn == c ensures IsFrame(m.packet) {
      assert m in multiset(s.claimed);
      assert m in multiset(s.enqueued);
    }
  }

  lemma StillThere(s: S.State, steps: seq<S.Step>, c: nat)
    requires S.Initial(s) && S.Run(s, steps) && c in s.conns
    ensures c in S.End(s, steps).conns && S.End(s, steps).conns[c].iCurrsequence == s.conns[c].iCurrsequence
    ensures Stamped(S.End(s, steps).claimed, c, s.conns[c].iCurrsequence)
  {
    S.InitialInv(s);
    ClaimedStamped(s, steps, c);
  }

  /** At any moment of any interleaving the peer has made out a prefix of the packets claimed for its connection, in
      order; and all of them, with no bytes over, when none is in flight. */
  lemma PeerSeesClaimed(init: S.State, steps: seq<S.Step>, c: nat)
    requires S.Initial(init) && S.Run(init, steps) && c in init.conns && AllFrames(S.End(init, steps).enqueued, c)
    ensures c in S.End(init, steps).conns
    ensures var s := S.End(init, steps);
            && Parse(s.conns[c].wire).packets <= PacketsFor(s.claimed, c)
            && (!S.Busy(s.conns[c], S.SenderAt(s, c)) ==>
                  Parse(s.conns[c].wire) == Parsed(PacketsFor(s.claimed, c), []))
  {
    StillThere(init, steps, c);
    ClaimedFrames(init, steps, c);
    S.SendIntegrity(init, steps, c);
    var s := S.End(init, steps);
    var unsent := S.Unsent(s.conns[c], S.SenderAt(s, c), S.HandlerAt(s, c));
    StreamParses(s.claimed, c);
    ParseGrows(s.conns[c].wire, unsent);
    assert unsent == [] ==> s.conns[c].wire + unsent == s.conns[c].wire;
  }

  /** The packets accepted for connection `c` with its sequence number, in the order of msgSend. */
  function Accepted(s: S.State, c: nat): seq<seq<byte>>
    requires c in s.conns
  {
    PacketsFor(S.FreshFor(s.enqueued, c, s.conns[c].iCurrsequence), c)
  }

  lemma AcceptedParts(s: S.State, c: nat)
    requires c in s.conns && S.SendsInOrder(s, c) && Stamped(s.claimed, c, s.conns[c].iCurrsequence)
    ensures Accepted(s, c)
            == PacketsFor(s.claimed, c) + PacketsFor(S.FreshFor(s.queue, c, s.conns[c].iCurrsequence), c)
  {
    var n := s.conns[c].iCurrsequence;
    StampedPackets(s.claimed, c, n);
    PacketsForConcat(S.FreshFor(s.claimed, c, n), S.FreshFor(s.queue, c, n), c);
  }

  /** From msgSend to the peer: as long as no scan overtakes, the peer has made out a prefix of what was accepted for its
      connection, in the order of msgSend; and exactly that, once nothing of it is queued or in flight. */
  lemma PeerSeesAccepted(init: S.State, steps: seq<S.Step>, c: nat)
    requires S.Initial(init) && S.Run(init, steps) && c in init.conns && AllFrames(S.End(init, steps).enqueued, c)
    requires S.NoOvertaking(init, steps, c)
    ensures c in S.End(init, steps).conns
    ensures var s := S.End(init, steps);
            && Parse(s.conns[c].wire).packets <= Accepted(s, c)
            && (!S.Busy(s.conns[c], S.SenderAt(s, c)) && S.FreshFor(s.queue, c, s.conns[c].iCurrsequence) == [] ==>
                  Parse(s.conns[c].wire) == Parsed(Accepted(s, c), []))
  {
    StillThere(init, steps, c);
    PeerSeesClaimed(init, steps, c);
    S.OrderIffNoOvertaking(init, steps, c);
    AcceptedParts(S.End(init, steps), c);
  }
}
