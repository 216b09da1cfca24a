/** Two runs in which a timeout of the receiver harms a packet: one is lost, the other can not be finished. */
module TransportLosses {
  import opened Options
  import opened Sets
  import opened AckBits
  import opened Fragments
  import opened Transport
  import opened TransportRuns

  /** With an mtu of 1 this message has two fragments, and the second is empty. */
  function Two(): Message {
    Message(0, true, [7])
  }

  function Piece(id: nat, no: nat): Packet
    requires no < 2
  {
    Packet(id, no, 2, true, false, 0, if no == 0 then [7] else [])
  }

  lemma {:induction false} TwoBits()
    ensures Halves([1], [2])
  {
    BitValues();
    assert Size(2) == 1;
    forall j: nat ensures (Has([1], j) <==> j == 0) && (Has([2], j) <==> j == 1) {
      if j / 8 < 1 {
        BitOnly(0, j % 8);
        BitOnly(1, j % 8);
      }
    }
    assert Or(Zeros(2), [1]) == [1] && Or([1], [2]) == [3];
    assert Expected(0, 1, 2) == 3;
    assert !ByteAcked([1][0], 0, 1, 2);
  }

  /** Two acknowledgements, each for one fragment only, that together look complete to the sender. */
  ghost predicate Halves(a: seq<bv8>, b: seq<bv8>) {
    && Denotes(a, 2, {0}) && Denotes(b, 2, {1}) && |Zeros(2)| == |a| == |b|
    && !AllAcked(Or(Zeros(2), a), 2) && AllAcked(Or(Or(Zeros(2), a), b), 2)
  }

  // ----- The steps -----

  lemma {:induction false} TwoPieces(id: nat, m: Message)
    requires m == Two()
    ensures Count(|m.payload|, 1) == 2 && 0 in Upto(2) && 1 in Upto(2)
    ensures MakePacket(id, m, 1, 0, false) == Piece(id, 0) && MakePacket(id, m, 1, 1, false) == Piece(id, 1)
  {
    assert [7 as bv8][0..1] == [7];
  }

  lemma {:induction false} SendTwo(s: System, id: nat, m: Message) returns (t: System)
    requires s.mtu == 1 && id !in s.sent && m == Two()
    ensures Enabled(s, Send(id, m)) && t == Next(s, Send(id, m))
    ensures id in t.queue && t.queue == s.queue[id := t.queue[id]]
    ensures t.queue[id].count == 2 && t.queue[id].acked == Zeros(2)
    ensures s.data <= t.data && Piece(id, 0) in t.data && Piece(id, 1) in t.data
    ensures t.receiver == s.receiver && t.delivered == s.delivered && t.mtu == 1 && t.sent == s.sent[id := m]
  {
    TwoPieces(id, m);
    t := Next(s, Send(id, m));
    assert MakePacket(id, m, 1, 0, false) in t.data && MakePacket(id, m, 1, 1, false) in t.data;
  }

  lemma {:induction false} FirstStored(r: Receiver, p: Packet)
    requires p.id !in r.assemblers && p.count == 2 && p.no < 2 && p.reliable && !p.retransmission
    ensures Acknowledges(r, p) == Some({p.no}) && Completes(r, p).None? && Stores(r, p)
    ensures After(r, p) == r.(assemblers := r.assemblers[p.id := map[p.no := p.data]])
  {
    assert Stored(r, p) == map[p.no := p.data];
    assert Stored(r, p).Keys == {p.no};
  }

  lemma {:induction false} ReceiveOne(s: System, id: nat, no: nat, bits: seq<bv8>) returns (t: System)
    requires s.mtu > 0 && no < 2 && Piece(id, no) in s.data && id !in s.receiver.assemblers
    requires Denotes(bits, 2, {no})
    ensures Enabled(s, ReceiveData(Piece(id, no), bits)) && t == Next(s, ReceiveData(Piece(id, no), bits))
    ensures t.receiver.assemblers.Keys == s.receiver.assemblers.Keys + {id} && t.stored == Some(id)
    ensures t.queue == s.queue && t.data == s.data && t.sent == s.sent && t.mtu == s.mtu
    ensures t.delivered == s.delivered && t.acks == s.acks + {Ack(id, 2, bits)}
  {
    FirstStored(s.receiver, Piece(id, no));
    t := Next(s, ReceiveData(Piece(id, no), bits));
  }

  lemma {:induction false} Forget(s: System, id: nat) returns (t: System)
    requires s.mtu > 0 && s.stored.Some? && s.stored.value != id
    ensures Enabled(s, TimeOut({id})) && t == Next(s, TimeOut({id}))
    ensures t == s.(receiver := t.receiver, stored := None) && id !in t.receiver.assemblers
  {
    t := Next(s, TimeOut({id}));
  }

  lemma {:induction false} AckOne(s: System, id: nat, bits: seq<bv8>) returns (t: System)
    requires s.mtu > 0 && Ack(id, 2, bits) in s.acks && id in s.queue
    requires s.queue[id].count == 2 && |s.queue[id].acked| == |bits|
    ensures Enabled(s, ReceiveAck(Ack(id, 2, bits))) && t == Next(s, ReceiveAck(Ack(id, 2, bits)))
    ensures t == s.(queue := t.queue, stored := None)
    ensures var acked := Or(s.queue[id].acked, bits);
            t.queue == if AllAcked(acked, 2) then s.queue - {id} else s.queue[id := s.queue[id].(acked := acked)]
  {
    t := Next(s, ReceiveAck(Ack(id, 2, bits)));
  }

  // ----- The runs -----

  /** Packets 0 and 1 are sent. */
  lemma {:induction false} SendBoth() returns (ss: seq<System>, steps: seq<Step>)
    ensures Path(1, ss, steps) && |steps| == 2
    ensures var s := ss[2];
            && 0 in s.queue && s.queue[0].count == 2 && s.queue[0].acked == Zeros(2)
            && 0 in s.sent && s.sent[0] == Two() && s.mtu == 1
            && Piece(0, 0) in s.data && Piece(0, 1) in s.data && Piece(1, 0) in s.data
            && s.receiver.assemblers == map[] && s.delivered == []
  {
    var s0 := Init(1);
    var s1 := SendTwo(s0, 0, Two());
    ss, steps := OneMore(1, [s0], [], Send(0, Two()), s1);
    var s2 := SendTwo(s1, 1, Two());
    ss, steps := OneMore(1, ss, steps, Send(1, Two()), s2);
  }

  /** The first fragment of packet 0 arrives, and expires when one of packet 1 arrives. */
  lemma {:induction false} Interrupted(a: seq<bv8>) returns (ss: seq<System>, steps: seq<Step>)
    requires Denotes(a, 2, {0})
    ensures Path(1, ss, steps) && |steps| == 5
    ensures var s := ss[5];
            && 0 in s.queue && s.queue[0].count == 2 && s.queue[0].acked == Zeros(2)
            && 0 in s.sent && s.sent[0] == Two() && s.mtu == 1
            && Piece(0, 1) in s.data && Ack(0, 2, a) in s.acks
            && 0 !in s.receiver.assemblers && s.delivered == []
  {
    ss, steps := SendBoth();
    var s3 := ReceiveOne(ss[2], 0, 0, a);
    ss, steps := OneMore(1, ss, steps, ReceiveData(Piece(0, 0), a), s3);
    var s4 := ReceiveOne(s3, 1, 0, a);
    ss, steps := OneMore(1, ss, steps, ReceiveData(Piece(1, 0), a), s4);
    var s5 := Forget(s4, 0);
    ss, steps := OneMore(1, ss, steps, TimeOut({0}), s5);
  }

  lemma {:induction false} LosingRun(a: seq<bv8>, b: seq<bv8>) returns (ss: seq<System>, steps: seq<Step>)
    requires Halves(a, b)
    ensures Path(1, ss, steps) && |steps| == 8
    ensures 0 in ss[8].sent && ss[8].sent[0] == Two() && 0 !in ss[8].queue && ss[8].delivered == []
  {
    ss, steps := Interrupted(a);
    var s6 := ReceiveOne(ss[5], 0, 1, b);
    ss, steps := OneMore(1, ss, steps, ReceiveData(Piece(0, 1), b), s6);
    var s7 := AckOne(s6, 0, a);
    ss, steps := OneMore(1, ss, steps, ReceiveAck(Ack(0, 2, a)), s7);
    var s8 := AckOne(s7, 0, b);
    ss, steps := OneMore(1, ss, steps, ReceiveAck(Ack(0, 2, b)), s8);
  }

  /**
   * Between its two fragments, a fragment of another packet makes the receiver drop what it has of a packet. The
   * sender then sees both fragments acknowledged and forgets the packet, which has never been delivered.
   */
  lemma {:induction false} TimeoutLosesAPacket() returns (ss: seq<System>, steps: seq<Step>)
    ensures Path(1, ss, steps) && |steps| == 8
    ensures 0 in ss[8].sent && ss[8].sent[0].reliable && 0 !in ss[8].queue
    ensures ss[8].delivered == []
  {
    TwoBits();
    ss, steps := LosingRun([1], [2]);
  }

  lemma {:induction false} StrandingRun(a: seq<bv8>, b: seq<bv8>) returns (ss: seq<System>, steps: seq<Step>)
    requires Halves(a, b)
    ensures Path(1, ss, steps) && |steps| == 6
    ensures 0 in ss[6].queue && ss[6].queue[0].count == 2 && Has(ss[6].queue[0].acked, 0)
    ensures 0 !in ss[6].receiver.assemblers && ss[6].delivered == []
  {
    ss, steps := Interrupted(a);
    var s6 := AckOne(ss[5], 0, a);
    ss, steps := OneMore(1, ss, steps, ReceiveAck(Ack(0, 2, a)), s6);
    OrIsUnion(Zeros(2), a, 0);
  }
}
