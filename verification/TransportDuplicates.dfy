/** What the receiver makes of duplicates and of packets that do not fit what it holds. */
module TransportDuplicates {
  import opened Options
  import opened Sets
  import opened Fragments
  import opened Transport
  import opened TransportRuns

  // ----- The assembler -----

  /** Whatever the receiver held, an assembler never mixes in fragments that the packet can not have. */
  lemma {:induction false} StoredFits(r: Receiver, p: Packet, no: nat)
    requires no in Stored(r, p) && no != p.no
    ensures no < p.count && no in Parts(r, p.id) && Stored(r, p)[no] == Parts(r, p.id)[no]
    ensures forall i :: i in Parts(r, p.id) ==> i < p.count
  {
  }

  // ----- Acknowledgements -----

  lemma {:induction false} StepAcksReliable(s: System, step: Step)
    requires Inv(s) && Enabled(s, step) && forall a :: a in s.acks ==> a.id in s.sent && s.sent[a.id].reliable
    ensures forall a :: a in Next(s, step).acks ==> a.id in Next(s, step).sent && Next(s, step).sent[a.id].reliable
  {
    if step.ReceiveData? {
      assert PacketOk(s, step.packet);
    }
  }

  /** In every run only reliable packets are acknowledged. */
  lemma {:induction false} OnlyReliableIsAcked(mtu: nat, ss: seq<System>, steps: seq<Step>, k: nat)
    requires Path(mtu, ss, steps) && k < |ss|
    ensures forall a :: a in ss[k].acks ==> a.id in ss[k].sent && ss[k].sent[a.id].reliable
  {
    if k > 0 {
      OnlyReliableIsAcked(mtu, ss, steps, k - 1);
      PathKeepsInv(mtu, ss, steps, k - 1);
      assert Moves(ss, steps, k - 1);
      StepAcksReliable(ss[k - 1], steps[k - 1]);
    }
  }

  // ----- Delivering again -----

  /** The step gives the packet to the callback. */
  predicate Delivers(s: System, step: Step, id: nat) {
    step.ReceiveData? && step.packet.id == id && Completes(s.receiver, step.packet).Some?
  }

  /** A delivered packet leaves nothing behind. */
  lemma {:induction false} DeliveryClears(s: System, step: Step, id: nat)
    requires Inv(s) && Enabled(s, step) && Delivers(s, step, id)
    ensures Parts(Next(s, step).receiver, id) == map[]
  {
    assert PacketOk(s, step.packet);
    if id in s.receiver.assemblers {
      assert AssemblerOk(s, id);
    }
  }

  /** What is held after a delivery has arrived since. */
  lemma {:induction false} HeldSinceDelivery(
    mtu: nat, ss: seq<System>, steps: seq<Step>, j: nat, k: nat, id: nat, no: nat)
    requires Path(mtu, ss, steps) && j < k <= |steps| && Delivers(ss[j], steps[j], id)
    requires no in Parts(ss[k].receiver, id)
    ensures Arrives(steps, id, no, j + 1, k)
    decreases k
  {
    assert Moves(ss, steps, k - 1);
    if j + 1 == k {
      PathKeepsInv(mtu, ss, steps, j);
      DeliveryClears(ss[j], steps[j], id);
      assert false;
    } else {
      PartsComeFrom(ss[k - 1], steps[k - 1], id, no);
      if !Brings(steps[k - 1], id, no) {
        HeldSinceDelivery(mtu, ss, steps, j, k - 1, id, no);
      }
    }
  }

  /** A packet is delivered a second time only after every one of its fragments has arrived again. */
  lemma {:induction false} RedeliveryNeedsAll(
    mtu: nat, ss: seq<System>, steps: seq<Step>, j: nat, k: nat, id: nat, no: nat)
    requires Path(mtu, ss, steps) && j < k < |steps|
    requires Delivers(ss[j], steps[j], id) && Delivers(ss[k], steps[k], id)
    ensures id in ss[k].sent && (no < Count(|ss[k].sent[id].payload|, mtu) ==> Arrives(steps, id, no, j + 1, k + 1))
  {
    var p := steps[k].packet;
    PathKeepsInv(mtu, ss, steps, k);
    SameMtu(mtu, ss, steps, k);
    assert Moves(ss, steps, k) && PacketOk(ss[k], p);
    if no < p.count && no != p.no {
      CompletionHasRest(ss[k], p, no);
      HeldSinceDelivery(mtu, ss, steps, j, k, id, no);
    }
  }

  /** Among complete arrivals, only those of retransmissions of what was delivered are not delivered again. */
  lemma {:induction false} SingleIsDeliveredExactly(
    mtu: nat, ss: seq<System>, steps: seq<Step>, k: nat, p: Packet, bits: seq<bv8>)
    requires Path(mtu, ss, steps) && k < |steps| && steps[k] == ReceiveData(p, bits) && p.count == 1
    ensures Delivers(ss[k], steps[k], p.id) <==> !(p.retransmission && p.reliable && WasDelivered(ss[k], p.id))
  {
    PathKeepsInv(mtu, ss, steps, k);
    PathRemembers(mtu, ss, steps, k);
    assert Moves(ss, steps, k) && PacketOk(ss[k], p);
  }

  /** A datagram that the network duplicates is delivered twice. */
  lemma {:induction false} DuplicatesAreRedelivered() returns (ss: seq<System>, steps: seq<Step>)
    ensures Path(2, ss, steps) && |steps| == 3
    ensures |ss[3].delivered| == 2 && ss[3].delivered[0] == ss[3].delivered[1]
  {
    var m, p := Message(0, false, [7]), Packet(0, 0, 1, false, false, 0, [7]);
    var s1 := SendOne(Init(2), m, p);
    ss, steps := OneMore(2, [Init(2)], [], Send(0, m), s1);
    var s2 := ReceiveAgain(s1, p);
    ss, steps := OneMore(2, ss, steps, ReceiveData(p, []), s2);
    var s3 := ReceiveAgain(s2, p);
    ss, steps := OneMore(2, ss, steps, ReceiveData(p, []), s3);
  }

  lemma {:induction false} SendOne(s: System, m: Message, p: Packet) returns (t: System)
    requires s == Init(2) && m == Message(0, false, [7]) && p == Packet(0, 0, 1, false, false, 0, [7])
    ensures Enabled(s, Send(0, m)) && t == Next(s, Send(0, m))
    ensures p in t.data && t.mtu == 2 && t.delivered == []
  {
    t := Next(s, Send(0, m));
    assert MakePacket(0, m, 2, 0, false) == p && 0 in Upto(1);
  }

  lemma {:induction false} ReceiveAgain(s: System, p: Packet) returns (t: System)
    requires s.mtu > 0 && p in s.data && p == Packet(0, 0, 1, false, false, 0, [7])
    ensures Enabled(s, ReceiveData(p, [])) && t == Next(s, ReceiveData(p, []))
    ensures p in t.data && t.mtu == s.mtu && t.delivered == s.delivered + [Delivery(0, 0, false, [7])]
  {
    t := Next(s, ReceiveData(p, []));
  }
}
