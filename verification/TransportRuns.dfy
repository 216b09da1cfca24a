/** What holds in every run of sender, channel and receiver. */
module TransportRuns {
  import opened Sets
  import opened AckBits
  import opened Fragments
  import opened Transport

  ghost predicate Moves(ss: seq<System>, steps: seq<Step>, i: nat)
    requires i < |steps| < |ss|
  {
    Enabled(ss[i], steps[i]) && ss[i + 1] == Next(ss[i], steps[i])
  }

  ghost predicate Path(mtu: nat, ss: seq<System>, steps: seq<Step>) {
    && mtu > 0
    && |ss| == |steps| + 1 && ss[0] == Init(mtu)
    && forall i :: 0 <= i < |steps| ==> Moves(ss, steps, i)
  }

  lemma {:induction false} NextKeepsInv(s: System, step: Step)
    requires Inv(s) && Enabled(s, step)
    ensures Inv(Next(s, step))
  {
    match step
    case Send(id, m) => SendKeepsInv(s, id, m);
    case Retransmit(id) => RetransmitKeepsInv(s, id);
    case ReceiveData(p, bits) => ReceiveDataKeepsInv(s, p, bits);
    case ReceiveAck(a) => ReceiveAckKeepsInv(s, a);
    case TimeOut(ids) => TimeOutKeepsInv(s, ids);
  }

  lemma {:induction false} PathKeepsInv(mtu: nat, ss: seq<System>, steps: seq<Step>, k: nat)
    requires Path(mtu, ss, steps) && k < |ss|
    ensures Inv(ss[k])
  {
    if k > 0 {
      PathKeepsInv(mtu, ss, steps, k - 1);
      assert Moves(ss, steps, k - 1);
      NextKeepsInv(ss[k - 1], steps[k - 1]);
    }
  }

  /** Everything delivered was sent with exactly that payload, whatever the channel did. */
  lemma {:induction false} DeliveriesWereSent(mtu: nat, ss: seq<System>, steps: seq<Step>, k: nat, d: Delivery)
    requires Path(mtu, ss, steps) && k < |ss| && d in ss[k].delivered
    ensures d.id in ss[k].sent && ss[k].sent[d.id] == Message(d.hash, d.reliable, d.payload)
  {
    PathKeepsInv(mtu, ss, steps, k);
    var i :| 0 <= i < |ss[k].delivered| && ss[k].delivered[i] == d;
    assert DeliveryOk(ss[k], ss[k].delivered[i]);
  }

  predicate Brings(step: Step, id: nat, no: nat) {
    step.ReceiveData? && step.packet.id == id && step.packet.no == no
  }

  lemma {:induction false} GotGrows(s: System, step: Step, id: nat, no: nat)
    requires Enabled(s, step)
    ensures no in Got(Next(s, step), id) <==> no in Got(s, id) || Brings(step, id, no)
  {
  }

  lemma {:induction false} PathGot(mtu: nat, ss: seq<System>, steps: seq<Step>, k: nat, id: nat, no: nat)
    requires Path(mtu, ss, steps) && k < |steps|
    ensures no in Got(ss[k + 1], id) <==> no in Got(ss[k], id) || Brings(steps[k], id, no)
  {
    assert Moves(ss, steps, k);
    GotGrows(ss[k], steps[k], id, no);
  }

  /** `got` is what the receiver has been given. */
  lemma {:induction false} GotWasReceived(mtu: nat, ss: seq<System>, steps: seq<Step>, k: nat, id: nat, no: nat)
    requires Path(mtu, ss, steps) && k < |ss|
    ensures no in Got(ss[k], id) <==> exists i :: 0 <= i < k && Brings(steps[i], id, no)
  {
    if k > 0 {
      GotWasReceived(mtu, ss, steps, k - 1, id, no);
      PathGot(mtu, ss, steps, k - 1, id, no);
    }
  }

  /** A fragment that the sender counts as acknowledged exists and has reached the receiver. */
  lemma {:induction false} AckedHasArrived(mtu: nat, ss: seq<System>, steps: seq<Step>, k: nat, id: nat, no: nat)
    requires Path(mtu, ss, steps) && k < |ss|
    requires id in ss[k].queue && Has(ss[k].queue[id].acked, no)
    ensures exists i :: 0 <= i < k && Brings(steps[i], id, no)
    ensures no < ss[k].queue[id].count
  {
    PathKeepsInv(mtu, ss, steps, k);
    assert EntryOk(ss[k], id);
    assert no in Got(ss[k], id);
    GotWasReceived(mtu, ss, steps, k, id, no);
  }

  /** The sender drops a reliable packet only after all its fragments arrived, and never if their count is 8n. */
  lemma {:induction false} DroppedHasArrived(mtu: nat, ss: seq<System>, steps: seq<Step>, k: nat, id: nat, no: nat)
    requires Path(mtu, ss, steps) && k < |ss|
    requires id in ss[k].sent && ss[k].sent[id].reliable && id !in ss[k].queue
    ensures Count(|ss[k].sent[id].payload|, mtu) % 8 != 0
    ensures no < Count(|ss[k].sent[id].payload|, mtu) ==> exists i :: 0 <= i < k && Brings(steps[i], id, no)
  {
    PathKeepsInv(mtu, ss, steps, k);
    SameMtu(mtu, ss, steps, k);
    assert GotAll(ss[k], id);
    GotWasReceived(mtu, ss, steps, k, id, no);
  }

  /**
   * An acknowledgement ends the retransmission of a packet exactly when it is accepted, every fragment is now
   * acknowledged, and the number of fragments is not a multiple of 8.
   */
  lemma {:induction false} AckEndsExactly(mtu: nat, ss: seq<System>, steps: seq<Step>, k: nat, a: Ack)
    requires Path(mtu, ss, steps) && k < |steps| && steps[k] == ReceiveAck(a) && a.id in ss[k].queue
    ensures Accepts(ss[k].queue, a)
    ensures var e := ss[k].queue[a.id];
            a.id !in ss[k + 1].queue <==>
            e.count % 8 != 0 && forall no: nat :: no < e.count ==> Has(e.acked, no) || Has(a.bits, no)
  {
    var s := ss[k];
    PathKeepsInv(mtu, ss, steps, k);
    assert Moves(ss, steps, k);
    assert EntryOk(s, a.id) && AckOk(s, a);
    var e := s.queue[a.id];
    var acked := Or(e.acked, a.bits);
    forall no: nat ensures Has(acked, no) <==> Has(e.acked, no) || Has(a.bits, no) {
      OrIsUnion(e.acked, a.bits, no);
    }
    assert Got(s, a.id) <= Upto(e.count);
    AllAckedMeansAll(acked, e.count);
  }

  lemma {:induction false} SameMtu(mtu: nat, ss: seq<System>, steps: seq<Step>, k: nat)
    requires Path(mtu, ss, steps) && k < |ss|
    ensures ss[k].mtu == mtu
  {
    if k > 0 {
      SameMtu(mtu, ss, steps, k - 1);
      assert Moves(ss, steps, k - 1);
    }
  }

  function DeliveryOf(id: nat, m: Message): Delivery {
    Delivery(id, m.hash, m.reliable, m.payload)
  }

  // ----- Duplicates -----

  /** The receiver remembers exactly the reliable packets it has delivered. */
  predicate Remembers(s: System) {
    forall id :: id in s.sent && s.sent[id].reliable ==> (id in s.receiver.recent <==> WasDelivered(s, id))
  }

  lemma {:induction false} UnsentIsUnknown(s: System, id: nat)
    requires Inv(s) && id !in s.sent
    ensures !WasDelivered(s, id) && id !in s.receiver.recent
  {
    forall i | 0 <= i < |s.delivered| ensures s.delivered[i].id in s.sent {
      assert DeliveryOk(s, s.delivered[i]);
    }
  }

  lemma {:induction false} SendRemembers(s: System, id: nat, m: Message)
    requires Inv(s) && Remembers(s) && Enabled(s, Send(id, m))
    ensures Remembers(Next(s, Send(id, m)))
  {
    UnsentIsUnknown(s, id);
  }

  /** A round that completes a reliable packet remembers it, and nothing else is remembered or forgotten. */
  lemma {:induction false} RecentAfter(r: Receiver, p: Packet, id: nat)
    ensures id in After(r, p).recent <==> id in r.recent || (id == p.id && p.reliable && Completes(r, p).Some?)
  {
  }

  lemma {:induction false} ReceiveRemembers(s: System, p: Packet, bits: seq<bv8>)
    requires Inv(s) && Remembers(s) && Enabled(s, ReceiveData(p, bits))
    ensures Remembers(Next(s, ReceiveData(p, bits)))
  {
    var t := Next(s, ReceiveData(p, bits));
    assert PacketOk(s, p);
    forall id | id in t.sent && t.sent[id].reliable
      ensures id in t.receiver.recent <==> WasDelivered(t, id)
    {
      DeliveredGrows(s, t, p, bits, id);
      RecentAfter(s.receiver, p, id);
    }
  }

  lemma {:induction false} NextRemembers(s: System, step: Step)
    requires Inv(s) && Remembers(s) && Enabled(s, step)
    ensures Remembers(Next(s, step))
  {
    match step
    case Send(id, m) => SendRemembers(s, id, m);
    case ReceiveData(p, bits) => ReceiveRemembers(s, p, bits);
    case _ =>
  }

  lemma {:induction false} PathRemembers(mtu: nat, ss: seq<System>, steps: seq<Step>, k: nat)
    requires Path(mtu, ss, steps) && k < |ss|
    ensures Remembers(ss[k])
  {
    if k > 0 {
      PathRemembers(mtu, ss, steps, k - 1);
      PathKeepsInv(mtu, ss, steps, k - 1);
      assert Moves(ss, steps, k - 1);
      NextRemembers(ss[k - 1], steps[k - 1]);
    }
  }

  /** A retransmission of what was already delivered delivers nothing, and all of it is acknowledged again. */
  lemma {:induction false} RetransmissionIsNotRedelivered(
    mtu: nat, ss: seq<System>, steps: seq<Step>, k: nat, p: Packet, bits: seq<bv8>)
    requires Path(mtu, ss, steps) && k < |steps| && steps[k] == ReceiveData(p, bits)
    requires p.retransmission && p.reliable && WasDelivered(ss[k], p.id)
    ensures ss[k + 1].delivered == ss[k].delivered && ss[k + 1].receiver == ss[k].receiver
    ensures Ack(p.id, p.count, bits) in ss[k + 1].acks && forall no: nat :: no < p.count ==> Has(bits, no)
  {
    PathKeepsInv(mtu, ss, steps, k);
    PathRemembers(mtu, ss, steps, k);
    assert Moves(ss, steps, k);
    assert PacketOk(ss[k], p);
    assert IsRepeat(ss[k].receiver, p);
  }

  // ----- When a packet is delivered -----

  /** No timeout drops what has been received of the packet. */
  ghost predicate Calm(ss: seq<System>, steps: seq<Step>, id: nat, from: nat, to: nat)
    requires to <= |steps| <= |ss|
  {
    forall i :: from <= i < to ==> !Interrupts(ss[i], steps[i], id)
  }

  ghost predicate Arrives(steps: seq<Step>, id: nat, no: nat, from: nat, to: nat)
    requires to <= |steps|
  {
    exists i :: from <= i < to && Brings(steps[i], id, no)
  }

  /** All fragments reach the receiver, and no timeout drops any of them in between. */
  ghost predicate Complete(ss: seq<System>, steps: seq<Step>, id: nat, count: nat, from: nat, to: nat)
    requires to <= |steps| <= |ss|
  {
    Calm(ss, steps, id, from, to) && forall no: nat :: no < count ==> Arrives(steps, id, no, from, to)
  }

  lemma OtherPartsStay(r: Receiver, p: Packet, id: nat)
    requires id != p.id
    ensures Parts(After(r, p), id) == Parts(r, id)
  {
  }

  lemma {:induction false} StoredPartsStay(r: Receiver, p: Packet)
    requires p.no <= p.count && p.count >= 2 && !IsRepeat(r, p) && |Stored(r, p)| != p.count
    ensures Parts(After(r, p), p.id) == Stored(r, p)
  {
  }

  lemma ExpiryKeepsParts(r: Receiver, ids: set<nat>, id: nat)
    requires id in ids ==> id !in r.assemblers
    ensures Parts(r.(assemblers := r.assemblers - ids), id) == Parts(r, id)
  {
  }

  lemma {:induction false} DeliveriesStay(s: System, step: Step, id: nat)
    requires Inv(s) && Enabled(s, step) && WasDelivered(s, id)
    ensures WasDelivered(Next(s, step), id)
  {
    if step.ReceiveData? {
      DeliveredGrows(s, Next(s, step), step.packet, step.bits, id);
    }
  }

  /** A data packet that does not deliver its packet is added to what has been received of it. */
  lemma {:induction false} UndeliveredIsStored(s: System, p: Packet, bits: seq<bv8>)
    requires Inv(s) && Remembers(s) && Enabled(s, ReceiveData(p, bits))
    requires !WasDelivered(Next(s, ReceiveData(p, bits)), p.id)
    ensures Parts(After(s.receiver, p), p.id).Keys == Parts(s.receiver, p.id).Keys + {p.no}
  {
    assert PacketOk(s, p);
    DeliveredGrows(s, Next(s, ReceiveData(p, bits)), p, bits, p.id);
    assert !IsRepeat(s.receiver, p) && p.count >= 2;
    StoredIsOk(s, p);
    StoredPartsStay(s.receiver, p);
  }

  lemma {:induction false} PartsGrow(s: System, step: Step, id: nat)
    requires Inv(s) && Remembers(s) && Enabled(s, step) && !Interrupts(s, step, id)
    requires !WasDelivered(Next(s, step), id)
    ensures Parts(s.receiver, id).Keys <= Parts(Next(s, step).receiver, id).Keys
  {
    match step
    case ReceiveData(p, bits) =>
      if p.id == id {
        UndeliveredIsStored(s, p, bits);
      } else {
        OtherPartsStay(s.receiver, p, id);
      }
    case TimeOut(ids) => ExpiryKeepsParts(s.receiver, ids, id);
    case _ =>
  }

  lemma {:induction false} StepHolds(s: System, step: Step, id: nat, no: nat)
    requires Inv(s) && Remembers(s) && Enabled(s, step) && !Interrupts(s, step, id)
    requires !WasDelivered(Next(s, step), id) && (Brings(step, id, no) || no in Parts(s.receiver, id))
    ensures no in Parts(Next(s, step).receiver, id) && !WasDelivered(s, id)
  {
    if WasDelivered(s, id) {
      DeliveriesStay(s, step, id);
    }
    PartsGrow(s, step, id);
    if Brings(step, id, no) {
      UndeliveredIsStored(s, step.packet, step.bits);
    }
  }

  lemma {:induction false} PathHolds(mtu: nat, ss: seq<System>, steps: seq<Step>, k: nat, id: nat, no: nat)
    requires Path(mtu, ss, steps) && k < |steps| && !Interrupts(ss[k], steps[k], id)
    requires !WasDelivered(ss[k + 1], id) && (Brings(steps[k], id, no) || no in Parts(ss[k].receiver, id))
    ensures no in Parts(ss[k + 1].receiver, id)
  {
    PathKeepsInv(mtu, ss, steps, k);
    PathRemembers(mtu, ss, steps, k);
    assert Moves(ss, steps, k);
    StepHolds(ss[k], steps[k], id, no);
  }

  lemma {:induction false} DeliveredStays(mtu: nat, ss: seq<System>, steps: seq<Step>, k: nat, id: nat)
    requires Path(mtu, ss, steps) && k < |steps| && WasDelivered(ss[k], id)
    ensures WasDelivered(ss[k + 1], id)
  {
    PathKeepsInv(mtu, ss, steps, k);
    assert Moves(ss, steps, k);
    DeliveriesStay(ss[k], steps[k], id);
  }

  /** What arrives in a calm stretch is held until the packet is delivered. */
  lemma {:induction false} ArrivedIsHeld(
    mtu: nat, ss: seq<System>, steps: seq<Step>, from: nat, to: nat, id: nat, no: nat)
    requires Path(mtu, ss, steps) && to <= |steps|
    requires Calm(ss, steps, id, from, to) && Arrives(steps, id, no, from, to) && !WasDelivered(ss[to], id)
    ensures no in Parts(ss[to].receiver, id)
  {
    if !Brings(steps[to - 1], id, no) {
      if WasDelivered(ss[to - 1], id) {
        DeliveredStays(mtu, ss, steps, to - 1, id);
      }
      ArrivedIsHeld(mtu, ss, steps, from, to - 1, id, no);
    }
    PathHolds(mtu, ss, steps, to - 1, id, no);
  }

  lemma {:induction false} CompleteIsDelivered(mtu: nat, ss: seq<System>, steps: seq<Step>, from: nat, to: nat, id: nat)
    requires Path(mtu, ss, steps) && to <= |steps| && id in ss[to].sent
    requires Complete(ss, steps, id, Count(|ss[to].sent[id].payload|, mtu), from, to)
    ensures WasDelivered(ss[to], id)
  {
    var count := Count(|ss[to].sent[id].payload|, mtu);
    PathKeepsInv(mtu, ss, steps, to);
    SameMtu(mtu, ss, steps, to);
    if !WasDelivered(ss[to], id) {
      var parts := Parts(ss[to].receiver, id);
      forall no: nat | no < count ensures no in parts.Keys {
        ArrivedIsHeld(mtu, ss, steps, from, to, id, no);
      }
      assert 0 in parts.Keys;
      assert AssemblerOk(ss[to], id);
      SubsetSize(Upto(count), parts.Keys);
    }
  }

  /** Where the calm stretch that ends at `k` begins. */
  ghost function CalmSince(ss: seq<System>, steps: seq<Step>, k: nat, id: nat): (from: nat)
    requires k <= |steps| <= |ss|
    ensures from <= k && Calm(ss, steps, id, from, k)
  {
    if k == 0 then 0
    else if Interrupts(ss[k - 1], steps[k - 1], id) then k
    else CalmSince(ss, steps, k - 1, id)
  }

  lemma {:induction false} PartsAfter(r: Receiver, p: Packet, no: nat)
    requires no in Parts(After(r, p), p.id)
    ensures no in Parts(r, p.id) || no == p.no
  {
  }

  lemma {:induction false} PartsComeFrom(s: System, step: Step, id: nat, no: nat)
    requires Enabled(s, step) && no in Parts(Next(s, step).receiver, id)
    ensures !Interrupts(s, step, id) && (no in Parts(s.receiver, id) || Brings(step, id, no))
  {
    match step
    case ReceiveData(p, bits) =>
      if p.id == id {
        PartsAfter(s.receiver, p, no);
      } else {
        OtherPartsStay(s.receiver, p, id);
      }
    case _ =>
  }

  /** What is held has arrived since the last interruption. */
  lemma {:induction false} HeldHasArrived(mtu: nat, ss: seq<System>, steps: seq<Step>, k: nat, id: nat, no: nat)
    requires Path(mtu, ss, steps) && k <= |steps| && no in Parts(ss[k].receiver, id)
    ensures Arrives(steps, id, no, CalmSince(ss, steps, k, id), k)
  {
    if k > 0 {
      assert Moves(ss, steps, k - 1);
      PartsComeFrom(ss[k - 1], steps[k - 1], id, no);
      if Brings(steps[k - 1], id, no) {
        assert CalmSince(ss, steps, k, id) <= k - 1;
      } else {
        HeldHasArrived(mtu, ss, steps, k - 1, id, no);
      }
    }
  }

  /** The step that delivers a packet brings the one fragment that is not held. */
  lemma {:induction false} DeliveryHasRest(s: System, step: Step, id: nat, no: nat)
    requires Inv(s) && Enabled(s, step) && !WasDelivered(s, id) && WasDelivered(Next(s, step), id)
    ensures id in s.sent && Next(s, step).sent == s.sent && !step.TimeOut?
    ensures no < Count(|s.sent[id].payload|, s.mtu) ==> no in Parts(s.receiver, id) || Brings(step, id, no)
  {
    var p := step.packet;
    DeliveredGrows(s, Next(s, step), p, step.bits, id);
    assert PacketOk(s, p);
    if no < p.count && no != p.no {
      CompletionHasRest(s, p, no);
    }
  }

  lemma {:induction false} FirstDeliveryIsComplete(mtu: nat, ss: seq<System>, steps: seq<Step>, k: nat, id: nat)
    requires Path(mtu, ss, steps) && k < |steps| && !WasDelivered(ss[k], id) && WasDelivered(ss[k + 1], id)
    ensures id in ss[k].sent && ss[k + 1].sent == ss[k].sent
    ensures var count := Count(|ss[k].sent[id].payload|, mtu);
            Complete(ss, steps, id, count, CalmSince(ss, steps, k, id), k + 1)
  {
    PathDeliveryHasRest(mtu, ss, steps, k, id, 0);
    var from, to := CalmSince(ss, steps, k, id), k + 1;
    forall no: nat | no < Count(|ss[k].sent[id].payload|, mtu) ensures Arrives(steps, id, no, from, to) {
      PathDeliveryHasRest(mtu, ss, steps, k, id, no);
      if no in Parts(ss[k].receiver, id) {
        HeldHasArrived(mtu, ss, steps, k, id, no);
      }
    }
  }

  lemma {:induction false} PathDeliveryHasRest(
    mtu: nat, ss: seq<System>, steps: seq<Step>, k: nat, id: nat, no: nat)
    requires Path(mtu, ss, steps) && k < |steps| && !WasDelivered(ss[k], id) && WasDelivered(ss[k + 1], id)
    ensures id in ss[k].sent && ss[k + 1].sent == ss[k].sent && !steps[k].TimeOut?
    ensures no < Count(|ss[k].sent[id].payload|, mtu) ==>
              no in Parts(ss[k].receiver, id) || Brings(steps[k], id, no)
  {
    PathKeepsInv(mtu, ss, steps, k);
    SameMtu(mtu, ss, steps, k);
    assert Moves(ss, steps, k);
    DeliveryHasRest(ss[k], steps[k], id, no);
  }

  lemma {:induction false} DeliveredWasComplete(mtu: nat, ss: seq<System>, steps: seq<Step>, k: nat, id: nat)
    returns (from: nat, to: nat)
    requires Path(mtu, ss, steps) && k <= |steps| && WasDelivered(ss[k], id) && id in ss[k].sent
    ensures from <= to <= k && Complete(ss, steps, id, Count(|ss[k].sent[id].payload|, mtu), from, to)
    decreases k
  {
    if WasDelivered(ss[k - 1], id) {
      SentStays(mtu, ss, steps, k - 1, id);
      from, to := DeliveredWasComplete(mtu, ss, steps, k - 1, id);
    } else {
      from, to := CalmSince(ss, steps, k - 1, id), k;
      FirstDeliveryIsComplete(mtu, ss, steps, k - 1, id);
    }
  }

  lemma {:induction false} SentStays(mtu: nat, ss: seq<System>, steps: seq<Step>, k: nat, id: nat)
    requires Path(mtu, ss, steps) && k < |steps| && (WasDelivered(ss[k], id) || id in ss[k].sent)
    ensures id in ss[k].sent && id in ss[k + 1].sent && ss[k + 1].sent[id] == ss[k].sent[id]
  {
    PathKeepsInv(mtu, ss, steps, k);
    if id !in ss[k].sent {
      UnsentIsUnknown(ss[k], id);
    }
    assert Moves(ss, steps, k);
    SentGrows(ss[k], steps[k], id);
  }

  lemma SentGrows(s: System, step: Step, id: nat)
    requires Enabled(s, step) && id in s.sent
    ensures id in Next(s, step).sent && Next(s, step).sent[id] == s.sent[id]
  {
  }

  lemma {:induction false} KeysButOne(parts: map<nat, Bytes>, stored: map<nat, Bytes>, count: nat, no: nat, last: nat)
    requires stored.Keys == Upto(count) && stored.Keys == parts.Keys + {last} && no < count && no != last
    ensures no in parts
  {
    assert no in stored.Keys;
  }

  /** When a data packet completes its packet, all other fragments are held. */
  lemma {:induction false} CompletionHasRest(s: System, p: Packet, no: nat)
    requires Inv(s) && p in s.data && Completes(s.receiver, p).Some? && no < p.count && no != p.no
    ensures no in Parts(s.receiver, p.id)
  {
    assert PacketOk(s, p);
    if p.count >= 2 {
      StoredCompletes(s, p);
      StoredIsOk(s, p);
      KeysButOne(Parts(s.receiver, p.id), Stored(s.receiver, p), p.count, no, p.no);
    }
  }

  /**
   * A packet, reliable or not, has been delivered exactly when all its fragments have reached the receiver within
   * one stretch of the run in which no timeout dropped what had been received of it.
   */
  lemma {:induction false} DeliveredExactly(mtu: nat, ss: seq<System>, steps: seq<Step>, k: nat, id: nat)
    requires Path(mtu, ss, steps) && k <= |steps| && id in ss[k].sent
    ensures DeliveryOf(id, ss[k].sent[id]) in ss[k].delivered <==>
            exists from, to | 0 <= from <= to <= k ::
              Complete(ss, steps, id, Count(|ss[k].sent[id].payload|, mtu), from, to)
  {
    DeliveredMeans(mtu, ss, steps, k, id);
    if WasDelivered(ss[k], id) {
      var from, to := DeliveredWasComplete(mtu, ss, steps, k, id);
    }
    forall from, to | 0 <= from <= to <= k
      && Complete(ss, steps, id, Count(|ss[k].sent[id].payload|, mtu), from, to)
      ensures WasDelivered(ss[k], id)
    {
      StaysComplete(mtu, ss, steps, from, to, k, id);
    }
  }

  lemma {:induction false} DeliveredMeans(mtu: nat, ss: seq<System>, steps: seq<Step>, k: nat, id: nat)
    requires Path(mtu, ss, steps) && k <= |steps| && id in ss[k].sent
    ensures WasDelivered(ss[k], id) <==> DeliveryOf(id, ss[k].sent[id]) in ss[k].delivered
  {
    PathKeepsInv(mtu, ss, steps, k);
    if WasDelivered(ss[k], id) {
      var i :| 0 <= i < |ss[k].delivered| && ss[k].delivered[i].id == id;
      assert DeliveryOk(ss[k], ss[k].delivered[i]);
    }
  }

  lemma {:induction false} StaysComplete(
    mtu: nat, ss: seq<System>, steps: seq<Step>, from: nat, to: nat, k: nat, id: nat)
    requires Path(mtu, ss, steps) && from <= to <= k <= |steps| && id in ss[k].sent
    requires Complete(ss, steps, id, Count(|ss[k].sent[id].payload|, mtu), from, to)
    ensures WasDelivered(ss[k], id)
    decreases k
  {
    if to < k {
      ArrivedWasSent(mtu, ss, steps, from, to, k - 1, id);
      SentStays(mtu, ss, steps, k - 1, id);
      StaysComplete(mtu, ss, steps, from, to, k - 1, id);
      DeliveredStays(mtu, ss, steps, k - 1, id);
    } else {
      CompleteIsDelivered(mtu, ss, steps, from, to, id);
    }
  }

  lemma {:induction false} ArrivedWasSent(
    mtu: nat, ss: seq<System>, steps: seq<Step>, from: nat, to: nat, k: nat, id: nat)
    requires Path(mtu, ss, steps) && to <= k <= |steps| && Arrives(steps, id, 0, from, to)
    ensures id in ss[k].sent
  {
    PathKeepsInv(mtu, ss, steps, k);
    GotWasReceived(mtu, ss, steps, k, id, 0);
    assert 0 in Got(ss[k], id);
  }

  /**
   * A packet that the sender has dropped was delivered exactly when all its fragments arrived within one calm
   * stretch; in particular always when no timeout interrupted it.
   */
  lemma {:induction false} DroppedWasDelivered(mtu: nat, ss: seq<System>, steps: seq<Step>, k: nat, id: nat)
    requires Path(mtu, ss, steps) && k <= |steps|
    requires id in ss[k].sent && ss[k].sent[id].reliable && id !in ss[k].queue
    ensures DeliveryOf(id, ss[k].sent[id]) in ss[k].delivered <==>
            exists from, to | 0 <= from <= to <= k ::
              Complete(ss, steps, id, Count(|ss[k].sent[id].payload|, mtu), from, to)
    ensures Calm(ss, steps, id, 0, k) ==> DeliveryOf(id, ss[k].sent[id]) in ss[k].delivered
  {
    DeliveredExactly(mtu, ss, steps, k, id);
    var count := Count(|ss[k].sent[id].payload|, mtu);
    forall no: nat | no < count ensures Arrives(steps, id, no, 0, k) {
      DroppedHasArrived(mtu, ss, steps, k, id, no);
    }
    assert Calm(ss, steps, id, 0, k) ==> Complete(ss, steps, id, count, 0, k);
  }

  /** A packet that no timeout interrupts, reliable or not, is delivered at the moment its last fragment arrives. */
  lemma {:induction false} DeliveredWhenComplete(mtu: nat, ss: seq<System>, steps: seq<Step>, k: nat, id: nat)
    requires Path(mtu, ss, steps) && k <= |steps| && Calm(ss, steps, id, 0, k)
    requires id in ss[k].sent
    ensures DeliveryOf(id, ss[k].sent[id]) in ss[k].delivered <==>
            forall no: nat :: no < Count(|ss[k].sent[id].payload|, mtu) ==> no in Got(ss[k], id)
  {
    var count := Count(|ss[k].sent[id].payload|, mtu);
    forall no: nat ensures no in Got(ss[k], id) <==> Arrives(steps, id, no, 0, k) {
      GotWasReceived(mtu, ss, steps, k, id, no);
    }
    DeliveredMeans(mtu, ss, steps, k, id);
    if WasDelivered(ss[k], id) {
      var from, to := DeliveredWasComplete(mtu, ss, steps, k, id);
      assert forall no: nat :: no < count ==> Arrives(steps, id, no, from, to) ==> Arrives(steps, id, no, 0, k);
    } else if Complete(ss, steps, id, count, 0, k) {
      StaysComplete(mtu, ss, steps, 0, k, k, id);
    }
  }

  // ----- Longer runs -----

  lemma {:induction false} OneMore(mtu: nat, ss: seq<System>, steps: seq<Step>, step: Step, t: System)
    returns (ss': seq<System>, steps': seq<Step>)
    requires Path(mtu, ss, steps) && Enabled(ss[|steps|], step) && t == Next(ss[|steps|], step)
    ensures Path(mtu, ss', steps') && |steps'| == |steps| + 1 && ss'[|steps'|] == t
    ensures ss <= ss' && steps <= steps' && steps'[|steps|] == step
  {
    ss', steps' := ss + [t], steps + [step];
    forall i | 0 <= i < |steps'| ensures Moves(ss', steps', i) {
      assert i < |steps| ==> Moves(ss, steps, i);
    }
  }
}
