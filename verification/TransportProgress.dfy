/**
 * What retransmission can still do for a packet. A retransmission repeats only fragments that are not acknowledged,
 * so it can finish a packet exactly as long as the receiver still has the acknowledged ones.
 */
module TransportProgress {
  import opened Options
  import opened Sets
  import opened AckBits
  import opened Fragments
  import opened Transport
  import opened TransportRuns
  import L = TransportLosses

  /** If the `j`th step brings a fragment of the packet, a retransmission since step `from` has put it out. */
  ghost predicate IsResent(ss: seq<System>, steps: seq<Step>, id: nat, from: nat, j: nat)
    requires j < |steps| < |ss|
  {
    steps[j].ReceiveData? && steps[j].packet.id == id ==>
      exists i | from <= i < j :: Resends(ss, steps, id, i, steps[j].packet)
  }

  ghost predicate Resends(ss: seq<System>, steps: seq<Step>, id: nat, i: nat, p: Packet)
    requires i < |steps| < |ss|
  {
    steps[i] == Retransmit(id) && Enabled(ss[i], steps[i]) && p in Resent(ss[i], id)
  }

  ghost predicate ByRetransmission(ss: seq<System>, steps: seq<Step>, id: nat, from: nat)
    requires |steps| < |ss|
  {
    forall j :: from <= j < |steps| ==> IsResent(ss, steps, id, from, j)
  }

  /**
   * Some continuation, in which all that arrives of the packet comes from later retransmissions, leads to a state in
   * which the packet has been delivered and the sender has dropped it.
   */
  ghost predicate CanFinish(mtu: nat, ss: seq<System>, steps: seq<Step>, id: nat)
    requires |ss| == |steps| + 1
  {
    exists ss', steps' :: Finishes(mtu, ss, steps, ss', steps', id)
  }

  ghost predicate Finishes(
    mtu: nat, ss: seq<System>, steps: seq<Step>, ss': seq<System>, steps': seq<Step>, id: nat)
  {
    && Path(mtu, ss', steps') && ss <= ss' && steps <= steps'
    && ByRetransmission(ss', steps', id, |steps|)
    && id !in ss'[|steps'|].queue && WasDelivered(ss'[|steps'|], id)
  }

  // ----- When it is too late -----

  /** A fragment that has been acknowledged, and is neither held nor delivered. */
  predicate Lost(s: System, id: nat, no: nat)
    requires s.mtu > 0
  {
    && id in s.sent && no < CountOf(s, id)
    && no !in Parts(s.receiver, id) && !WasDelivered(s, id)
    && (id in s.queue ==> Has(s.queue[id].acked, no))
  }

  lemma {:induction false} DataStaysLost(s: System, p: Packet, bits: seq<bv8>, id: nat, no: nat)
    requires Inv(s) && Lost(s, id, no) && Enabled(s, ReceiveData(p, bits)) && !(p.id == id && p.no == no)
    ensures Lost(Next(s, ReceiveData(p, bits)), id, no)
  {
    var t := Next(s, ReceiveData(p, bits));
    DeliveredGrows(s, t, p, bits, id);
    if p.id != id {
      OtherPartsStay(s.receiver, p, id);
    } else {
      assert PacketOk(s, p);
      if Completes(s.receiver, p).Some? {
        CompletionHasRest(s, p, no);
      }
      if no in Parts(t.receiver, id) {
        PartsAfter(s.receiver, p, no);
      }
    }
  }

  lemma {:induction false} AckedStays(queue: map<nat, Entry>, a: Ack, id: nat, no: nat)
    requires id in queue ==> Has(queue[id].acked, no)
    ensures id in AfterAck(queue, a) ==> Has(AfterAck(queue, a)[id].acked, no)
  {
    if Accepts(queue, a) && a.id == id {
      OrIsUnion(queue[id].acked, a.bits, no);
    }
  }

  lemma {:induction false} AckStaysLost(s: System, a: Ack, t: System, id: nat, no: nat)
    requires Enabled(s, ReceiveAck(a)) && Lost(s, id, no) && t == Next(s, ReceiveAck(a))
    ensures t.mtu > 0 && Lost(t, id, no)
  {
    AckedStays(s.queue, a, id, no);
    assert t.receiver == s.receiver && t.delivered == s.delivered && t.sent == s.sent && t.mtu == s.mtu;
  }

  lemma {:induction false} StepStaysLost(s: System, step: Step, id: nat, no: nat)
    requires Inv(s) && Lost(s, id, no) && Enabled(s, step) && !Brings(step, id, no)
    ensures Lost(Next(s, step), id, no)
  {
    match step
    case ReceiveData(p, bits) => DataStaysLost(s, p, bits, id, no);
    case ReceiveAck(a) => AckStaysLost(s, a, Next(s, step), id, no);
    case _ =>
  }

  predicate LostAt(ss: seq<System>, i: nat, id: nat, no: nat)
    requires i < |ss|
  {
    ss[i].mtu > 0 && Lost(ss[i], id, no)
  }

  /** The sender never resends what is lost. */
  lemma {:induction false} LostIsNotBrought(
    ss: seq<System>, steps: seq<Step>, id: nat, no: nat, from: nat, j: nat)
    requires from <= j < |steps| < |ss| && ByRetransmission(ss, steps, id, from)
    requires forall i | from <= i <= j :: LostAt(ss, i, id, no)
    ensures !Brings(steps[j], id, no)
  {
    if steps[j].ReceiveData? && steps[j].packet.id == id {
      assert IsResent(ss, steps, id, from, j);
      var i :| from <= i < j && Resends(ss, steps, id, i, steps[j].packet);
      assert LostAt(ss, i, id, no);
    }
  }

  lemma {:induction false} MoveStaysLost(ss: seq<System>, steps: seq<Step>, j: nat, id: nat, no: nat)
    requires j < |steps| < |ss| && Moves(ss, steps, j) && Inv(ss[j]) && LostAt(ss, j, id, no)
    requires !Brings(steps[j], id, no)
    ensures LostAt(ss, j + 1, id, no)
  {
    StepStaysLost(ss[j], steps[j], id, no);
  }

  lemma {:induction false} StaysLost(
    mtu: nat, ss: seq<System>, steps: seq<Step>, id: nat, no: nat, from: nat, k: nat)
    requires Path(mtu, ss, steps) && from <= k <= |steps| && ByRetransmission(ss, steps, id, from)
    requires LostAt(ss, from, id, no)
    ensures LostAt(ss, k, id, no) && forall i | from <= i <= k :: LostAt(ss, i, id, no)
    decreases k
  {
    if from < k {
      StaysLost(mtu, ss, steps, id, no, from, k - 1);
      LostIsNotBrought(ss, steps, id, no, from, k - 1);
      PathKeepsInv(mtu, ss, steps, k - 1);
      assert Moves(ss, steps, k - 1);
      MoveStaysLost(ss, steps, k - 1, id, no);
    }
  }

  // ----- When it is not -----

  lemma {:induction false} BitsOf(fragments: set<nat>, count: nat) returns (bits: seq<bv8>)
    requires forall i :: i in fragments ==> i <= count
    ensures Denotes(bits, count, fragments)
    decreases |fragments|
  {
    if fragments == {} {
      bits := Zeros(count);
    } else {
      var i :| i in fragments;
      var rest := BitsOf(fragments - {i}, count);
      bits := Set(rest, i);
      forall j: nat ensures Has(bits, j) <==> j in fragments {
        SetAddsOne(rest, i, j);
      }
    }
  }

  /** The sender keeps waiting for something. */
  predicate Awaits(s: System) {
    forall id :: id in s.queue ==> !AllAcked(s.queue[id].acked, s.queue[id].count)
  }

  lemma {:induction false} NextAwaits(s: System, step: Step)
    requires Awaits(s) && Enabled(s, step)
    ensures Awaits(Next(s, step))
  {
    if step.Send? {
      var e := NewEntry(step.message, s.mtu);
      AllAckedIsAwaited(e.acked, e.count);
      assert 0 < Awaited(e.count) && !Has(e.acked, 0);
    }
  }

  lemma {:induction false} PathAwaits(mtu: nat, ss: seq<System>, steps: seq<Step>, k: nat)
    requires Path(mtu, ss, steps) && k < |ss|
    ensures Awaits(ss[k])
  {
    if k > 0 {
      PathAwaits(mtu, ss, steps, k - 1);
      assert Moves(ss, steps, k - 1);
      NextAwaits(ss[k - 1], steps[k - 1]);
    }
  }

  /** A packet that is still kept has a fragment that is not acknowledged. */
  lemma {:induction false} SomeUnacked(s: System, id: nat) returns (no: nat)
    requires Inv(s) && Awaits(s) && id in s.queue && s.queue[id].count % 8 != 0
    ensures no < s.queue[id].count && !Has(s.queue[id].acked, no)
  {
    assert EntryOk(s, id);
    var e := s.queue[id];
    assert Got(s, id) <= Upto(e.count);
    AllAckedMeansAll(e.acked, e.count);
    no :| no < e.count && !Has(e.acked, no);
  }

  function Copy(s: System, id: nat, i: nat): Packet
    requires s.mtu > 0 && id in s.queue && i < Count(|s.queue[id].message.payload|, s.mtu)
  {
    MakePacket(id, s.queue[id].message, s.mtu, i, true)
  }

  /** The packet has been retransmitted at step `from`, and nothing else of it has arrived since. */
  ghost predicate UnderWay(mtu: nat, ss: seq<System>, steps: seq<Step>, id: nat, from: nat) {
    && Path(mtu, ss, steps) && from < |steps| && steps[from] == Retransmit(id)
    && ByRetransmission(ss, steps, id, from)
    && id in ss[|steps|].queue && id in ss[from].queue && ss[|steps|].queue[id] == ss[from].queue[id]
    && Enabled(ss[from], Retransmit(id)) && Resent(ss[from], id) <= ss[|steps|].data
    && ss[|steps|].mtu == ss[from].mtu
  }

  lemma {:induction false} Retransmits(mtu: nat, ss: seq<System>, steps: seq<Step>, id: nat)
    returns (ss': seq<System>, steps': seq<Step>)
    requires Path(mtu, ss, steps) && id in ss[|steps|].queue
    ensures ss <= ss' && steps <= steps' && |steps'| == |steps| + 1 && UnderWay(mtu, ss', steps', id, |steps|)
    ensures var s, t := ss[|steps|], ss'[|steps'|];
            t.receiver == s.receiver && t.delivered == s.delivered && t.queue == s.queue
  {
    var s := ss[|steps|];
    PathKeepsInv(mtu, ss, steps, |steps|);
    assert EntryOk(s, id);
    ss', steps' := OneMore(mtu, ss, steps, Retransmit(id), Next(s, Retransmit(id)));
  }

  /** One step that brings a copy put out by that retransmission. */
  lemma {:induction false} Brought(
    mtu: nat, ss: seq<System>, steps: seq<Step>, id: nat, from: nat, i: nat, bits: seq<bv8>, t: System)
    returns (ss': seq<System>, steps': seq<Step>)
    requires UnderWay(mtu, ss, steps, id, from) && i < ss[|steps|].queue[id].count
    requires !Has(ss[|steps|].queue[id].acked, i)
    requires Enabled(ss[|steps|], ReceiveData(Copy(ss[|steps|], id, i), bits))
    requires t == Next(ss[|steps|], ReceiveData(Copy(ss[|steps|], id, i), bits))
    ensures ss <= ss' && steps <= steps' && |steps'| == |steps| + 1
    ensures UnderWay(mtu, ss', steps', id, from) && ss'[|steps'|] == t
  {
    var p := Copy(ss[|steps|], id, i);
    ss', steps' := OneMore(mtu, ss, steps, ReceiveData(p, bits), t);
    assert i in Upto(ss[from].queue[id].count);
    assert p in Resent(ss[from], id);
    forall j | from <= j < |steps'| ensures IsResent(ss', steps', id, from, j) {
      if j < |steps| {
        KeepsResent(ss, steps, ss', steps', id, from, j);
      } else {
        assert Resends(ss', steps', id, from, p);
      }
    }
  }

  lemma {:induction false} KeepsResent(
    ss: seq<System>, steps: seq<Step>, ss': seq<System>, steps': seq<Step>, id: nat, from: nat, j: nat)
    requires |steps| < |ss| && |steps'| < |ss'| && ss <= ss' && steps <= steps' && j < |steps|
    requires IsResent(ss, steps, id, from, j)
    ensures IsResent(ss', steps', id, from, j)
  {
    if steps[j].ReceiveData? && steps[j].packet.id == id {
      var i :| from <= i < j && Resends(ss, steps, id, i, steps[j].packet);
      assert Resends(ss', steps', id, i, steps[j].packet);
    }
  }

  /** A full acknowledgement ends it. */
  lemma {:induction false} FinishByAck(mtu: nat, ss: seq<System>, steps: seq<Step>, id: nat, from: nat, bits: seq<bv8>)
    returns (ss': seq<System>, steps': seq<Step>)
    requires UnderWay(mtu, ss, steps, id, from) && ss[|steps|].queue[id].count % 8 != 0
    requires Ack(id, ss[|steps|].queue[id].count, bits) in ss[|steps|].acks
    requires forall j: nat :: j < ss[|steps|].queue[id].count ==> Has(bits, j)
    ensures Path(mtu, ss', steps') && ss <= ss' && steps <= steps' && |steps'| == |steps| + 1
    ensures ByRetransmission(ss', steps', id, from)
    ensures id !in ss'[|steps'|].queue && ss'[|steps'|].delivered == ss[|steps|].delivered
  {
    var s := ss[|steps|];
    var a := Ack(id, s.queue[id].count, bits);
    PathKeepsInv(mtu, ss, steps, |steps|);
    ss', steps' := OneMore(mtu, ss, steps, ReceiveAck(a), Next(s, ReceiveAck(a)));
    AckEndsExactly(mtu, ss', steps', |steps|, a);
    forall j | from <= j < |steps'| ensures IsResent(ss', steps', id, from, j) {
      if j < |steps| {
        KeepsResent(ss, steps, ss', steps', id, from, j);
      }
    }
  }

  /** The answer to a fragment that is no repetition acknowledges only fragments of the packet. */
  lemma {:induction false} AnswerIsSmall(s: System, p: Packet)
    requires Inv(s) && p in s.data && p.reliable && !IsRepeat(s.receiver, p)
    ensures p.no < p.count && Acknowledges(s.receiver, p).Some?
    ensures Acknowledges(s.receiver, p).value <= Upto(p.count)
  {
    AcknowledgedIsGot(s, p);
    assert PacketOk(s, p) && Got(s, p.id) <= Upto(p.count);
  }

  /** Having stored the first `i` fragments and the next one, either there are all, or there is a next one. */
  lemma {:induction false} OneMoreKey(parts: set<nat>, stored: set<nat>, i: nat, count: nat)
    requires Upto(i) <= parts && stored == parts + {i}
    ensures Upto(i + 1) <= stored && (stored <= Upto(count) && stored != Upto(count) ==> i + 1 < count)
  {
    if stored <= Upto(count) && i + 1 >= count {
      assert Upto(count) <= Upto(i + 1);
    }
  }

  lemma {:induction false} HoldsNext(s: System, p: Packet, i: nat)
    requires Inv(s) && p in s.data && p.no == i && p.reliable && !IsRepeat(s.receiver, p)
    requires Upto(i) <= Parts(s.receiver, p.id).Keys
    ensures Completes(s.receiver, p).Some? ==> Acknowledges(s.receiver, p) == Some(Upto(p.count))
    ensures Completes(s.receiver, p).None? ==>
              && i + 1 < p.count && Upto(i + 1) <= Parts(After(s.receiver, p), p.id).Keys
              && Parts(s.receiver, p.id).Keys <= Parts(After(s.receiver, p), p.id).Keys
  {
    assert PacketOk(s, p);
    if p.count == 1 {
      assert Upto(1) == {0};
    } else {
      StoredIsOk(s, p);
      OneMoreKey(Parts(s.receiver, p.id).Keys, Stored(s.receiver, p).Keys, i, p.count);
      if Completes(s.receiver, p).None? {
        StoredPartsStay(s.receiver, p);
      }
    }
  }

  /** Some answer fits, and the step with it is enabled. */
  lemma {:induction false} Answered(s: System, p: Packet) returns (bits: seq<bv8>, t: System)
    requires Inv(s) && p in s.data && p.reliable && !IsRepeat(s.receiver, p)
    ensures Enabled(s, ReceiveData(p, bits)) && t == Next(s, ReceiveData(p, bits))
    ensures Ack(p.id, p.count, bits) in t.acks && t.queue == s.queue && t.receiver == After(s.receiver, p)
    ensures Acknowledges(s.receiver, p).Some? && Denotes(bits, p.count, Acknowledges(s.receiver, p).value)
    ensures WasDelivered(t, p.id) <==> WasDelivered(s, p.id) || Completes(s.receiver, p).Some?
  {
    AnswerIsSmall(s, p);
    bits := BitsOf(Acknowledges(s.receiver, p).value, p.count);
    t := Next(s, ReceiveData(p, bits));
    DeliveredGrows(s, t, p, bits, p.id);
  }

  /** The next fragment completes the packet, or is held with those before it. */
  lemma {:induction false} ReceiveNext(s: System, p: Packet, i: nat) returns (bits: seq<bv8>, t: System)
    requires Inv(s) && p in s.data && p.no == i && p.reliable && !IsRepeat(s.receiver, p)
    requires Upto(i) <= Parts(s.receiver, p.id).Keys && !WasDelivered(s, p.id)
    ensures Enabled(s, ReceiveData(p, bits)) && t == Next(s, ReceiveData(p, bits))
    ensures Ack(p.id, p.count, bits) in t.acks && t.queue == s.queue
    ensures Completes(s.receiver, p).Some? ==>
              (forall j: nat :: j < p.count ==> Has(bits, j)) && WasDelivered(t, p.id)
    ensures Completes(s.receiver, p).None? ==>
              && i + 1 < p.count && Upto(i + 1) <= Parts(t.receiver, p.id).Keys
              && Parts(s.receiver, p.id).Keys <= Parts(t.receiver, p.id).Keys && !WasDelivered(t, p.id)
  {
    HoldsNext(s, p, i);
    bits, t := Answered(s, p);
  }

  /** Whatever is acknowledged is held. */
  predicate AckedIsHeld(s: System, id: nat)
    requires id in s.queue
  {
    forall no | 0 <= no < 8 * |s.queue[id].acked| && Has(s.queue[id].acked, no) :: no in Parts(s.receiver, id)
  }

  /** An unfinished packet lacks a fragment. */
  lemma {:induction false} SomethingIsMissing(s: System, id: nat)
    requires Inv(s) && id in s.queue
    ensures !(Upto(s.queue[id].count) <= Parts(s.receiver, id).Keys)
  {
    assert EntryOk(s, id);
    if Upto(s.queue[id].count) <= Parts(s.receiver, id).Keys {
      assert 0 in Parts(s.receiver, id).Keys;
      assert AssemblerOk(s, id);
      SubsetSize(Upto(s.queue[id].count), Parts(s.receiver, id).Keys);
    }
  }

  lemma {:induction false} CopyIsFresh(mtu: nat, ss: seq<System>, steps: seq<Step>, id: nat, from: nat, i: nat)
    requires UnderWay(mtu, ss, steps, id, from) && !WasDelivered(ss[|steps|], id)
    requires i < ss[|steps|].queue[id].count && !Has(ss[|steps|].queue[id].acked, i)
    ensures Inv(ss[|steps|])
    ensures var s := ss[|steps|];
            && s.queue[id].count == Count(|s.queue[id].message.payload|, s.mtu)
            && Copy(s, id, i) in s.data && Copy(s, id, i).reliable && !IsRepeat(s.receiver, Copy(s, id, i))
  {
    var s := ss[|steps|];
    PathKeepsInv(mtu, ss, steps, |steps|);
    PathRemembers(mtu, ss, steps, |steps|);
    assert EntryOk(s, id);
    assert i in Upto(ss[from].queue[id].count);
    assert Copy(s, id, i) in Resent(ss[from], id);
  }

  /** The copies from `i` on, one after another, complete the packet. */
  lemma {:induction false} FinishFrom(mtu: nat, ss: seq<System>, steps: seq<Step>, id: nat, from: nat, i: nat)
    returns (ss': seq<System>, steps': seq<Step>)
    requires UnderWay(mtu, ss, steps, id, from) && !WasDelivered(ss[|steps|], id)
    requires ss[|steps|].queue[id].count % 8 != 0 && i < ss[|steps|].queue[id].count
    requires Upto(i) <= Parts(ss[|steps|].receiver, id).Keys && AckedIsHeld(ss[|steps|], id)
    ensures Path(mtu, ss', steps') && ss <= ss' && steps <= steps' && ByRetransmission(ss', steps', id, from)
    ensures id !in ss'[|steps'|].queue && WasDelivered(ss'[|steps'|], id)
    decreases ss[|steps|].queue[id].count - i
  {
    var s := ss[|steps|];
    if Has(s.queue[id].acked, i) {
      PathKeepsInv(mtu, ss, steps, |steps|);
      assert Upto(i + 1) <= Parts(s.receiver, id).Keys;
      SomethingIsMissing(s, id);
      ss', steps' := FinishFrom(mtu, ss, steps, id, from, i + 1);
    } else {
      CopyIsFresh(mtu, ss, steps, id, from, i);
      var p := Copy(s, id, i);
      var bits, t := ReceiveNext(s, p, i);
      var more, moreSteps := Brought(mtu, ss, steps, id, from, i, bits, t);
      if Completes(s.receiver, p).Some? {
        ss', steps' := FinishByAck(mtu, more, moreSteps, id, from, bits);
      } else {
        ss', steps' := FinishFrom(mtu, more, moreSteps, id, from, i + 1);
      }
    }
  }

  /** A packet that is not delivered can be finished when the receiver has what is acknowledged. */
  lemma {:induction false} FinishUndelivered(mtu: nat, ss: seq<System>, steps: seq<Step>, id: nat)
    requires Path(mtu, ss, steps) && id in ss[|steps|].queue && ss[|steps|].queue[id].count % 8 != 0
    requires !WasDelivered(ss[|steps|], id) && AckedIsHeld(ss[|steps|], id)
    ensures CanFinish(mtu, ss, steps, id)
  {
    var more, moreSteps := Retransmits(mtu, ss, steps, id);
    var ss', steps' := FinishFrom(mtu, more, moreSteps, id, |steps|, 0);
    assert Finishes(mtu, ss, steps, ss', steps', id);
  }

  /** The receiver answers the retransmission of a delivered packet in full. */
  lemma {:induction false} RepeatIsAnswered(s: System, p: Packet) returns (bits: seq<bv8>, t: System)
    requires Inv(s) && p in s.data && IsRepeat(s.receiver, p)
    ensures Enabled(s, ReceiveData(p, bits)) && t == Next(s, ReceiveData(p, bits))
    ensures Ack(p.id, p.count, bits) in t.acks && t.queue == s.queue && t.delivered == s.delivered
    ensures forall j: nat :: j < p.count ==> Has(bits, j)
  {
    assert PacketOk(s, p);
    bits := BitsOf(Upto(p.count), p.count);
    t := Next(s, ReceiveData(p, bits));
  }

  lemma {:induction false} CopyIsRepeat(mtu: nat, ss: seq<System>, steps: seq<Step>, id: nat, from: nat, i: nat)
    requires UnderWay(mtu, ss, steps, id, from) && WasDelivered(ss[|steps|], id)
    requires i < ss[|steps|].queue[id].count && !Has(ss[|steps|].queue[id].acked, i)
    ensures Inv(ss[|steps|])
    ensures var s := ss[|steps|];
            && s.queue[id].count == Count(|s.queue[id].message.payload|, s.mtu)
            && Copy(s, id, i) in s.data && IsRepeat(s.receiver, Copy(s, id, i))
  {
    var s := ss[|steps|];
    PathKeepsInv(mtu, ss, steps, |steps|);
    PathRemembers(mtu, ss, steps, |steps|);
    assert EntryOk(s, id);
    assert i in Upto(ss[from].queue[id].count);
    assert Copy(s, id, i) in Resent(ss[from], id);
  }

  lemma {:induction false} BringRepeat(mtu: nat, ss: seq<System>, steps: seq<Step>, id: nat, from: nat, i: nat)
    returns (ss': seq<System>, steps': seq<Step>, bits: seq<bv8>)
    requires UnderWay(mtu, ss, steps, id, from) && WasDelivered(ss[|steps|], id)
    requires i < ss[|steps|].queue[id].count && !Has(ss[|steps|].queue[id].acked, i)
    ensures ss <= ss' && steps <= steps' && |steps'| == |steps| + 1 && UnderWay(mtu, ss', steps', id, from)
    ensures var s, t := ss[|steps|], ss'[|steps'|];
            && t.queue == s.queue && t.delivered == s.delivered && Ack(id, s.queue[id].count, bits) in t.acks
            && forall j: nat :: j < s.queue[id].count ==> Has(bits, j)
  {
    CopyIsRepeat(mtu, ss, steps, id, from, i);
    var t;
    bits, t := RepeatIsAnswered(ss[|steps|], Copy(ss[|steps|], id, i));
    ss', steps' := Brought(mtu, ss, steps, id, from, i, bits, t);
  }

  /** A delivered packet can be finished: any one copy is answered in full. */
  lemma {:induction false} FinishDelivered(mtu: nat, ss: seq<System>, steps: seq<Step>, id: nat)
    requires Path(mtu, ss, steps) && id in ss[|steps|].queue && ss[|steps|].queue[id].count % 8 != 0
    requires WasDelivered(ss[|steps|], id)
    ensures CanFinish(mtu, ss, steps, id)
  {
    PathKeepsInv(mtu, ss, steps, |steps|);
    PathAwaits(mtu, ss, steps, |steps|);
    var i := SomeUnacked(ss[|steps|], id);
    var ss1, steps1 := Retransmits(mtu, ss, steps, id);
    var ss2, steps2, bits := BringRepeat(mtu, ss1, steps1, id, |steps|, i);
    var ss', steps' := FinishByAck(mtu, ss2, steps2, id, |steps|, bits);
    assert Finishes(mtu, ss, steps, ss', steps', id);
  }

  // ----- The exact condition -----

  lemma {:induction false} LostIsNotFinished(mtu: nat, ss: seq<System>, steps: seq<Step>, id: nat, no: nat)
    requires Path(mtu, ss, steps) && LostAt(ss, |steps|, id, no)
    ensures !CanFinish(mtu, ss, steps, id)
  {
    forall ss', steps' | Finishes(mtu, ss, steps, ss', steps', id) ensures false {
      StaysLost(mtu, ss', steps', id, no, |steps|, |steps'|);
    }
  }

  lemma {:induction false} EightfoldIsNotFinished(mtu: nat, ss: seq<System>, steps: seq<Step>, id: nat)
    requires Path(mtu, ss, steps) && id in ss[|steps|].queue && ss[|steps|].queue[id].count % 8 == 0
    ensures !CanFinish(mtu, ss, steps, id)
  {
    PathKeepsInv(mtu, ss, steps, |steps|);
    SameMtu(mtu, ss, steps, |steps|);
    assert EntryOk(ss[|steps|], id);
    forall ss', steps' | Finishes(mtu, ss, steps, ss', steps', id) ensures false {
      SentStaysLong(mtu, ss', steps', |steps|, |steps'|, id);
      DroppedHasArrived(mtu, ss', steps', |steps'|, id, 0);
    }
  }

  lemma {:induction false} SentStaysLong(mtu: nat, ss: seq<System>, steps: seq<Step>, j: nat, k: nat, id: nat)
    requires Path(mtu, ss, steps) && j <= k <= |steps| && id in ss[j].sent
    ensures id in ss[k].sent && ss[k].sent[id] == ss[j].sent[id]
  {
    if j < k {
      SentStaysLong(mtu, ss, steps, j, k - 1, id);
      SentStays(mtu, ss, steps, k - 1, id);
    }
  }

  /**
   * In every reachable state, retransmission alone can still finish a packet that the sender keeps if and only if its
   * fragments are not 8n in number and it has been delivered already or the receiver holds all that is acknowledged.
   */
  lemma {:induction false} FinishableExactly(mtu: nat, ss: seq<System>, steps: seq<Step>, id: nat)
    requires Path(mtu, ss, steps) && id in ss[|steps|].queue
    ensures CanFinish(mtu, ss, steps, id) <==>
            && ss[|steps|].queue[id].count % 8 != 0
            && (WasDelivered(ss[|steps|], id) || AckedIsHeld(ss[|steps|], id))
  {
    var s := ss[|steps|];
    if s.queue[id].count % 8 == 0 {
      EightfoldIsNotFinished(mtu, ss, steps, id);
    } else if WasDelivered(s, id) {
      FinishDelivered(mtu, ss, steps, id);
    } else if AckedIsHeld(s, id) {
      FinishUndelivered(mtu, ss, steps, id);
    } else {
      var no :| 0 <= no < 8 * |s.queue[id].acked| && Has(s.queue[id].acked, no) && no !in Parts(s.receiver, id);
      PathKeepsInv(mtu, ss, steps, |steps|);
      assert EntryOk(s, id);
      assert Got(s, id) <= Upto(CountOf(s, id));
      LostIsNotFinished(mtu, ss, steps, id, no);
    }
  }

  /** After a timeout between its two fragments a packet is kept that no retransmission can ever finish. */
  lemma {:induction false} TimeoutStrandsAPacket() returns (ss: seq<System>, steps: seq<Step>)
    ensures Path(1, ss, steps) && |steps| == 6
    ensures 0 in ss[6].queue && ss[6].queue[0].count == 2 && !CanFinish(1, ss, steps, 0)
  {
    L.TwoBits();
    ss, steps := L.StrandingRun([1], [2]);
    FinishableExactly(1, ss, steps, 0);
    assert !WasDelivered(ss[6], 0) && !AckedIsHeld(ss[6], 0);
  }
}
