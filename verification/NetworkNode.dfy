/** The two ends of a reliable transfer, updating their state in place. */
module NetworkNode {
  import opened Options
  import opened Sets
  import opened AckBits
  import opened Fragments
  import opened Transport
  import A = AssemblerAges
  import RoundTrip

  predicate Fits(e: Entry, mtu: nat) {
    mtu > 0 && e.count == Count(|e.message.payload|, mtu) && |e.acked| == Size(e.count)
  }

  class Sender {
    const mtu: nat
    const roundTrip: RoundTrip.RoundTripKF
    var queue: map<nat, Entry>

    ghost predicate Valid() reads this, roundTrip {
      mtu > 0 && roundTrip.Valid() && forall id :: id in queue ==> Fits(queue[id], mtu)
    }

    constructor (mtu: nat)
      requires mtu > 0
      ensures Valid() && this.mtu == mtu && queue == map[] && fresh(roundTrip)
    {
      this.mtu := mtu;
      roundTrip := new RoundTrip.RoundTripKF();
      queue := map[];
    }

    /** Puts every fragment on the channel once, in order; a reliable packet is kept until it is acknowledged. */
    method Send(id: nat, m: Message) returns (packets: seq<Packet>)
      requires Valid()
      modifies this`queue
      ensures Valid()
      ensures queue == if m.reliable then old(queue)[id := NewEntry(m, mtu)] else old(queue)
      ensures |packets| == Count(|m.payload|, mtu)
      ensures forall i :: 0 <= i < |packets| ==> packets[i] == MakePacket(id, m, mtu, i, false)
    {
      var count := |m.payload| / mtu + 1;
      if m.reliable {
        queue := queue[id := Entry(m, count, Zeros(count))];
      }
      packets := SendAll(id, m, count);
    }

    method SendAll(id: nat, m: Message, count: nat) returns (packets: seq<Packet>)
      requires mtu > 0 && count == Count(|m.payload|, mtu)
      ensures |packets| == count
      ensures forall i :: 0 <= i < count ==> packets[i] == MakePacket(id, m, mtu, i, false)
    {
      packets := [];
      var i := 0;
      while i < count
        invariant i <= count && |packets| == i
        invariant forall j :: 0 <= j < i ==> packets[j] == MakePacket(id, m, mtu, j, false)
      {
        packets := packets + [MakePacket(id, m, mtu, i, false)];
        i := i + 1;
      }
    }

    /** Sends again exactly the fragments that have not been acknowledged, in order. */
    method Retransmit(id: nat) returns (packets: seq<Packet>)
      requires Valid() && id in queue
      ensures forall i: nat :: i < queue[id].count ==>
                (MakePacket(id, queue[id].message, mtu, i, true) in packets <==> !Has(queue[id].acked, i))
      ensures forall k :: 0 <= k < |packets| ==>
                packets[k].no < queue[id].count
                && packets[k] == MakePacket(id, queue[id].message, mtu, packets[k].no, true)
      ensures forall k, l :: 0 <= k < l < |packets| ==> packets[k].no < packets[l].no
    {
      var e := queue[id];
      var resend := Unacked(e.acked, e.count);
      assert forall j :: 0 <= j < |resend| ==> resend[j] in resend;
      packets := SendSome(id, e, resend);
      assert forall j :: 0 <= j < |packets| ==> packets[j].no in resend;
      forall i: nat | i < e.count && !Has(e.acked, i) ensures MakePacket(id, e.message, mtu, i, true) in packets {
        var j :| 0 <= j < |resend| && resend[j] == i;
        assert packets[j] == MakePacket(id, e.message, mtu, i, true);
      }
    }

    method SendSome(id: nat, e: Entry, numbers: seq<nat>) returns (packets: seq<Packet>)
      requires Fits(e, mtu) && forall j :: 0 <= j < |numbers| ==> numbers[j] < e.count
      ensures |packets| == |numbers|
      ensures forall j :: 0 <= j < |numbers| ==>
                packets[j] == MakePacket(id, e.message, mtu, numbers[j], true) && packets[j].no == numbers[j]
    {
      packets := [];
      var k := 0;
      while k < |numbers|
        invariant k <= |numbers| && |packets| == k
        invariant forall j :: 0 <= j < k ==> packets[j] == MakePacket(id, e.message, mtu, numbers[j], true)
      {
        packets := packets + [MakePacket(id, e.message, mtu, numbers[k], true)];
        k := k + 1;
      }
    }

    /** Handles an acknowledgement that comes `elapsed` seconds after the packet was last sent. */
    method ProcessAck(a: Ack, elapsed: real)
      requires Valid()
      modifies this`queue, roundTrip
      ensures Valid() && queue == AfterAck(old(queue), a)
      ensures roundTrip.State() == if Accepts(old(queue), a) then RoundTrip.Measured(old(roundTrip.State()), elapsed)
                                   else old(roundTrip.State())
    {
      if a.id in queue {
        var e := queue[a.id];
        if a.count == e.count && |a.bits| == |e.acked| {
          var _ := roundTrip.Measure(elapsed);
          var acked, allAcked := AddAcks(e.acked, a.bits, a.count);
          queue := if allAcked then queue - {a.id} else queue[a.id := e.(acked := acked)];
        }
      }
    }
  }

  class Target {
    var assemblers: map<nat, map<nat, Bytes>>
    var lastChunk: map<nat, int>          // when each assembler last received a fragment
    var recent: set<nat>

    ghost predicate Valid()
      reads this
    {
      lastChunk.Keys == assemblers.Keys
    }

    constructor ()
      ensures Valid() && State() == Receiver(map[], {})
    {
      assemblers, lastChunk, recent := map[], map[], {};
    }

    ghost function State(): Receiver
      reads this
    {
      Receiver(assemblers, recent)
    }

    /** Handles one data packet: the answer to put on the channel, and what is given to the callback. */
    method ProcessData(p: Packet, now: int) returns (answer: Option<Ack>, delivery: Option<Delivery>)
      requires Valid()
      modifies this
      ensures Valid() && State() == After(old(State()), p)
      ensures !Stores(old(State()), p) ==> lastChunk == old(lastChunk)
      ensures Stores(old(State()), p) && delivery.Some? ==> lastChunk == A.Next(old(lastChunk), A.Completed(p.id))
      ensures Stores(old(State()), p) && delivery.None? ==> lastChunk == A.Next(old(lastChunk), A.Stored(p.id, now))
      ensures delivery == Completes(old(State()), p)
      ensures answer.Some? <==> Acknowledges(old(State()), p).Some?
      ensures answer.Some? ==>
                && answer.value.id == p.id && answer.value.count == p.count
                && Denotes(answer.value.bits, p.count, Acknowledges(old(State()), p).value)
    {
      answer, delivery := None, None;
      if p.no > p.count {
        return;
      }
      if p.retransmission && p.id in recent && p.reliable {
        var bits := BuildAck(Upto(p.count), p.count);
        answer := Some(Ack(p.id, p.count, bits));
        return;
      }
      if p.count == 1 {
        if p.reliable {
          var bits := BuildAck({0}, 1);
          answer := Some(Ack(p.id, 1, bits));
          recent := recent + {p.id};
        }
        delivery := Some(Delivery(p.id, p.hash, p.reliable, p.data));
        return;
      }
      answer, delivery := Assemble(p, now);
    }

    method Assemble(p: Packet, now: int) returns (answer: Option<Ack>, delivery: Option<Delivery>)
      requires Valid() && p.no <= p.count != 1 && !IsRepeat(State(), p)
      modifies this
      ensures Valid() && State() == After(old(State()), p)
      ensures delivery.Some? ==> lastChunk == A.Next(old(lastChunk), A.Completed(p.id))
      ensures delivery.None? ==> lastChunk == A.Next(old(lastChunk), A.Stored(p.id, now))
      ensures delivery == Completes(old(State()), p)
      ensures answer.Some? <==> p.reliable
      ensures answer.Some? ==>
                && answer.value.id == p.id && answer.value.count == p.count
                && Denotes(answer.value.bits, p.count, Stored(old(State()), p).Keys)
    {
      answer := None;
      var parts := if p.id in assemblers then assemblers[p.id] else map[];
      if exists i :: i in parts.Keys && i >= p.count {
        parts := map[];
      }
      parts := parts[p.no := p.data];
      assert parts == Stored(State(), p);
      if p.reliable {
        var bits := BuildAck(parts.Keys, p.count);
        answer := Some(Ack(p.id, p.count, bits));
      }
      delivery := Keep(p, parts, now);
    }

    /** Delivers the parts when they are complete, and keeps them otherwise. */
    method Keep(p: Packet, parts: map<nat, Bytes>, now: int) returns (delivery: Option<Delivery>)
      requires Valid() && p.no <= p.count != 1 && !IsRepeat(State(), p) && parts == Stored(State(), p)
      modifies this
      ensures Valid() && State() == After(old(State()), p)
      ensures delivery.Some? ==> lastChunk == A.Next(old(lastChunk), A.Completed(p.id))
      ensures delivery.None? ==> lastChunk == A.Next(old(lastChunk), A.Stored(p.id, now))
      ensures delivery == Completes(old(State()), p)
    {
      if |parts| == p.count {
        var payload := Join(parts, p.count + 1);
        delivery := Some(Delivery(p.id, p.hash, p.reliable, payload));
        if p.reliable {
          recent := recent + {p.id};
        }
        assemblers, lastChunk := assemblers - {p.id}, lastChunk - {p.id};
      } else {
        delivery := None;
        assemblers, lastChunk := assemblers[p.id := parts], lastChunk[p.id := now];
      }
    }

    /** The removal of assemblers that have received nothing for ten round trips: a timeout of the expired ids. */
    method Expire(now: int, roundTrip: int)
      requires Valid()
      modifies this`assemblers, this`lastChunk
      ensures Valid() && lastChunk == A.Next(old(lastChunk), A.Expiry(now, roundTrip))
      ensures assemblers == old(assemblers) - (old(lastChunk).Keys - lastChunk.Keys)
    {
      var rest := assemblers.Keys;
      while rest != {}
        invariant Valid() && rest <= assemblers.Keys
        invariant assemblers == old(assemblers) - (old(lastChunk).Keys - lastChunk.Keys)
        invariant forall id :: id in lastChunk <==>
                    id in old(lastChunk) && (id in rest || !(now > old(lastChunk)[id] + 10 * roundTrip))
        invariant forall id :: id in lastChunk ==> lastChunk[id] == old(lastChunk)[id]
      {
        var id :| id in rest;
        if now > lastChunk[id] + 10 * roundTrip {
          assemblers, lastChunk := assemblers - {id}, lastChunk - {id};
        }
        rest := rest - {id};
      }
    }
  }

  /** Appends the parts in ascending order of their numbers. */
  method Join(parts: map<nat, Bytes>, n: nat) returns (out: Bytes)
    ensures out == InOrder(parts, n)
  {
    out := [];
    var i := 0;
    while i < n
      invariant i <= n && out == InOrder(parts, i)
    {
      if i in parts {
        out := out + parts[i];
      }
      i := i + 1;
    }
  }
}
