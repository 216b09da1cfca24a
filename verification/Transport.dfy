/**
 * Reliable delivery between a sender and a receiver over a channel that may lose, duplicate and reorder datagrams.
 * The functions on a receiver and on a queue entry specify the methods of `NetworkNode`; the system runs them
 * against such a channel. Packet ids are unique in a run and nobody forges packets.
 */
module Transport {
  import opened Options
  import opened Sets
  import opened AckBits
  import opened Fragments

  datatype Message = Message(hash: nat, reliable: bool, payload: Bytes)

  /** A data packet; the type DATA_RETRANSMISSION is the flag `retransmission`. */
  datatype Packet =
    Packet(id: nat, no: nat, count: nat, reliable: bool, retransmission: bool, hash: nat, data: Bytes)

  datatype Ack = Ack(id: nat, count: nat, bits: seq<bv8>)

  datatype Delivery = Delivery(id: nat, hash: nat, reliable: bool, payload: Bytes)

  // ----- The receiver -----

  /** Fragments of unfinished packets, and the reliable packets that have been completed. */
  datatype Receiver = Receiver(assemblers: map<nat, map<nat, Bytes>>, recent: set<nat>)

  function Parts(r: Receiver, id: nat): map<nat, Bytes> {
    if id in r.assemblers then r.assemblers[id] else map[]
  }

  /** The assembler holds a fragment number that the packet can not have. */
  predicate Stale(parts: map<nat, Bytes>, count: nat) {
    exists i :: i in parts && i >= count
  }

  /** The assembler after the packet's fragment has been stored; a stale assembler is purged first. */
  function Stored(r: Receiver, p: Packet): map<nat, Bytes> {
    var parts := Parts(r, p.id);
    (if Stale(parts, p.count) then map[] else parts)[p.no := p.data]
  }

  /** A retransmission of something already completed is only acknowledged again. */
  predicate IsRepeat(r: Receiver, p: Packet) {
    p.retransmission && p.id in r.recent && p.reliable
  }

  /** The packet's fragment goes into an assembler, be it to complete it. */
  predicate Stores(r: Receiver, p: Packet) {
    p.no <= p.count && !IsRepeat(r, p) && p.count != 1
  }

  /** The state after a data packet. */
  function After(r: Receiver, p: Packet): Receiver {
    if p.no > p.count || IsRepeat(r, p) then r
    else
      var finished := if p.reliable then r.recent + {p.id} else r.recent;
      if p.count == 1 then r.(recent := finished)
      else if |Stored(r, p)| == p.count then Receiver(r.assemblers - {p.id}, finished)
      else r.(assemblers := r.assemblers[p.id := Stored(r, p)])
  }

  /** The packet that the callback is given, if this data packet completes one. */
  function Completes(r: Receiver, p: Packet): Option<Delivery> {
    if p.no > p.count || IsRepeat(r, p) then None
    else if p.count == 1 then Some(Delivery(p.id, p.hash, p.reliable, p.data))
    else if |Stored(r, p)| == p.count then
      Some(Delivery(p.id, p.hash, p.reliable, InOrder(Stored(r, p), p.count + 1)))
    else None
  }

  /** The fragments acknowledged in the answer to this data packet, if there is an answer. */
  function Acknowledges(r: Receiver, p: Packet): Option<set<nat>> {
    if p.no > p.count || !p.reliable then None
    else if IsRepeat(r, p) then Some(Upto(p.count))
    else if p.count == 1 then Some({0})
    else Some(Stored(r, p).Keys)
  }

  ghost predicate Denotes(bits: seq<bv8>, count: nat, fragments: set<nat>) {
    |bits| == Size(count) && forall j: nat :: Has(bits, j) <==> j in fragments
  }

  // ----- The sender -----

  datatype Entry = Entry(message: Message, count: nat, acked: seq<bv8>)

  function MakePacket(id: nat, m: Message, mtu: nat, i: nat, retransmission: bool): Packet
    requires mtu > 0 && i < Count(|m.payload|, mtu)
  {
    Packet(id, i, Count(|m.payload|, mtu), m.reliable, retransmission, m.hash, Chunk(m.payload, mtu, i))
  }

  /** An acknowledgement is used when it is for a queued packet and neither wrong nor truncated. */
  predicate Accepts(queue: map<nat, Entry>, a: Ack) {
    a.id in queue && a.count == queue[a.id].count && |a.bits| == |queue[a.id].acked|
  }

  function AfterAck(queue: map<nat, Entry>, a: Ack): map<nat, Entry> {
    if !Accepts(queue, a) then queue
    else
      var e := queue[a.id];
      var acked := Or(e.acked, a.bits);
      if AllAcked(acked, a.count) then queue - {a.id} else queue[a.id := e.(acked := acked)]
  }

  // ----- The system -----

  datatype System = System(
    mtu: nat,
    sent: map<nat, Message>,
    queue: map<nat, Entry>,
    receiver: Receiver,
    data: set<Packet>,            // data packets put on the channel so far
    acks: set<Ack>,               // acknowledgements put on the channel so far
    got: map<nat, set<nat>>,      // fragments that have ever reached the receiver
    delivered: seq<Delivery>,
    stored: Option<nat>           // the packet to which the last step has added a fragment
  )

  datatype Step =
    | Send(id: nat, message: Message)
    | Retransmit(id: nat)
    | ReceiveData(packet: Packet, bits: seq<bv8>)
    | ReceiveAck(ack: Ack)
    | TimeOut(ids: set<nat>)      // after storing a fragment the receiver drops assemblers idle for a while

  function Init(mtu: nat): System {
    System(mtu, map[], map[], Receiver(map[], {}), {}, {}, map[], [], None)
  }

  ghost predicate Enabled(s: System, step: Step) {
    && s.mtu > 0
    && match step
       case Send(id, m) => id !in s.sent && Count(|m.payload|, s.mtu) <= 65535
       case Retransmit(id) => id in s.queue && s.queue[id].count == Count(|s.queue[id].message.payload|, s.mtu)
       case ReceiveData(p, bits) =>
         && p in s.data
         && (Acknowledges(s.receiver, p).Some? ==> Denotes(bits, p.count, Acknowledges(s.receiver, p).value))
       case ReceiveAck(a) => a in s.acks
       case TimeOut(ids) => s.stored.Some? && s.stored.value !in ids
  }

  function Got(s: System, id: nat): set<nat> {
    if id in s.got then s.got[id] else {}
  }

  function NewEntry(m: Message, mtu: nat): Entry
    requires mtu > 0
  {
    Entry(m, Count(|m.payload|, mtu), Zeros(Count(|m.payload|, mtu)))
  }

  /** The packets that a retransmission puts on the channel: one for each fragment that is not acknowledged. */
  ghost function Resent(s: System, id: nat): set<Packet>
    requires Enabled(s, Retransmit(id))
  {
    var e := s.queue[id];
    set i | i in Upto(e.count) && !Has(e.acked, i) :: MakePacket(id, e.message, s.mtu, i, true)
  }

  ghost function Next(s: System, step: Step): System
    requires Enabled(s, step)
  {
    match step
    case Send(id, m) =>
      s.(sent := s.sent[id := m],
         queue := if m.reliable then s.queue[id := NewEntry(m, s.mtu)] else s.queue,
         data := s.data + set i | i in Upto(Count(|m.payload|, s.mtu)) :: MakePacket(id, m, s.mtu, i, false),
         stored := None)
    case Retransmit(id) => s.(data := s.data + Resent(s, id), stored := None)
    case ReceiveData(p, bits) =>
      s.(receiver := After(s.receiver, p),
         acks := if Acknowledges(s.receiver, p).Some? then s.acks + {Ack(p.id, p.count, bits)} else s.acks,
         got := s.got[p.id := Got(s, p.id) + {p.no}],
         delivered := match Completes(s.receiver, p) case None => s.delivered case Some(d) => s.delivered + [d],
         stored := if Stores(s.receiver, p) then Some(p.id) else None)
    case ReceiveAck(a) => s.(queue := AfterAck(s.queue, a), stored := None)
    case TimeOut(ids) => s.(receiver := s.receiver.(assemblers := s.receiver.assemblers - ids), stored := None)
  }

  // ----- The invariant -----

  function CountOf(s: System, id: nat): nat
    requires s.mtu > 0 && id in s.sent
  {
    Count(|s.sent[id].payload|, s.mtu)
  }

  predicate PacketOk(s: System, p: Packet)
    requires s.mtu > 0
  {
    && p.id in s.sent && p.no < CountOf(s, p.id)
    && p == MakePacket(p.id, s.sent[p.id], s.mtu, p.no, p.retransmission)
  }

  predicate AssemblerOk(s: System, id: nat)
    requires s.mtu > 0 && id in s.receiver.assemblers
  {
    var parts := s.receiver.assemblers[id];
    && id in s.sent && CountOf(s, id) >= 2
    && PartsOf(parts, s.sent[id].payload, s.mtu)
    && parts.Keys <= Got(s, id)
    && |parts| < CountOf(s, id)
  }

  predicate BitsOk(s: System, id: nat, bits: seq<bv8>)
    requires s.mtu > 0 && id in s.sent
  {
    |bits| == Size(CountOf(s, id)) && forall j :: 0 <= j < 8 * |bits| && Has(bits, j) ==> j in Got(s, id)
  }

  predicate EntryOk(s: System, id: nat)
    requires s.mtu > 0 && id in s.queue
  {
    && id in s.sent && s.sent[id].reliable
    && s.queue[id].message == s.sent[id]
    && s.queue[id].count == CountOf(s, id)
    && BitsOk(s, id, s.queue[id].acked)
  }

  predicate DeliveryOk(s: System, d: Delivery) {
    d.id in s.sent && Message(d.hash, d.reliable, d.payload) == s.sent[d.id]
  }

  predicate GotAll(s: System, id: nat)
    requires s.mtu > 0 && id in s.sent
  {
    Got(s, id) == Upto(CountOf(s, id))
  }

  ghost predicate DataOk(s: System)
    requires s.mtu > 0
  {
    forall p :: p in s.data ==> PacketOk(s, p)
  }

  predicate AckOk(s: System, a: Ack)
    requires s.mtu > 0
  {
    a.id in s.sent && a.count == CountOf(s, a.id) && BitsOk(s, a.id, a.bits)
  }

  /** Only fragments that have reached the receiver are acknowledged. */
  ghost predicate AcksOk(s: System)
    requires s.mtu > 0
  {
    forall a :: a in s.acks ==> AckOk(s, a)
  }

  predicate AssemblersOk(s: System)
    requires s.mtu > 0
  {
    forall id :: id in s.receiver.assemblers ==> AssemblerOk(s, id)
  }

  predicate RecentOk(s: System)
    requires s.mtu > 0
  {
    forall id :: id in s.receiver.recent ==> id in s.sent && GotAll(s, id)
  }

  predicate GotOk(s: System)
    requires s.mtu > 0
  {
    forall id :: id in s.got ==> id in s.sent && s.got[id] <= Upto(CountOf(s, id))
  }

  predicate QueueOk(s: System)
    requires s.mtu > 0
  {
    forall id :: id in s.queue ==> EntryOk(s, id)
  }

  predicate DeliveriesOk(s: System) {
    forall i :: 0 <= i < |s.delivered| ==> DeliveryOk(s, s.delivered[i])
  }

  /** A reliable packet that the sender no longer keeps has arrived in full. */
  predicate DroppedOk(s: System)
    requires s.mtu > 0
  {
    forall id :: id in s.sent && s.sent[id].reliable && id !in s.queue ==> GotAll(s, id) && CountOf(s, id) % 8 != 0
  }

  ghost predicate Inv(s: System) {
    && s.mtu > 0
    && DataOk(s) && AcksOk(s) && AssemblersOk(s) && RecentOk(s)
    && GotOk(s) && QueueOk(s) && DeliveriesOk(s) && DroppedOk(s)
  }

  predicate HasId(ds: seq<Delivery>, id: nat) {
    exists i :: 0 <= i < |ds| && ds[i].id == id
  }

  lemma {:induction false} HasIdAppend(ds: seq<Delivery>, d: Delivery, id: nat)
    ensures HasId(ds + [d], id) <==> HasId(ds, id) || d.id == id
  {
    var es := ds + [d];
    assert es[|ds|] == d;
    if HasId(ds, id) {
      var i :| 0 <= i < |ds| && ds[i].id == id;
      assert es[i].id == id;
    }
  }

  predicate WasDelivered(s: System, id: nat) {
    HasId(s.delivered, id)
  }

  /** A timeout that drops what has been received of a packet. */
  predicate Interrupts(s: System, step: Step, id: nat) {
    step.TimeOut? && id in step.ids && id in s.receiver.assemblers
  }

  // ----- What survives when messages and arrived fragments only grow -----

  ghost predicate Extends(s: System, t: System) {
    && t.mtu == s.mtu > 0
    && (forall id :: id in s.sent ==> id in t.sent && t.sent[id] == s.sent[id])
    && (forall id :: Got(s, id) <= Got(t, id))
  }

  lemma BitsStayOk(s: System, t: System, id: nat, bits: seq<bv8>)
    requires Extends(s, t) && id in s.sent && BitsOk(s, id, bits)
    ensures BitsOk(t, id, bits)
  {
  }

  lemma {:induction false} DataStays(s: System, t: System)
    requires Extends(s, t) && DataOk(s) && t.data <= s.data
    ensures DataOk(t)
  {
    forall p | p in t.data ensures PacketOk(t, p) {
      assert PacketOk(s, p);
    }
  }

  lemma {:induction false} AcksStay(s: System, t: System)
    requires Extends(s, t) && AcksOk(s) && t.acks <= s.acks
    ensures AcksOk(t)
  {
    forall a | a in t.acks ensures AckOk(t, a) {
      assert AckOk(s, a);
      BitsStayOk(s, t, a.id, a.bits);
    }
  }

  lemma {:induction false} AssemblersStay(s: System, t: System)
    requires Extends(s, t) && AssemblersOk(s)
    requires forall id :: id in t.receiver.assemblers ==>
               id in s.receiver.assemblers && t.receiver.assemblers[id] == s.receiver.assemblers[id]
    ensures AssemblersOk(t)
  {
    forall id | id in t.receiver.assemblers ensures AssemblerOk(t, id) {
      assert AssemblerOk(s, id);
    }
  }

  lemma {:induction false} QueueStays(s: System, t: System)
    requires Extends(s, t) && QueueOk(s) && t.queue == s.queue
    ensures QueueOk(t)
  {
    forall id | id in t.queue ensures EntryOk(t, id) {
      assert EntryOk(s, id);
      BitsStayOk(s, t, id, s.queue[id].acked);
    }
  }

  lemma {:induction false} DeliveriesStay(s: System, t: System)
    requires Extends(s, t) && DeliveriesOk(s) && t.delivered == s.delivered
    ensures DeliveriesOk(t)
  {
    forall i | 0 <= i < |t.delivered| ensures DeliveryOk(t, t.delivered[i]) {
      assert DeliveryOk(s, s.delivered[i]);
    }
  }

  // ----- The steps of the sender, and timeouts -----

  lemma {:induction false} SendKeepsInv(s: System, id: nat, m: Message)
    requires Inv(s) && Enabled(s, Send(id, m))
    ensures Inv(Next(s, Send(id, m)))
  {
    var t := Next(s, Send(id, m));
    forall p | p in t.data ensures PacketOk(t, p) {
      assert p in s.data ==> PacketOk(s, p);
    }
    AcksStay(s, t);
    AssemblersStay(s, t);
    DeliveriesStay(s, t);
    forall i | i in t.queue ensures EntryOk(t, i) {
      assert i in s.queue ==> EntryOk(s, i);
    }
  }

  lemma {:induction false} RetransmitKeepsInv(s: System, id: nat)
    requires Inv(s) && Enabled(s, Retransmit(id))
    ensures Inv(Next(s, Retransmit(id)))
  {
    var t := Next(s, Retransmit(id));
    assert EntryOk(s, id);
    forall p | p in t.data ensures PacketOk(t, p) {
      assert p in s.data ==> PacketOk(s, p);
    }
    AcksStay(s, t);
    AssemblersStay(s, t);
    QueueStays(s, t);
    DeliveriesStay(s, t);
  }

  lemma {:induction false} UnionIsOk(s: System, id: nat, a: seq<bv8>, b: seq<bv8>)
    requires s.mtu > 0 && id in s.sent && BitsOk(s, id, a) && BitsOk(s, id, b)
    ensures BitsOk(s, id, Or(a, b))
  {
    forall j | 0 <= j < 8 * |Or(a, b)| && Has(Or(a, b), j) ensures j in Got(s, id) {
      OrIsUnion(a, b, j);
    }
  }

  /** Once the sender sees everything acknowledged, everything has arrived. */
  lemma {:induction false} AllAckedMeansGotAll(s: System, id: nat, acked: seq<bv8>)
    requires s.mtu > 0 && GotOk(s) && id in s.sent && BitsOk(s, id, acked) && AllAcked(acked, CountOf(s, id))
    ensures GotAll(s, id) && CountOf(s, id) % 8 != 0
  {
    assert Got(s, id) <= Upto(CountOf(s, id));
    forall j: nat | Has(acked, j) ensures j < CountOf(s, id) {
      assert j in Got(s, id);
    }
    AllAckedMeansAll(acked, CountOf(s, id));
  }

  lemma {:induction false} AckedEntryIsOk(s: System, t: System, a: Ack)
    requires Inv(s) && Enabled(s, ReceiveAck(a)) && t == Next(s, ReceiveAck(a)) && Accepts(s.queue, a)
    ensures a.id in t.queue ==> EntryOk(t, a.id)
    ensures a.id !in t.queue ==> a.id in s.sent && GotAll(s, a.id) && CountOf(s, a.id) % 8 != 0
  {
    assert EntryOk(s, a.id) && AckOk(s, a);
    var acked := Or(s.queue[a.id].acked, a.bits);
    UnionIsOk(s, a.id, s.queue[a.id].acked, a.bits);
    if AllAcked(acked, a.count) {
      AllAckedMeansGotAll(s, a.id, acked);
    }
  }

  lemma EntryStaysOk(s: System, t: System, id: nat)
    requires Extends(s, t) && id in s.queue && EntryOk(s, id) && id in t.queue && t.queue[id] == s.queue[id]
    ensures EntryOk(t, id)
  {
  }

  lemma {:induction false} AckKeepsQueue(s: System, t: System, a: Ack)
    requires Inv(s) && Enabled(s, ReceiveAck(a)) && t == Next(s, ReceiveAck(a))
    ensures QueueOk(t)
  {
    if Accepts(s.queue, a) {
      AckedEntryIsOk(s, t, a);
    }
    forall id | id in t.queue ensures EntryOk(t, id) {
      assert EntryOk(s, id);
      if id != a.id || !Accepts(s.queue, a) {
        EntryStaysOk(s, t, id);
      }
    }
  }

  lemma {:induction false} AckKeepsDropped(s: System, t: System, a: Ack)
    requires Inv(s) && Enabled(s, ReceiveAck(a)) && t == Next(s, ReceiveAck(a))
    ensures DroppedOk(t)
  {
    if Accepts(s.queue, a) {
      AckedEntryIsOk(s, t, a);
    }
    assert t.sent == s.sent && t.got == s.got && t.mtu == s.mtu;
    assert forall id :: id in s.queue && id !in t.queue ==> id == a.id && Accepts(s.queue, a);
  }

  lemma {:induction false} ReceiveAckKeepsInv(s: System, a: Ack)
    requires Inv(s) && Enabled(s, ReceiveAck(a))
    ensures Inv(Next(s, ReceiveAck(a)))
  {
    var t := Next(s, ReceiveAck(a));
    DataStays(s, t);
    AcksStay(s, t);
    AssemblersStay(s, t);
    DeliveriesStay(s, t);
    AckKeepsQueue(s, t, a);
    AckKeepsDropped(s, t, a);
  }

  lemma {:induction false} TimeOutKeepsInv(s: System, ids: set<nat>)
    requires Inv(s) && Enabled(s, TimeOut(ids))
    ensures Inv(Next(s, TimeOut(ids)))
  {
    var t := Next(s, TimeOut(ids));
    DataStays(s, t);
    AcksStay(s, t);
    AssemblersStay(s, t);
    QueueStays(s, t);
    DeliveriesStay(s, t);
  }

  // ----- Receiving data -----

  lemma {:induction false} PartsAreOk(s: System, p: Packet)
    requires Inv(s) && p in s.data && p.count >= 2
    ensures p.id in s.sent && p.count == CountOf(s, p.id) && p.no < p.count
    ensures PartsOf(Parts(s.receiver, p.id), s.sent[p.id].payload, s.mtu)
    ensures p.data == Chunk(s.sent[p.id].payload, s.mtu, p.no)
    ensures Parts(s.receiver, p.id).Keys <= Got(s, p.id) <= Upto(p.count)
    ensures !Stale(Parts(s.receiver, p.id), p.count)
  {
    assert PacketOk(s, p);
    assert p.id in s.receiver.assemblers ==> AssemblerOk(s, p.id);
  }

  lemma {:induction false} CountedKeys(parts: map<nat, Bytes>, count: nat)
    requires parts.Keys <= Upto(count)
    ensures |parts| <= count && (|parts| == count <==> parts.Keys == Upto(count))
  {
    assert |parts.Keys| == |parts|;
    CompleteWhenCounted(parts.Keys, count);
    SubsetSize(parts.Keys, Upto(count));
  }

  /** Storing an honest fragment never purges, keeps the parts honest, and counts distinct fragments. */
  lemma {:induction false} StoredIsOk(s: System, p: Packet)
    requires Inv(s) && p in s.data && p.count >= 2
    ensures p.id in s.sent && p.count == CountOf(s, p.id) && p.no < p.count
    ensures Stored(s.receiver, p) == Parts(s.receiver, p.id)[p.no := p.data]
    ensures Stored(s.receiver, p).Keys == Parts(s.receiver, p.id).Keys + {p.no}
    ensures Stored(s.receiver, p).Keys <= Got(s, p.id) + {p.no} <= Upto(p.count)
    ensures |Stored(s.receiver, p)| <= p.count
    ensures |Stored(s.receiver, p)| == p.count <==> Stored(s.receiver, p).Keys == Upto(p.count)
  {
    PartsAreOk(s, p);
    CountedKeys(Stored(s.receiver, p), p.count);
  }

  lemma {:induction false} StoredPartsAreOk(s: System, p: Packet)
    requires Inv(s) && p in s.data && p.count >= 2
    ensures p.id in s.sent && PartsOf(Stored(s.receiver, p), s.sent[p.id].payload, s.mtu)
  {
    PartsAreOk(s, p);
  }

  lemma {:induction false} SoloPayload(payload: Bytes, mtu: nat)
    requires mtu > 0 && Count(|payload|, mtu) == 1
    ensures Chunk(payload, mtu, 0) == payload
  {
    FragmentFits(|payload|, mtu, 0);
  }

  lemma {:induction false} StoredCompletes(s: System, p: Packet)
    requires Inv(s) && p in s.data && p.count >= 2 && |Stored(s.receiver, p)| == p.count
    ensures p.id in s.sent && p.count == CountOf(s, p.id)
    ensures Stored(s.receiver, p).Keys == Upto(p.count)
    ensures PartsOf(Stored(s.receiver, p), s.sent[p.id].payload, s.mtu)
  {
    StoredIsOk(s, p);
    StoredPartsAreOk(s, p);
  }

  lemma {:induction false} StoredGotAll(s: System, p: Packet)
    requires Inv(s) && p in s.data && p.count >= 2 && |Stored(s.receiver, p)| == p.count
    ensures p.id in s.sent && Got(s, p.id) + {p.no} == Upto(p.count)
  {
    StoredIsOk(s, p);
  }

  lemma {:induction false} SoloCompletes(s: System, p: Packet)
    requires Inv(s) && p in s.data && p.count == 1
    ensures p.id in s.sent && p.data == s.sent[p.id].payload
    ensures Got(s, p.id) + {p.no} == Upto(p.count)
  {
    assert PacketOk(s, p);
    assert Got(s, p.id) <= Upto(p.count);
    SoloPayload(s.sent[p.id].payload, s.mtu);
  }

  lemma {:induction false} AssembledPayload(s: System, p: Packet, parts: map<nat, Bytes>)
    requires s.mtu > 0 && p.id in s.sent && p.count == CountOf(s, p.id)
    requires parts.Keys == Upto(p.count) && PartsOf(parts, s.sent[p.id].payload, s.mtu)
    ensures InOrder(parts, p.count + 1) == s.sent[p.id].payload
  {
    AllPartsAssemble(parts, s.sent[p.id].payload, s.mtu, p.count + 1);
  }

  lemma {:induction false} CompletedIsOk(s: System, p: Packet)
    requires Inv(s) && p in s.data && Completes(s.receiver, p).Some?
    ensures DeliveryOk(s, Completes(s.receiver, p).value) && Completes(s.receiver, p).value.id == p.id
    ensures Got(s, p.id) + {p.no} == Upto(CountOf(s, p.id))
  {
    assert PacketOk(s, p);
    if p.count == 1 {
      SoloCompletes(s, p);
    } else {
      StoredCompletes(s, p);
      AssembledPayload(s, p, Stored(s.receiver, p));
      StoredGotAll(s, p);
    }
  }

  lemma {:induction false} AcknowledgedIsGot(s: System, p: Packet)
    requires Inv(s) && p in s.data && Acknowledges(s.receiver, p).Some?
    ensures Acknowledges(s.receiver, p).value <= Got(s, p.id) + {p.no}
  {
    assert PacketOk(s, p);
    if !IsRepeat(s.receiver, p) && p.count != 1 {
      StoredIsOk(s, p);
    }
  }

  lemma {:induction false} OldAssemblerIsOk(s: System, t: System, id: nat)
    requires Extends(s, t) && id in s.receiver.assemblers && AssemblerOk(s, id)
    requires id in t.receiver.assemblers && t.receiver.assemblers[id] == s.receiver.assemblers[id]
    ensures AssemblerOk(t, id)
  {
  }

  lemma {:induction false} GrownAssemblerIsOk(s: System, t: System, p: Packet)
    requires Inv(s) && p in s.data && p.count >= 2 && t.mtu == s.mtu && t.sent == s.sent
    requires p.id in t.receiver.assemblers && t.receiver.assemblers[p.id] == Stored(s.receiver, p)
    requires |Stored(s.receiver, p)| != p.count && Got(t, p.id) == Got(s, p.id) + {p.no}
    ensures AssemblerOk(t, p.id)
  {
    StoredIsOk(s, p);
    StoredPartsAreOk(s, p);
  }

  /** A data packet leaves an assembler as it was, or stores a fragment in the one of its id. */
  lemma {:induction false} AssemblersAfter(r: Receiver, p: Packet, id: nat)
    requires id in After(r, p).assemblers
    ensures (id in r.assemblers && After(r, p).assemblers[id] == r.assemblers[id]) ||
            (id == p.id && p.count != 1 && After(r, p).assemblers[id] == Stored(r, p) && |Stored(r, p)| != p.count)
  {
  }

  lemma {:induction false} NewAssemblerIsOk(s: System, t: System, p: Packet, bits: seq<bv8>, id: nat)
    requires Inv(s) && Enabled(s, ReceiveData(p, bits)) && t == Next(s, ReceiveData(p, bits))
    requires id in t.receiver.assemblers
    ensures AssemblerOk(t, id)
  {
    assert PacketOk(s, p);
    ReceiveExtends(s, t, p, bits);
    AssemblersAfter(s.receiver, p, id);
    if id in s.receiver.assemblers && t.receiver.assemblers[id] == s.receiver.assemblers[id] {
      OldAssemblerIsOk(s, t, id);
    } else {
      GrownAssemblerIsOk(s, t, p);
    }
  }

  lemma {:induction false} GotAfter(s: System, t: System, p: Packet, bits: seq<bv8>)
    requires Enabled(s, ReceiveData(p, bits)) && t == Next(s, ReceiveData(p, bits))
    ensures t.mtu == s.mtu && t.sent == s.sent && t.data == s.data && t.queue == s.queue
    ensures Got(t, p.id) == Got(s, p.id) + {p.no}
    ensures forall id :: id != p.id ==> Got(t, id) == Got(s, id)
  {
  }

  lemma {:induction false} GotIsSmall(s: System, p: Packet)
    requires Inv(s) && p in s.data
    ensures p.id in s.sent && p.count == CountOf(s, p.id) && Got(s, p.id) + {p.no} <= Upto(p.count)
  {
    assert PacketOk(s, p);
    assert Got(s, p.id) <= Upto(p.count);
  }

  lemma {:induction false} ReceiveExtends(s: System, t: System, p: Packet, bits: seq<bv8>)
    requires Inv(s) && Enabled(s, ReceiveData(p, bits)) && t == Next(s, ReceiveData(p, bits))
    ensures Extends(s, t) && t.sent == s.sent && t.data == s.data && t.queue == s.queue
    ensures Got(t, p.id) == Got(s, p.id) + {p.no} <= Upto(CountOf(t, p.id))
    ensures forall id :: id != p.id ==> Got(t, id) == Got(s, id)
  {
    GotAfter(s, t, p, bits);
    GotIsSmall(s, p);
  }

  lemma {:induction false} NewAcksAreOk(s: System, t: System, p: Packet, bits: seq<bv8>)
    requires Inv(s) && Enabled(s, ReceiveData(p, bits)) && t == Next(s, ReceiveData(p, bits))
    ensures AcksOk(t)
  {
    assert PacketOk(s, p);
    ReceiveExtends(s, t, p, bits);
    forall a | a in t.acks ensures AckOk(t, a) {
      if a in s.acks {
        assert AckOk(s, a);
        BitsStayOk(s, t, a.id, a.bits);
      } else {
        AcknowledgedIsGot(s, p);
      }
    }
  }

  lemma {:induction false} NewDeliveriesAreOk(s: System, t: System, p: Packet, bits: seq<bv8>)
    requires Inv(s) && Enabled(s, ReceiveData(p, bits)) && t == Next(s, ReceiveData(p, bits))
    ensures DeliveriesOk(t)
  {
    if Completes(s.receiver, p).Some? {
      CompletedIsOk(s, p);
    }
    forall i | 0 <= i < |t.delivered| ensures DeliveryOk(t, t.delivered[i]) {
      assert i < |s.delivered| ==> DeliveryOk(s, s.delivered[i]);
    }
  }

  lemma {:induction false} GotAllStays(s: System, t: System, p: Packet, bits: seq<bv8>, id: nat)
    requires Inv(s) && Enabled(s, ReceiveData(p, bits)) && t == Next(s, ReceiveData(p, bits))
    requires id in s.sent && GotAll(s, id)
    ensures GotAll(t, id)
  {
    ReceiveExtends(s, t, p, bits);
  }

  lemma {:induction false} NewRecentIsOk(s: System, t: System, p: Packet, bits: seq<bv8>)
    requires Inv(s) && Enabled(s, ReceiveData(p, bits)) && t == Next(s, ReceiveData(p, bits))
    ensures RecentOk(t)
  {
    assert PacketOk(s, p);
    ReceiveExtends(s, t, p, bits);
    forall id | id in t.receiver.recent ensures id in t.sent && GotAll(t, id) {
      if id in s.receiver.recent {
        GotAllStays(s, t, p, bits, id);
      } else {
        CompletedIsOk(s, p);
      }
    }
  }

  lemma {:induction false} ReceiveDataKeepsInv(s: System, p: Packet, bits: seq<bv8>)
    requires Inv(s) && Enabled(s, ReceiveData(p, bits))
    ensures Inv(Next(s, ReceiveData(p, bits)))
  {
    var t := Next(s, ReceiveData(p, bits));
    assert PacketOk(s, p);
    ReceiveExtends(s, t, p, bits);
    DataStays(s, t);
    QueueStays(s, t);
    NewAcksAreOk(s, t, p, bits);
    NewDeliveriesAreOk(s, t, p, bits);
    NewRecentIsOk(s, t, p, bits);
    forall id | id in t.receiver.assemblers ensures AssemblerOk(t, id) {
      NewAssemblerIsOk(s, t, p, bits, id);
    }
    forall id | id in t.sent && t.sent[id].reliable && id !in t.queue
      ensures GotAll(t, id) && CountOf(t, id) % 8 != 0
    {
      GotAllStays(s, t, p, bits, id);
    }
  }

  lemma {:induction false} DeliveredGrows(s: System, t: System, p: Packet, bits: seq<bv8>, id: nat)
    requires Inv(s) && Enabled(s, ReceiveData(p, bits)) && t == Next(s, ReceiveData(p, bits))
    ensures WasDelivered(t, id) <==> WasDelivered(s, id) || (id == p.id && Completes(s.receiver, p).Some?)
  {
    if Completes(s.receiver, p).Some? {
      CompletedIsOk(s, p);
      HasIdAppend(s.delivered, Completes(s.receiver, p).value, id);
    }
  }
}
