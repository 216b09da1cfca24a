/** The bitsets of acknowledged fragments: bit `i % 8` of byte `i / 8` stands for fragment `i`. */
module AckBits {

  /** `uint8_t(1 << k)` */
  function Bit(k: nat): bv8
    requires k < 8
  {
    (1 as bv8) << k
  }

  lemma BitValues()
    ensures Bit(0) == 1 && Bit(1) == 2 && Bit(2) == 4 && Bit(3) == 8
    ensures Bit(4) == 16 && Bit(5) == 32 && Bit(6) == 64 && Bit(7) == 128
  {
  }

  predicate Has(bits: seq<bv8>, i: nat) {
    i / 8 < |bits| && bits[i / 8] & Bit(i % 8) != 0
  }

  /** The number of bytes that an acknowledgement of `count` fragments carries. */
  function Size(count: nat): nat {
    count / 8 + 1
  }

  function Set(bits: seq<bv8>, i: nat): (r: seq<bv8>)
    requires i / 8 < |bits|
    ensures |r| == |bits|
  {
    bits[i / 8 := bits[i / 8] | Bit(i % 8)]
  }

  lemma {:induction false} BitOr(b: bv8, c: bv8, k: nat)
    requires k < 8
    ensures (b | c) & Bit(k) != 0 <==> b & Bit(k) != 0 || c & Bit(k) != 0
  {
    BitValues();
    assert k == 0 || k == 1 || k == 2 || k == 3 || k == 4 || k == 5 || k == 6 || k == 7;
  }

  lemma {:induction false} BitOnly(j: nat, k: nat)
    requires j < 8 && k < 8
    ensures Bit(j) & Bit(k) != 0 <==> j == k
  {
    BitValues();
    assert j == 0 || j == 1 || j == 2 || j == 3 || j == 4 || j == 5 || j == 6 || j == 7;
    assert k == 0 || k == 1 || k == 2 || k == 3 || k == 4 || k == 5 || k == 6 || k == 7;
  }

  lemma {:induction false} SetAddsOne(bits: seq<bv8>, i: nat, j: nat)
    requires i / 8 < |bits|
    ensures Has(Set(bits, i), j) <==> j == i || Has(bits, j)
  {
    if j / 8 == i / 8 {
      BitOr(bits[i / 8], Bit(i % 8), j % 8);
      BitOnly(i % 8, j % 8);
    }
  }

  /** What the sender expects in byte `i` of `size` bytes once everything has been acknowledged. */
  function Expected(i: nat, size: nat, count: nat): bv8 {
    if i + 1 < size || count % 8 == 0 then 0xFF else (0xFF as bv8) >> (8 - count % 8)
  }

  predicate ByteAcked(b: bv8, i: nat, size: nat, count: nat) {
    b & Expected(i, size, count) == Expected(i, size, count)
  }

  predicate AllAcked(acked: seq<bv8>, count: nat) {
    forall i :: 0 <= i < |acked| ==> ByteAcked(acked[i], i, |acked|, count)
  }

  /** The low `m` bits of a byte. */
  function Mask(m: nat): bv8
    requires 1 <= m <= 8
  {
    (0xFF as bv8) >> (8 - m)
  }

  lemma {:induction false} MaskGrows(b: bv8, m: nat)
    requires 1 <= m <= 7
    ensures b & Mask(m + 1) == Mask(m + 1) <==> b & Mask(m) == Mask(m) && b & Bit(m) != 0
  {
    BitValues();
    assert Mask(1) == 0x01 && Mask(2) == 0x03 && Mask(3) == 0x07 && Mask(4) == 0x0F;
    assert Mask(5) == 0x1F && Mask(6) == 0x3F && Mask(7) == 0x7F && Mask(8) == 0xFF;
    assert m == 1 || m == 2 || m == 3 || m == 4 || m == 5 || m == 6 || m == 7;
  }

  /** A byte has the low `m` bits exactly when it has each of them. */
  lemma {:induction false} LowBits(b: bv8, m: nat)
    requires 1 <= m <= 8
    ensures b & Mask(m) == Mask(m) <==> forall k :: 0 <= k < m ==> b & Bit(k) != 0
  {
    BitValues();
    if m == 1 {
      assert Mask(1) == 0x01 && (b & 1 == 1 <==> b & 1 != 0);
    } else {
      LowBits(b, m - 1);
      MaskGrows(b, m - 1);
    }
  }

  /** The number of fragments whose bits the sender waits for. */
  function Awaited(count: nat): nat {
    if count % 8 == 0 then count + 8 else count
  }

  lemma BitOfByte(bits: seq<bv8>, i: nat, k: nat)
    requires i < |bits| && k < 8
    ensures Has(bits, 8 * i + k) <==> bits[i] & Bit(k) != 0
  {
    assert (8 * i + k) / 8 == i && (8 * i + k) % 8 == k;
  }

  /** How many bits the sender looks at in byte `i`. */
  function ByteCount(i: nat, count: nat): (m: nat)
    ensures 1 <= m <= 8
  {
    if i + 1 < Size(count) || count % 8 == 0 then 8 else count % 8
  }

  lemma AwaitedInByte(count: nat, j: nat)
    requires j / 8 < Size(count)
    ensures j < Awaited(count) <==> j % 8 < ByteCount(j / 8, count)
  {
  }

  /** One byte of the masked comparison looks at exactly the awaited fragments of that byte. */
  lemma {:induction false} ByteIsAwaited(acked: seq<bv8>, count: nat, i: nat)
    requires |acked| == Size(count) && i < |acked|
    ensures ByteAcked(acked[i], i, |acked|, count) <==>
            forall j: nat :: j / 8 == i && j < Awaited(count) ==> Has(acked, j)
  {
    var m := ByteCount(i, count);
    assert Expected(i, |acked|, count) == Mask(m);
    LowBits(acked[i], m);
    if forall k :: 0 <= k < m ==> acked[i] & Bit(k) != 0 {
      forall j: nat | j / 8 == i && j < Awaited(count) ensures Has(acked, j) {
        AwaitedInByte(count, j);
      }
    } else {
      var k :| 0 <= k < m && acked[i] & Bit(k) == 0;
      var j := 8 * i + k;
      assert j / 8 == i && j % 8 == k;
      AwaitedInByte(count, j);
      BitOfByte(acked, i, k);
    }
  }

  /** The loop over the bytes sees everything acknowledged exactly when every awaited bit is set. */
  lemma {:induction false} AllAckedIsAwaited(acked: seq<bv8>, count: nat)
    requires |acked| == Size(count)
    ensures AllAcked(acked, count) <==> forall j: nat :: j < Awaited(count) ==> Has(acked, j)
  {
    if AllAcked(acked, count) {
      forall j: nat | j < Awaited(count) ensures Has(acked, j) {
        ByteIsAwaited(acked, count, j / 8);
      }
    }
    if forall j: nat :: j < Awaited(count) ==> Has(acked, j) {
      forall i | 0 <= i < |acked| ensures ByteAcked(acked[i], i, |acked|, count) {
        ByteIsAwaited(acked, count, i);
      }
    }
  }

  /**
   * When only fragments that exist are acknowledged, the sender sees everything acknowledged exactly when every
   * fragment is and their number is not a multiple of 8.
   */
  lemma {:induction false} AllAckedMeansAll(acked: seq<bv8>, count: nat)
    requires |acked| == Size(count)
    requires forall j: nat :: Has(acked, j) ==> j < count
    ensures AllAcked(acked, count) <==> count % 8 != 0 && forall j: nat :: j < count ==> Has(acked, j)
  {
    AllAckedIsAwaited(acked, count);
    assert !Has(acked, count);
  }

  // ----- The loops -----

  function Zeros(count: nat): (r: seq<bv8>)
    ensures |r| == Size(count)
    ensures forall j :: !Has(r, j)
  {
    seq(Size(count), _ => 0)
  }

  function Or(a: seq<bv8>, b: seq<bv8>): (r: seq<bv8>)
    requires |a| == |b|
    ensures |r| == |a|
  {
    seq(|a|, i requires 0 <= i < |a| => a[i] | b[i])
  }

  /** Or-ing byte by byte is the union of the sets. */
  lemma {:induction false} OrIsUnion(a: seq<bv8>, b: seq<bv8>, j: nat)
    requires |a| == |b|
    ensures Has(Or(a, b), j) <==> Has(a, j) || Has(b, j)
  {
    if j / 8 < |a| {
      BitOr(a[j / 8], b[j / 8], j % 8);
    }
  }

  /** Sets one bit for every received fragment, as for the acknowledgement that a receiver sends. */
  method BuildAck(received: set<nat>, count: nat) returns (bits: seq<bv8>)
    requires forall i :: i in received ==> i <= count
    ensures |bits| == Size(count)
    ensures forall j :: Has(bits, j) <==> j in received
  {
    bits := Zeros(count);
    var rest := received;
    while rest != {}
      invariant rest <= received && |bits| == Size(count)
      invariant forall j :: Has(bits, j) <==> j in received - rest
    {
      var i :| i in rest;
      forall j ensures Has(Set(bits, i), j) <==> j in received - (rest - {i}) {
        SetAddsOne(bits, i, j);
      }
      bits := Set(bits, i);
      rest := rest - {i};
    }
  }

  /** Adds the bits of an acknowledgement and reports whether everything has now been acknowledged. */
  method AddAcks(acked: seq<bv8>, packets: seq<bv8>, count: nat) returns (r: seq<bv8>, allAcked: bool)
    requires |acked| == |packets| == Size(count)
    ensures r == Or(acked, packets)
    ensures allAcked <==> AllAcked(r, count)
  {
    r, allAcked := acked, true;
    var i := 0;
    while i < |r|
      invariant i <= |r| == |acked|
      invariant forall j :: 0 <= j < i ==> r[j] == acked[j] | packets[j]
      invariant forall j :: i <= j < |r| ==> r[j] == acked[j]
      invariant allAcked <==> forall j :: 0 <= j < i ==> ByteAcked(r[j], j, |r|, count)
    {
      r := r[i := r[i] | packets[i]];
      allAcked := allAcked && ByteAcked(r[i], i, |r|, count);
      i := i + 1;
    }
  }

  /** The fragments that a retransmission sends again. */
  method Unacked(acked: seq<bv8>, count: nat) returns (resend: seq<nat>)
    requires |acked| == Size(count)
    ensures forall j: nat :: j in resend <==> j < count && !Has(acked, j)
    ensures forall i, j :: 0 <= i < j < |resend| ==> resend[i] < resend[j]
  {
    resend := [];
    var i := 0;
    while i < count
      invariant i <= count
      invariant forall j: nat :: j in resend <==> j < i && !Has(acked, j)
      invariant forall k, j :: 0 <= k < j < |resend| ==> resend[k] < resend[j]
    {
      if acked[i / 8] & Bit(i % 8) == 0 {
        assert forall k :: 0 <= k < |resend| ==> resend[k] in resend;
        resend := resend + [i];
      }
      i := i + 1;
    }
  }
}
