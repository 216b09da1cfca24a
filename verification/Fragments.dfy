/** Splitting a payload into datagrams and putting it together again. */
module Fragments {
  import opened Sets

  type Bytes = seq<bv8>

  /** The number of fragments; the last one may be empty. */
  function Count(size: nat, mtu: nat): (count: nat)
    requires mtu > 0
    ensures count >= 1
  {
    size / mtu + 1
  }

  lemma {:induction false} MulIsMonotone(a: nat, b: nat, m: nat)
    requires a <= b
    ensures a * m <= b * m
  {
  }

  lemma {:induction false} FragmentFits(size: nat, mtu: nat, i: nat)
    requires mtu > 0 && i < Count(size, mtu)
    ensures i + 1 < Count(size, mtu) ==> (i + 1) * mtu <= size
    ensures i + 1 == Count(size, mtu) ==> i * mtu + size % mtu == size
  {
    if i + 1 < Count(size, mtu) {
      MulIsMonotone(i + 1, size / mtu, mtu);
    }
  }

  /** The bytes that `send_packet` puts into fragment `i`. */
  function Chunk(payload: Bytes, mtu: nat, i: nat): Bytes
    requires mtu > 0 && i < Count(|payload|, mtu)
  {
    FragmentFits(|payload|, mtu, i);
    var start := i * mtu;
    var len := if i + 1 < Count(|payload|, mtu) then mtu else |payload| % mtu;
    assert start + len <= |payload| by { assert (i + 1) * mtu == i * mtu + mtu; }
    payload[start..start + len]
  }

  /** The parts with numbers below `n`, in ascending order, one after another. */
  function InOrder(parts: map<nat, Bytes>, n: nat): Bytes {
    if n == 0 then []
    else InOrder(parts, n - 1) + (if n - 1 in parts then parts[n - 1] else [])
  }

  predicate PartsOf(parts: map<nat, Bytes>, payload: Bytes, mtu: nat)
    requires mtu > 0
  {
    forall i :: i in parts ==> i < Count(|payload|, mtu) && parts[i] == Chunk(payload, mtu, i)
  }

  lemma {:induction false} PrefixAssembles(parts: map<nat, Bytes>, payload: Bytes, mtu: nat, n: nat)
    requires mtu > 0 && n < Count(|payload|, mtu) && PartsOf(parts, payload, mtu)
    requires forall i :: 0 <= i < n ==> i in parts
    ensures n * mtu <= |payload| && InOrder(parts, n) == payload[..n * mtu]
  {
    if n > 0 {
      PrefixAssembles(parts, payload, mtu, n - 1);
      FragmentFits(|payload|, mtu, n - 1);
      assert n * mtu == (n - 1) * mtu + mtu;
      assert payload[..n * mtu] == payload[..(n - 1) * mtu] + payload[(n - 1) * mtu..n * mtu];
    }
  }

  lemma {:induction false} NothingAbove(parts: map<nat, Bytes>, count: nat, n: nat)
    requires count <= n && forall i :: i in parts ==> i < count
    ensures InOrder(parts, n) == InOrder(parts, count)
  {
    if count < n {
      NothingAbove(parts, count, n - 1);
    }
  }

  lemma {:induction false} LastChunk(payload: Bytes, mtu: nat, last: nat, cut: nat)
    requires mtu > 0 && last + 1 == Count(|payload|, mtu) && cut == last * mtu <= |payload|
    ensures Chunk(payload, mtu, last) == payload[cut..]
  {
    FragmentFits(|payload|, mtu, last);
  }

  /** Where the last fragment begins. */
  lemma {:induction false} LastCut(parts: map<nat, Bytes>, payload: Bytes, mtu: nat, last: nat) returns (cut: nat)
    requires mtu > 0 && last + 1 == Count(|payload|, mtu) && PartsOf(parts, payload, mtu)
    requires forall i :: 0 <= i < last ==> i in parts
    ensures cut <= |payload| && InOrder(parts, last) == payload[..cut] && Chunk(payload, mtu, last) == payload[cut..]
  {
    cut := last * mtu;
    PrefixAssembles(parts, payload, mtu, last);
    LastChunk(payload, mtu, last, cut);
  }

  lemma {:induction false} PrefixAndLast(parts: map<nat, Bytes>, payload: Bytes, last: nat, cut: nat, n: nat)
    requires last in parts && last < n && forall i :: i in parts ==> i <= last
    requires cut <= |payload| && InOrder(parts, last) == payload[..cut] && parts[last] == payload[cut..]
    ensures InOrder(parts, n) == payload
  {
    NothingAbove(parts, last + 1, n);
    assert payload == payload[..cut] + payload[cut..];
  }

  /** All fragments of a payload, joined in order, are the payload, also when its size is a multiple of the mtu. */
  lemma {:induction false} AssemblesToPayload(parts: map<nat, Bytes>, payload: Bytes, mtu: nat, n: nat)
    requires mtu > 0 && PartsOf(parts, payload, mtu) && Count(|payload|, mtu) <= n
    requires forall i :: 0 <= i < Count(|payload|, mtu) ==> i in parts
    ensures InOrder(parts, n) == payload
  {
    var last := Count(|payload|, mtu) - 1;
    var cut := LastCut(parts, payload, mtu, last);
    PrefixAndLast(parts, payload, last, cut, n);
  }

  lemma {:induction false} AllPartsAssemble(parts: map<nat, Bytes>, payload: Bytes, mtu: nat, n: nat)
    requires mtu > 0 && PartsOf(parts, payload, mtu) && parts.Keys == Upto(Count(|payload|, mtu))
    requires Count(|payload|, mtu) <= n
    ensures InOrder(parts, n) == payload
  {
    forall i | 0 <= i < Count(|payload|, mtu) ensures i in parts {
      assert i in parts.Keys;
    }
    AssemblesToPayload(parts, payload, mtu, n);
  }
}
