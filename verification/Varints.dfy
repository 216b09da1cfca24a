/** Integers on the wire: base 128 varints, varints of a fixed width, and little-endian integers. */
module Varints {
  import opened Options

  type Byte = b: nat | b < 256

  datatype Read = Read(value: nat, rest: seq<Byte>)

  function Varint(v: nat): (s: seq<Byte>)
    ensures |s| >= 1
  {
    if v < 128 then [v] else [v % 128 + 128] + Varint(v / 128)
  }

  /** Takes one varint of any length off the front. */
  function ReadVarint(s: seq<Byte>): (r: Option<Read>)
    ensures r.Some? ==> |r.value.rest| < |s|
  {
    if s == [] then None
    else if s[0] < 128 then Some(Read(s[0], s[1..]))
    else
      match ReadVarint(s[1..])
      case None => None
      case Some(r) => Some(Read(s[0] - 128 + 128 * r.value, r.rest))
  }

  lemma {:induction false} VarintRoundTrip(v: nat, rest: seq<Byte>)
    ensures ReadVarint(Varint(v) + rest) == Some(Read(v, rest))
  {
    var s := Varint(v) + rest;
    if v < 128 {
      assert s[1..] == rest;
    } else {
      VarintRoundTrip(v / 128, rest);
      assert s[1..] == Varint(v / 128) + rest;
    }
  }

  function Power(base: nat, n: nat): (p: nat)
    requires base > 0
    ensures p > 0
  {
    if n == 0 then 1 else base * Power(base, n - 1)
  }

  lemma {:induction false} DivBelow(v: nat, base: nat, bound: nat)
    requires base > 0
    ensures v / base < bound <==> v < base * bound
  {
    assert v == base * (v / base) + v % base;
    if v / base < bound {
      assert v / base + 1 <= bound;
      MulMonotone(base, v / base + 1, bound);
    } else {
      MulMonotone(base, bound, v / base);
    }
  }

  lemma MulMonotone(a: nat, b: nat, c: nat)
    requires b <= c
    ensures a * b <= a * c
  {
  }

  /** The length is the least number of groups of seven bits that hold the value. */
  lemma {:induction false} VarintLength(v: nat, n: nat)
    requires n >= 1
    ensures |Varint(v)| <= n <==> v < Power(128, n)
  {
    if n == 1 {
      assert Power(128, 1) == 128 * Power(128, 0);
    } else if v >= 128 {
      VarintLength(v / 128, n - 1);
      DivBelow(v, 128, Power(128, n - 1));
    } else {
      MulMonotone(128, 1, Power(128, n - 1));
    }
  }

  lemma {:induction false} WideVarints(v: nat)
    ensures v < 0x1_0000_0000 ==> |Varint(v)| <= 5
    ensures v < 0x1_0000_0000_0000_0000 ==> |Varint(v)| <= 10
  {
    VarintLength(v, 5);
    VarintLength(v, 10);
    assert Power(128, 5) == 0x8_0000_0000 by {
      assert Power(128, 3) == 128 * (128 * (128 * Power(128, 0)));
      assert Power(128, 5) == 128 * (128 * Power(128, 3));
    }
    assert Power(128, 10) == 0x40_0000_0000_0000_0000 by {
      assert Power(128, 8) == 128 * (128 * (128 * Power(128, 5)));
      assert Power(128, 10) == 128 * (128 * Power(128, 8));
    }
  }

  /** No encoding that decodes to the value is shorter. */
  lemma {:induction false} VarintIsMinimal(s: seq<Byte>, v: nat, rest: seq<Byte>)
    requires ReadVarint(s) == Some(Read(v, rest))
    ensures |s| - |rest| >= |Varint(v)|
  {
    if s[0] >= 128 {
      var r := ReadVarint(s[1..]).value;
      VarintIsMinimal(s[1..], r.value, rest);
      if v >= 128 {
        assert v / 128 == r.value;
      }
    }
  }

  lemma {:induction false} VarintGrows(u: nat, v: nat)
    requires u <= v
    ensures |Varint(u)| <= |Varint(v)|
  {
    VarintLength(v, |Varint(v)|);
    VarintLength(u, |Varint(v)|);
  }

  /** `n` bytes, whatever the value is. */
  function Redundant(v: nat, n: nat): (s: seq<Byte>)
    requires n >= 1
    ensures |s| == n
  {
    if n == 1 then [v % 128] else [v % 128 + 128] + Redundant(v / 128, n - 1)
  }

  lemma {:induction false} Regroup(base: nat, q: nat, m: nat, a: nat, e: nat)
    requires a < base && e < q
    ensures a + base * e < base * q
    ensures base * (q * m + e) + a == (base * q) * m + (a + base * e)
  {
    assert a + base * e < base * (e + 1);
    MulMonotone(base, e + 1, q);
    assert base * (q * m) == (base * q) * m;
  }

  lemma {:induction false} FromDigits(base: nat, q: nat, m: nat, a: nat, e: nat)
    requires a < base && e < q
    ensures base * q > 0 && (base * (q * m + e) + a) % (base * q) == a + base * e
  {
    Regroup(base, q, m, a, e);
    ModFromParts(base * (q * m + e) + a, base * q, m, a + base * e);
  }

  lemma DivMod(v: nat, base: nat)
    requires base > 0
    ensures v == base * (v / base) + v % base && v % base < base
  {
  }

  lemma {:induction false} DigitsBelow(v: nat, base: nat, q: nat)
    requires base > 0 && q > 0
    ensures base * q > 0 && v % base + base * ((v / base) % q) == v % (base * q)
  {
    DivMod(v, base);
    DivMod(v / base, q);
    FromDigits(base, q, v / base / q, v % base, (v / base) % q);
  }

  lemma SmallMod(v: nat, p: nat)
    requires p > 0
    ensures v % p == v <==> v < p
  {
  }

  lemma {:induction false} ModFromParts(v: nat, k: nat, m: nat, r: nat)
    requires v == k * m + r && r < k
    ensures v % k == r
  {
    var d := v / k;
    assert v == k * d + v % k;
    assert k * (d - m) == r - v % k;
    if d > m {
      MulMonotone(k, 1, d - m);
    } else if d < m {
      MulMonotone(k, 1, m - d);
    }
  }

  lemma ReadsOn(s: seq<Byte>, low: nat, high: nat, rest: seq<Byte>)
    requires s != [] && s[0] == low + 128 && ReadVarint(s[1..]) == Some(Read(high, rest))
    ensures ReadVarint(s) == Some(Read(low + 128 * high, rest))
  {
  }

  lemma {:induction false} RedundantRoundTrip(v: nat, n: nat, rest: seq<Byte>)
    requires n >= 1
    ensures ReadVarint(Redundant(v, n) + rest) == Some(Read(v % Power(128, n), rest))
  {
    var s := Redundant(v, n) + rest;
    if n == 1 {
      assert s[1..] == rest && Power(128, 1) == 128 * Power(128, 0);
    } else {
      RedundantRoundTrip(v / 128, n - 1, rest);
      assert s[1..] == Redundant(v / 128, n - 1) + rest;
      DigitsBelow(v, 128, Power(128, n - 1));
      ReadsOn(s, v % 128, v / 128 % Power(128, n - 1), rest);
    }
  }

  /** A varint of fixed width reads back as the value exactly when the value fits. */
  lemma {:induction false} RedundantExactly(v: nat, n: nat, rest: seq<Byte>)
    requires n >= 1
    ensures ReadVarint(Redundant(v, n) + rest) == Some(Read(v, rest)) <==> v < Power(128, n)
  {
    RedundantRoundTrip(v, n, rest);
    SmallMod(v, Power(128, n));
  }

  /** `n` bytes, the least significant first. */
  function Fixed(v: nat, n: nat): (s: seq<Byte>)
    ensures |s| == n
  {
    if n == 0 then [] else [v % 256] + Fixed(v / 256, n - 1)
  }

  function ReadFixed(s: seq<Byte>, n: nat): Option<Read> {
    if n == 0 then Some(Read(0, s))
    else if s == [] then None
    else
      match ReadFixed(s[1..], n - 1)
      case None => None
      case Some(r) => Some(Read(s[0] + 256 * r.value, r.rest))
  }

  lemma {:induction false} FixedRoundTrip(v: nat, n: nat, rest: seq<Byte>)
    ensures ReadFixed(Fixed(v, n) + rest, n) == Some(Read(v % Power(256, n), rest))
  {
    var s := Fixed(v, n) + rest;
    if n == 0 {
      assert s == rest;
    } else {
      FixedRoundTrip(v / 256, n - 1, rest);
      assert s[1..] == Fixed(v / 256, n - 1) + rest;
      DigitsBelow(v, 256, Power(256, n - 1));
    }
  }

  lemma {:induction false} ReadFixedBound(s: seq<Byte>, n: nat, u: nat, rest: seq<Byte>)
    requires ReadFixed(s, n) == Some(Read(u, rest))
    ensures |s| == |rest| + n && u < Power(256, n)
  {
    if n > 0 {
      var v := ReadFixed(s[1..], n - 1).value.value;
      ReadFixedBound(s[1..], n - 1, v, rest);
      Regroup(256, Power(256, n - 1), 0, s[0], v);
    }
  }

  // ----- The bytes one by one -----

  lemma {:induction false} DivTwice(v: nat, base: nat, q: nat)
    requires base > 0 && q > 0
    ensures base * q > 0 && v / base / q == v / (base * q)
  {
    DivMod(v, base);
    DivMod(v / base, q);
    FromDigits(base, q, v / base / q, v % base, v / base % q);
    Regroup(base, q, v / base / q, v % base, v / base % q);
    DivFromParts(v, base * q, v / base / q, v % base + base * (v / base % q));
  }

  lemma {:induction false} DivFromParts(v: nat, k: nat, m: nat, r: nat)
    requires v == k * m + r && r < k
    ensures v / k == m
  {
    ModFromParts(v, k, m, r);
    assert k * (v / k) == k * m;
  }

  /** Byte `i` has the `i`th group of seven bits, and its top bit tells whether another byte follows. */
  lemma {:induction false} VarintBytes(v: nat, i: nat)
    requires i < |Varint(v)|
    ensures Varint(v)[i] % 128 == v / Power(128, i) % 128
    ensures Varint(v)[i] >= 128 <==> i < |Varint(v)| - 1
  {
    if i > 0 {
      VarintBytes(v / 128, i - 1);
      DivTwice(v, 128, Power(128, i - 1));
    }
  }

  lemma {:induction false} RedundantBytes(v: nat, n: nat, i: nat)
    requires i < n
    ensures Redundant(v, n)[i] % 128 == v / Power(128, i) % 128
    ensures Redundant(v, n)[i] >= 128 <==> i < n - 1
  {
    if i > 0 {
      RedundantBytes(v / 128, n - 1, i - 1);
      DivTwice(v, 128, Power(128, i - 1));
    }
  }

  /** Byte `i` is the `i`th from the least significant. */
  lemma {:induction false} FixedBytes(v: nat, n: nat, i: nat)
    requires i < n
    ensures Fixed(v, n)[i] == v / Power(256, i) % 256
  {
    if i > 0 {
      FixedBytes(v / 256, n - 1, i - 1);
      DivTwice(v, 256, Power(256, i - 1));
    }
  }
}
