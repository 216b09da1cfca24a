/** Choosing the arguments that a callback takes from those available, first fit and in order. */
module RelevantArguments {
  import opened Options

  /** `used` are the chosen positions so far, and `index` is the position of the first of `available`. */
  function Relevant<A, R>(
    converts: (A, R) -> bool, required: seq<R>, available: seq<A>, used: seq<nat>, index: nat): Option<seq<nat>>
    decreases |available|
  {
    if required == [] then Some(used)
    else if available == [] then None
    else if converts(available[0], required[0]) then
      Relevant(converts, required[1..], available[1..], used + [index], index + 1)
    else
      Relevant(converts, required, available[1..], used, index + 1)
  }

  /** An order-preserving choice of one available argument for each required one. */
  ghost predicate Chooses<A, R>(
    converts: (A, R) -> bool, required: seq<R>, available: seq<A>, index: nat, v: seq<nat>)
  {
    && |v| == |required|
    && (forall i :: 0 <= i < |v| ==> index <= v[i] < index + |available|)
    && (forall i :: 0 <= i < |v| ==> converts(available[v[i] - index], required[i]))
    && (forall i, j :: 0 <= i < j < |v| ==> v[i] < v[j])
  }

  predicate Below(u: seq<nat>, v: seq<nat>) {
    |u| == |v| && forall i :: 0 <= i < |u| ==> u[i] <= v[i]
  }

  lemma {:induction false} SkipFirst<A, R>(
    converts: (A, R) -> bool, required: seq<R>, available: seq<A>, index: nat, v: seq<nat>)
    requires available != [] && Chooses(converts, required, available[1..], index + 1, v)
    ensures Chooses(converts, required, available, index, v)
  {
  }

  lemma {:induction false} TakeFirst<A, R>(
    converts: (A, R) -> bool, required: seq<R>, available: seq<A>, index: nat, v: seq<nat>)
    requires available != [] && required != [] && converts(available[0], required[0])
    requires Chooses(converts, required[1..], available[1..], index + 1, v)
    ensures Chooses(converts, required, available, index, [index] + v)
  {
    var w := [index] + v;
    forall i | 0 <= i < |w| ensures converts(available[w[i] - index], required[i]) {
      if i > 0 {
        assert w[i] == v[i - 1] && required[1..][i - 1] == required[i];
      }
    }
  }

  /** What follows the first choice uses later arguments only. */
  lemma {:induction false} DropFirst<A, R>(
    converts: (A, R) -> bool, required: seq<R>, available: seq<A>, index: nat, v: seq<nat>)
    requires required != [] && Chooses(converts, required, available, index, v)
    ensures available != [] && Chooses(converts, required[1..], available[1..], index + 1, v[1..])
  {
    assert index <= v[0] < index + |available|;
    forall i | 0 <= i < |v| - 1
      ensures index + 1 <= v[1..][i] < index + |available|
      ensures converts(available[1..][v[1..][i] - (index + 1)], required[1..][i])
    {
      assert v[0] < v[i + 1] && converts(available[v[i + 1] - index], required[i + 1]);
    }
  }

  /** When the first argument does not fit the first requirement, no choice uses it. */
  lemma {:induction false} FirstUnused<A, R>(
    converts: (A, R) -> bool, required: seq<R>, available: seq<A>, index: nat, v: seq<nat>)
    requires required != [] && available != [] && !converts(available[0], required[0])
    requires Chooses(converts, required, available, index, v)
    ensures Chooses(converts, required, available[1..], index + 1, v)
  {
    assert converts(available[v[0] - index], required[0]);
    forall i | 0 <= i < |v|
      ensures index + 1 <= v[i]
      ensures converts(available[1..][v[i] - (index + 1)], required[i])
    {
      assert i > 0 ==> v[0] < v[i];
    }
  }

  /** A result extends the positions chosen before by a choice that is there. */
  lemma {:induction false} Sound<A, R>(
    converts: (A, R) -> bool, required: seq<R>, available: seq<A>, used: seq<nat>, index: nat) returns (u: seq<nat>)
    requires Relevant(converts, required, available, used, index).Some?
    ensures Relevant(converts, required, available, used, index) == Some(used + u)
    ensures Chooses(converts, required, available, index, u)
    decreases |available|
  {
    if required == [] {
      u := [];
      assert used + u == used;
    } else if converts(available[0], required[0]) {
      var rest := Sound(converts, required[1..], available[1..], used + [index], index + 1);
      u := [index] + rest;
      TakeFirst(converts, required, available, index, rest);
      assert used + [index] + rest == used + u;
    } else {
      u := Sound(converts, required, available[1..], used, index + 1);
      SkipFirst(converts, required, available, index, u);
    }
  }

  /** Whatever choice there is, the search succeeds with positions that are nowhere larger. */
  lemma {:induction false} Leftmost<A, R>(
    converts: (A, R) -> bool, required: seq<R>, available: seq<A>, used: seq<nat>, index: nat, v: seq<nat>)
    returns (u: seq<nat>)
    requires Chooses(converts, required, available, index, v)
    ensures Relevant(converts, required, available, used, index) == Some(used + u) && Below(u, v)
    decreases |available|
  {
    if required == [] {
      u := [];
      assert used + u == used;
    } else {
      DropFirst(converts, required, available, index, v);
      if converts(available[0], required[0]) {
        var rest := Leftmost(converts, required[1..], available[1..], used + [index], index + 1, v[1..]);
        u := [index] + rest;
        assert used + [index] + rest == used + u;
        assert forall i :: 0 < i < |u| ==> u[i] == rest[i - 1] && v[i] == v[1..][i - 1];
      } else {
        FirstUnused(converts, required, available, index, v);
        u := Leftmost(converts, required, available[1..], used, index + 1, v);
      }
    }
  }

  /** The search succeeds exactly when some order-preserving choice exists, with the leftmost such choice. */
  lemma {:induction false} RelevantExactly<A, R>(converts: (A, R) -> bool, required: seq<R>, available: seq<A>)
    ensures var r := Relevant(converts, required, available, [], 0);
            && (r.Some? <==> exists v :: Chooses(converts, required, available, 0, v))
            && (r.Some? ==> Chooses(converts, required, available, 0, r.value))
            && (r.Some? ==> forall v :: Chooses(converts, required, available, 0, v) ==> Below(r.value, v))
  {
    var r := Relevant(converts, required, available, [], 0);
    if r.Some? {
      var u := Sound(converts, required, available, [], 0);
      assert r.value == u;
    }
    forall v | Chooses(converts, required, available, 0, v) ensures r.Some? && Below(r.value, v) {
      var u := Leftmost(converts, required, available, [], 0, v);
      assert r.value == u;
    }
  }
}
