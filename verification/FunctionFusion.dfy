/** Splitting a list of arguments among functions, so that each can be called with its share. */
module FunctionFusion {
  import opened Options

  /** The arguments from `start` up to but not including `end`. */
  datatype Range = Range(start: int, end: int)

  /**
   * The search: the current function tries the longest range first. `callable` tells whether a function can be
   * called with the shared arguments and those of a range.
   */
  function Fuse<F>(
    callable: (F, Range) -> bool, functions: seq<F>, total: nat, start: int, end: int, ranges: seq<Range>)
    : Option<seq<Range>>
    decreases |functions|, if start <= end then end - start + 1 else 0
  {
    if functions == [] then
      if start == end && start == total then Some(ranges) else None
    else if start > end then None
    else if callable(functions[0], Range(start, end)) then
      var rest := Fuse(callable, functions[1..], total, end, total, ranges + [Range(start, end)]);
      if rest.Some? then rest else Fuse(callable, functions, total, start, end - 1, ranges)
    else Fuse(callable, functions, total, start, end - 1, ranges)
  }

  function First(ranges: seq<Range>, i: nat, start: int): int
    requires i <= |ranges|
  {
    if i == 0 then start else ranges[i - 1].end
  }

  /** One callable range for each function, one after another, from `start` to the last argument. */
  ghost predicate Splits<F>(callable: (F, Range) -> bool, functions: seq<F>, total: nat, start: int, s: seq<Range>) {
    && |s| == |functions|
    && (forall i :: 0 <= i < |s| ==> s[i].start == First(s, i, start) <= s[i].end && callable(functions[i], s[i]))
    && First(s, |s|, start) == total
  }

  /** The lexicographic order of the range ends. */
  predicate AtLeast(s: seq<Range>, t: seq<Range>) {
    |s| == |t| &&
    (s == [] || s[0].end > t[0].end || (s[0].end == t[0].end && AtLeast(s[1..], t[1..])))
  }

  lemma {:induction false} SplitRest<F>(
    callable: (F, Range) -> bool, functions: seq<F>, total: nat, start: int, s: seq<Range>)
    requires functions != [] && Splits(callable, functions, total, start, s)
    ensures start == s[0].start <= s[0].end && callable(functions[0], s[0])
    ensures Splits(callable, functions[1..], total, s[0].end, s[1..])
  {
    var e := s[0].end;
    forall i | 0 <= i < |s| - 1
      ensures s[1..][i].start == First(s[1..], i, e) <= s[1..][i].end && callable(functions[1..][i], s[1..][i])
    {
      assert s[i + 1].start == First(s, i + 1, start);
    }
  }

  lemma {:induction false} SplitMore<F>(
    callable: (F, Range) -> bool, functions: seq<F>, total: nat, r: Range, s: seq<Range>)
    requires functions != [] && r.start <= r.end && callable(functions[0], r)
    requires Splits(callable, functions[1..], total, r.end, s)
    ensures Splits(callable, functions, total, r.start, [r] + s)
  {
    var t := [r] + s;
    forall i | 0 <= i < |t|
      ensures t[i].start == First(t, i, r.start) <= t[i].end && callable(functions[i], t[i])
    {
      if i > 0 {
        assert t[i] == s[i - 1] && functions[1..][i - 1] == functions[i];
        assert First(s, i - 1, r.end) == First(t, i, r.start);
      }
    }
  }

  /** No range of a split ends after the last argument. */
  lemma {:induction false} EndsAreBounded<F>(
    callable: (F, Range) -> bool, functions: seq<F>, total: nat, start: int, s: seq<Range>)
    requires Splits(callable, functions, total, start, s)
    ensures start <= total && (s != [] ==> s[0].end <= total)
  {
    if s != [] {
      SplitRest(callable, functions, total, start, s);
      EndsAreBounded(callable, functions[1..], total, s[0].end, s[1..]);
    }
  }

  lemma {:induction false} FoundHere<F>(
    callable: (F, Range) -> bool, functions: seq<F>, total: nat, r: Range, ranges: seq<Range>, rest: seq<Range>)
    requires functions != [] && r.start <= r.end && callable(functions[0], r)
    requires Fuse(callable, functions[1..], total, r.end, total, ranges + [r]) == Some(ranges + [r] + rest)
    ensures Fuse(callable, functions, total, r.start, r.end, ranges) == Some(ranges + ([r] + rest))
  {
    assert ranges + [r] + rest == ranges + ([r] + rest);
  }

  /** What the search returns is a split. */
  lemma {:induction false} Sound<F>(
    callable: (F, Range) -> bool, functions: seq<F>, total: nat, start: int, end: int, ranges: seq<Range>)
    returns (s: seq<Range>)
    requires Fuse(callable, functions, total, start, end, ranges).Some?
    ensures Fuse(callable, functions, total, start, end, ranges) == Some(ranges + s)
    ensures Splits(callable, functions, total, start, s)
    decreases |functions|, if start <= end then end - start + 1 else 0
  {
    if functions == [] {
      s := [];
      assert ranges + s == ranges;
    } else {
      var r := Range(start, end);
      if callable(functions[0], r) && Fuse(callable, functions[1..], total, end, total, ranges + [r]).Some? {
        var rest := Sound(callable, functions[1..], total, end, total, ranges + [r]);
        s := [r] + rest;
        SplitMore(callable, functions, total, r, rest);
        FoundHere(callable, functions, total, r, ranges, rest);
      } else {
        s := Sound(callable, functions, total, start, end - 1, ranges);
      }
    }
  }

  /** Whatever split there is within the bound, the search returns one that is lexicographically at least as large. */
  lemma {:induction false} Largest<F>(
    callable: (F, Range) -> bool, functions: seq<F>, total: nat, start: int, end: int, ranges: seq<Range>,
    t: seq<Range>)
    returns (s: seq<Range>)
    requires Splits(callable, functions, total, start, t)
    requires if functions == [] then end == total else t[0].end <= end
    ensures Fuse(callable, functions, total, start, end, ranges) == Some(ranges + s)
    ensures AtLeast(s, t) && (functions != [] ==> s[0].end <= end)
    decreases |functions|, if start <= end then end - start + 1 else 0
  {
    if functions == [] {
      s := [];
      assert ranges + s == ranges;
    } else {
      SplitRest(callable, functions, total, start, t);
      EndsAreBounded(callable, functions[1..], total, t[0].end, t[1..]);
      var r := Range(start, end);
      if callable(functions[0], r) && Fuse(callable, functions[1..], total, end, total, ranges + [r]).Some? {
        s := LargestHere(callable, functions, total, r, ranges, t);
      } else {
        assert t[0] == Range(start, t[0].end);
        if callable(functions[0], r) && t[0].end == end {
          var rest := Largest(callable, functions[1..], total, end, total, ranges + [r], t[1..]);
          assert false;
        }
        s := Largest(callable, functions, total, start, end - 1, ranges, t);
      }
    }
  }

  /** The case where the current function takes the range that is tried. */
  lemma {:induction false} LargestHere<F>(
    callable: (F, Range) -> bool, functions: seq<F>, total: nat, r: Range, ranges: seq<Range>, t: seq<Range>)
    returns (s: seq<Range>)
    requires functions != [] && Splits(callable, functions, total, r.start, t) && r.start <= r.end
    requires t[0].end <= r.end && callable(functions[0], r)
    requires Fuse(callable, functions[1..], total, r.end, total, ranges + [r]).Some?
    ensures Fuse(callable, functions, total, r.start, r.end, ranges) == Some(ranges + s)
    ensures AtLeast(s, t) && s[0].end <= r.end
    decreases |functions|, 0
  {
    SplitRest(callable, functions, total, r.start, t);
    var rest := Sound(callable, functions[1..], total, r.end, total, ranges + [r]);
    if t[0].end == r.end {
      if functions[1..] != [] {
        EndsAreBounded(callable, functions[1..], total, r.end, t[1..]);
      }
      rest := Largest(callable, functions[1..], total, r.end, total, ranges + [r], t[1..]);
    }
    s := [r] + rest;
    assert s[1..] == rest;
    FoundHere(callable, functions, total, r, ranges, rest);
  }

  /**
   * Fusion, started as the template is with all arguments after the shared ones, succeeds exactly when the arguments
   * can be split, and then gives every function in turn the most it can take.
   */
  lemma {:induction false} FuseExactly<F>(callable: (F, Range) -> bool, functions: seq<F>, total: nat, shared: nat)
    ensures var r := Fuse(callable, functions, total, shared, total, []);
            && (r.Some? <==> exists s :: Splits(callable, functions, total, shared, s))
            && (r.Some? ==> Splits(callable, functions, total, shared, r.value))
            && (r.Some? ==> forall s :: Splits(callable, functions, total, shared, s) ==> AtLeast(r.value, s))
  {
    var r := Fuse(callable, functions, total, shared, total, []);
    if r.Some? {
      var s := Sound(callable, functions, total, shared, total, []);
      assert r.value == s;
    }
    forall t | Splits(callable, functions, total, shared, t) ensures r.Some? && AtLeast(r.value, t) {
      EndsAreBounded(callable, functions, total, shared, t);
      var s := Largest(callable, functions, total, shared, total, [], t);
      assert r.value == s;
    }
  }

  // ----- What a split means for the calls -----

  /** The arguments of the ranges, one range after another. */
  function Passed<A>(arguments: seq<A>, s: seq<Range>): seq<A>
    requires forall i :: 0 <= i < |s| ==> 0 <= s[i].start <= s[i].end <= |arguments|
  {
    if s == [] then [] else arguments[s[0].start..s[0].end] + Passed(arguments, s[1..])
  }

  lemma {:induction false} RangesAreInside<F>(
    callable: (F, Range) -> bool, functions: seq<F>, total: nat, start: int, s: seq<Range>, i: nat)
    requires Splits(callable, functions, total, start, s) && i < |s|
    ensures start <= s[i].start <= s[i].end <= total
  {
    SplitRest(callable, functions, total, start, s);
    EndsAreBounded(callable, functions, total, start, s);
    if i > 0 {
      RangesAreInside(callable, functions[1..], total, s[0].end, s[1..], i - 1);
    }
  }

  /** Every argument after the shared ones is passed to one function, in order. */
  lemma {:induction false} EveryArgumentIsPassed<F, A>(
    callable: (F, Range) -> bool, functions: seq<F>, arguments: seq<A>, start: nat, s: seq<Range>)
    requires Splits(callable, functions, |arguments|, start, s)
    ensures forall i :: 0 <= i < |s| ==> 0 <= s[i].start <= s[i].end <= |arguments|
    ensures start <= |arguments| && Passed(arguments, s) == arguments[start..]
  {
    forall i | 0 <= i < |s| ensures 0 <= s[i].start <= s[i].end <= |arguments| {
      RangesAreInside(callable, functions, |arguments|, start, s, i);
    }
    if s != [] {
      SplitRest(callable, functions, |arguments|, start, s);
      EveryArgumentIsPassed(callable, functions[1..], arguments, s[0].end, s[1..]);
      assert arguments[start..] == arguments[start..s[0].end] + arguments[s[0].end..];
    }
  }

  /** No argument is passed to two functions. */
  lemma {:induction false} RangesAreDisjoint<F>(
    callable: (F, Range) -> bool, functions: seq<F>, total: nat, start: int, s: seq<Range>, i: nat, j: nat)
    requires Splits(callable, functions, total, start, s) && i < j < |s|
    ensures s[i].end <= s[j].start
  {
    SplitRest(callable, functions, total, start, s);
    if i > 0 {
      RangesAreDisjoint(callable, functions[1..], total, s[0].end, s[1..], i - 1, j - 1);
    } else {
      RangesAreInside(callable, functions[1..], total, s[0].end, s[1..], j - 1);
    }
  }
}
