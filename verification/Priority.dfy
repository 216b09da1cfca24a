/** The fixed priority buckets shared by groups and pools. */
module Priority {

  const BUCKETS: nat := 5

  /** The bucket of a task priority: 0 is REALTIME and 4 is IDLE. */
  function Index(priority: int): (bucket: nat)
    ensures bucket < BUCKETS
  {
    if priority >= 1000 then 0
    else if priority >= 750 then 1
    else if priority >= 500 then 2
    else if priority >= 250 then 3
    else 4
  }

  /** A scan from bucket 0 upwards never meets a lower priority before a higher one. */
  lemma IndexIsAntitone(a: int, b: int)
    requires a <= b
    ensures Index(b) <= Index(a)
  {
  }

  /** The named priorities REALTIME, HIGH, NORMAL and LOW, each the lowest of its level. */
  const LEVELS: set<int> := {1000, 750, 500, 250}

  /** One task has an earlier bucket than another exactly when one of these priorities is between them. */
  lemma LevelsExactly(a: int, b: int)
    ensures Index(a) < Index(b) <==> exists level :: level in LEVELS && b < level <= a
  {
    assert 1000 in LEVELS && 750 in LEVELS && 500 in LEVELS && 250 in LEVELS;
  }

  /** REALTIME, HIGH, NORMAL, LOW and IDLE have five different buckets, in this order. */
  lemma NamedLevels()
    ensures Index(1000) < Index(750) < Index(500) < Index(250) < Index(0)
  {
  }

  /** The first bucket at or after `from` that holds something, or the number of buckets. */
  function FirstBucket<T>(buckets: seq<seq<T>>, from: nat): (b: nat)
    requires from <= |buckets|
    ensures from <= b <= |buckets|
    ensures b < |buckets| ==> buckets[b] != []
    ensures forall c :: from <= c < b ==> buckets[c] == []
    decreases |buckets| - from
  {
    if from == |buckets| || buckets[from] != [] then from else FirstBucket(buckets, from + 1)
  }
}
