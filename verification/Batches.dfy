/**
 * `ORDER BY age LIMIT n` over the rows a WHERE clause selects, ties in any order, and the batched
 * retention sweeps built on it.
 */
module Batches {
  import opened Basics

  predicate OldestIn<K(!new)>(x: K, keys: set<K>, age: map<K, int>)
    requires keys <= age.Keys
  {
    x in keys && forall y :: y in keys ==> age[x] <= age[y]
  }

  /** The oldest `limit` of the keys: nothing left out is older than anything taken. */
  predicate IsOldest<K(!new)>(taken: set<K>, keys: set<K>, age: map<K, int>, limit: nat)
    requires keys <= age.Keys
  {
    && taken <= keys
    && |taken| == (if |keys| < limit then |keys| else limit)
    && forall x, y :: x in taken && y in keys && y !in taken ==> age[x] <= age[y]
  }

  function AgeOf<K>(age: map<K, int>, x: K): int {
    if x in age then age[x] else 0
  }

  lemma HasOldest<K(!new)>(keys: set<K>, age: map<K, int>)
    requires keys != {} && keys <= age.Keys
    ensures exists x :: OldestIn(x, keys, age)
  {
    var older := (x: K, y: K) => AgeOf(age, x) <= AgeOf(age, y);
    HasMinimum(keys, older);
    var x :| IsMinimum(x, keys, older);
    assert forall y :: y in keys ==> older(x, y);
    assert OldestIn(x, keys, age);
  }

  method TakeOldest<K(!new, ==)>(keys: set<K>, age: map<K, int>, limit: nat) returns (taken: set<K>)
    requires keys <= age.Keys
    ensures IsOldest(taken, keys, age, limit)
  {
    taken := {};
    var rest := keys;
    while |taken| < limit && rest != {}
      invariant taken + rest == keys && taken !! rest
      invariant |taken| + |rest| == |keys| && |taken| <= limit
      invariant forall x, y :: x in taken && y in rest ==> age[x] <= age[y]
      decreases |rest|
    {
      HasOldest(rest, age);
      var x :| x in rest && OldestIn(x, rest, age);
      taken, rest := taken + {x}, rest - {x};
    }
    assert rest == {} ==> taken == keys;
  }

  // ---------------------------------------------------------------- retention sweeps

  /** The keys of the rows a sweep takes. */
  function Expired<K, V>(rows: map<K, V>, past: V -> bool): (keys: set<K>)
    ensures keys <= rows.Keys
  {
    set k | k in rows && past(rows[k])
  }

  /** What a finished sweep leaves. */
  function Kept<K, V>(rows: map<K, V>, past: V -> bool): map<K, V> {
    rows - Expired(rows, past)
  }

  /** A finished sweep has taken the expired rows and no other, and counted them. */
  lemma SweptRows<K, V>(rows: map<K, V>, past: V -> bool)
    ensures var kept := Kept(rows, past);
      && (forall k :: k in kept <==> k in rows && !past(rows[k]))
      && (forall k :: k in kept ==> kept[k] == rows[k])
      && |Expired(rows, past)| == |rows| - |kept|
  {
    var kept := Kept(rows, past);
    assert kept.Keys == rows.Keys - Expired(rows, past);
    assert |kept| == |kept.Keys| && |rows| == |rows.Keys|;
  }

  /**
   * One batch less to take, and the same rows to keep; a batch short of its size was the last one.
   */
  lemma RemoveBatch<K(!new), V>(rows: map<K, V>, past: V -> bool, batch: set<K>, age: map<K, int>, size: nat)
    requires Expired(rows, past) <= age.Keys && IsOldest(batch, Expired(rows, past), age, size)
    ensures Kept(rows - batch, past) == Kept(rows, past)
    ensures |Expired(rows - batch, past)| == |Expired(rows, past)| - |batch|
    ensures |batch| < size ==> Expired(rows - batch, past) == {} && Kept(rows, past) == rows - batch
  {
    assert Expired(rows - batch, past) == Expired(rows, past) - batch;
    SubsetCount(batch, Expired(rows, past));
  }
}
