/** The draw pool: the paths not yet played in the current cycle, from
    which one entry is drawn and removed per press. */
module DrawPool {
  import opened Seqs
  import opened Catalog

  /** The pool after `pool.pop(idx)`: the entry at `idx` is gone and the
      others keep their relative order. */
  function Remove(pool: seq<Path>, idx: nat): (r: seq<Path>)
    requires idx < |pool|
    ensures |r| == |pool| - 1
    ensures multiset(r) == multiset(pool) - multiset{pool[idx]}
    ensures forall k :: 0 <= k < idx ==> r[k] == pool[k]
    ensures forall k :: idx <= k < |r| ==> r[k] == pool[k + 1]
  {
    assert pool == pool[..idx] + [pool[idx]] + pool[idx + 1..];
    pool[..idx] + pool[idx + 1..]
  }

  /** Removing an entry from a duplicate-free pool that lies inside the
      master list keeps both properties, and the removed path is gone. */
  lemma RemoveKeepsInvariant(master: seq<Path>, pool: seq<Path>, idx: nat)
    requires idx < |pool| && NoDup(pool) && SubsetOf(pool, master)
    ensures NoDup(Remove(pool, idx)) && SubsetOf(Remove(pool, idx), master)
    ensures pool[idx] in master && pool[idx] !in Remove(pool, idx)
  {
    var r := Remove(pool, idx);
    forall i, j | 0 <= i < j < |r| ensures r[i] != r[j] {
      var i' := if i < idx then i else i + 1;
      var j' := if j < idx then j else j + 1;
      assert r[i] == pool[i'] && r[j] == pool[j'];
    }
    forall x | x in r ensures x in master {
      assert x in multiset(pool);
    }
    NoDupIffCountsOne(pool);
    assert multiset(r)[pool[idx]] == 0;
  }

  /** The drawn path followed by a rearrangement of what the pool keeps is a
      duplicate-free rearrangement of the pool. */
  lemma DrawnThenRest(pool: seq<Path>, idx: nat, tail: seq<Path>)
    requires idx < |pool| && NoDup(pool)
    requires multiset(tail) == multiset(Remove(pool, idx)) && NoDup(tail)
    ensures multiset([pool[idx]] + tail) == multiset(pool)
    ensures NoDup([pool[idx]] + tail)
  {
    RemoveKeepsInvariant(pool, pool, idx);
    assert pool[idx] in multiset(pool);
    assert pool[idx] !in tail by {
      assert pool[idx] !in multiset(Remove(pool, idx));
    }
    NoDupCons(pool[idx], tail);
  }

  /** The draw indices `idxs` are valid for successive draws from `pool`:
      the `k`-th draw is taken from a pool that has lost `k` entries. */
  predicate InRange(pool: seq<Path>, idxs: seq<nat>)
  {
    |idxs| <= |pool| && forall k :: 0 <= k < |idxs| ==> idxs[k] < |pool| - k
  }

  /** Draws `pool[idx]` and removes it, once per index in `idxs`; yields
      the drawn paths in order and what is left of the pool. */
  function DrawAll(pool: seq<Path>, idxs: seq<nat>): (r: (seq<Path>, seq<Path>))
    requires InRange(pool, idxs)
    ensures |r.0| == |idxs| && |r.1| == |pool| - |idxs|
    decreases |idxs|
  {
    if idxs == [] then ([], pool)
    else
      var rest := DrawAll(Remove(pool, idxs[0]), idxs[1..]);
      ([pool[idxs[0]]] + rest.0, rest.1)
  }

  /** Drawing without replacement: the drawn paths and the remaining pool
      together are a permutation of the original pool. */
  lemma {:induction false} DrawAllPermutes(pool: seq<Path>, idxs: seq<nat>)
    requires InRange(pool, idxs)
    ensures multiset(DrawAll(pool, idxs).0 + DrawAll(pool, idxs).1) == multiset(pool)
    decreases |idxs|
  {
    if idxs != [] {
      var idx := idxs[0];
      var smaller := Remove(pool, idx);
      var rest := DrawAll(smaller, idxs[1..]);
      DrawAllPermutes(smaller, idxs[1..]);
      assert DrawAll(pool, idxs).0 + DrawAll(pool, idxs).1 == [pool[idx]] + (rest.0 + rest.1);
      assert pool[idx] in multiset(pool);
    }
  }

  /** From a duplicate-free pool no path is drawn twice, and no drawn path
      is left in the pool. */
  lemma {:induction false} DrawAllDistinct(pool: seq<Path>, idxs: seq<nat>)
    requires InRange(pool, idxs) && NoDup(pool)
    ensures NoDup(DrawAll(pool, idxs).0 + DrawAll(pool, idxs).1)
    decreases |idxs|
  {
    if idxs != [] {
      var idx := idxs[0];
      var smaller := Remove(pool, idx);
      var rest := DrawAll(smaller, idxs[1..]);
      RemoveKeepsInvariant(pool, pool, idx);
      DrawAllDistinct(smaller, idxs[1..]);
      DrawAllPermutes(smaller, idxs[1..]);
      var tail := rest.0 + rest.1;
      assert DrawAll(pool, idxs).0 + DrawAll(pool, idxs).1 == [pool[idx]] + tail;
      assert pool[idx] !in tail by {
        assert pool[idx] !in multiset(smaller);
      }
      NoDupCons(pool[idx], tail);
    }
  }

  /** A full cycle: as many draws as the pool has entries empty the pool and
      yield every entry of a duplicate-free pool exactly once. */
  lemma FullCycle(pool: seq<Path>, idxs: seq<nat>)
    requires NoDup(pool) && |idxs| == |pool| && InRange(pool, idxs)
    ensures DrawAll(pool, idxs).1 == []
    ensures NoDup(DrawAll(pool, idxs).0)
    ensures multiset(DrawAll(pool, idxs).0) == multiset(pool)
    ensures forall p :: p in pool ==> multiset(DrawAll(pool, idxs).0)[p] == 1
  {
    var r := DrawAll(pool, idxs);
    DrawAllPermutes(pool, idxs);
    DrawAllDistinct(pool, idxs);
    assert r.0 + r.1 == r.0;
    NoDupIffCountsOne(pool);
  }
}
