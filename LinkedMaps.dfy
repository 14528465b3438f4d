/**
 * Kotlin's `mutableMapOf<String, Int>()` (a `LinkedHashMap`): a map that
 * remembers the order in which keys were first inserted. Writing an existing
 * key keeps its position; a new key goes to the end. It is kept here as a
 * list of entries with distinct keys, so that iteration order is part of the
 * model.
 */
module LinkedMaps {
  import opened Common

  type Entries = seq<(string, int)>

  predicate DistinctKeys(m: Entries) {
    forall i, j :: 0 <= i < j < |m| ==> m[i].0 != m[j].0
  }

  predicate HasKey(m: Entries, k: string) {
    exists i :: 0 <= i < |m| && m[i].0 == k
  }

  /** `m[k]`: the value stored under `k`, if any. */
  function Get(m: Entries, k: string): (r: Option<int>)
    ensures r.Some? <==> HasKey(m, k)
    ensures r.Some? ==> exists i :: 0 <= i < |m| && m[i] == (k, r.value)
  {
    if m == [] then None
    else if m[0].0 == k then Some(m[0].1)
    else
      var r := Get(m[1..], k);
      assert HasKey(m, k) <==> HasKey(m[1..], k) by {
        if HasKey(m, k) {
          var i :| 0 <= i < |m| && m[i].0 == k;
          assert m[1..][i - 1].0 == k;
        }
        if HasKey(m[1..], k) {
          var i :| 0 <= i < |m[1..]| && m[1..][i].0 == k;
          assert m[i + 1].0 == k;
        }
      }
      assert r.Some? ==> exists i :: 0 <= i < |m| && m[i] == (k, r.value) by {
        if r.Some? {
          var i :| 0 <= i < |m[1..]| && m[1..][i] == (k, r.value);
          assert m[i + 1] == (k, r.value);
        }
      }
      r
  }

  /** `getOrDefault(k, 0)`. */
  function GetOrZero(m: Entries, k: string): int {
    Get(m, k).GetOr(0)
  }

  /** `m[k] = v`. */
  function Put(m: Entries, k: string, v: int): (r: Entries)
    ensures Get(r, k) == Some(v)
    ensures forall k' :: k' != k ==> Get(r, k') == Get(m, k')
  {
    if m == [] then [(k, v)]
    else if m[0].0 == k then [(k, v)] + m[1..]
    else [m[0]] + Put(m[1..], k, v)
  }

  /** Writing a key that is not present appends it at the end. */
  lemma {:induction false} PutNewAppends(m: Entries, k: string, v: int)
    requires !HasKey(m, k)
    ensures Put(m, k, v) == m + [(k, v)]
  {
    if m != [] {
      assert !HasKey(m[1..], k) by {
        forall i | 0 <= i < |m[1..]| ensures m[1..][i].0 != k { assert m[1..][i] == m[i + 1]; }
      }
      assert m[0].0 != k;
      PutNewAppends(m[1..], k, v);
    }
  }

  /** Writing a key keeps the keys distinct. */
  lemma {:induction false} PutKeepsDistinct(m: Entries, k: string, v: int)
    requires DistinctKeys(m)
    ensures DistinctKeys(Put(m, k, v))
  {
    if m != [] && m[0].0 != k {
      var rest := Put(m[1..], k, v);
      assert DistinctKeys(m[1..]) by {
        forall i, j | 0 <= i < j < |m[1..]| ensures m[1..][i].0 != m[1..][j].0 {
          assert m[1..][i] == m[i + 1] && m[1..][j] == m[j + 1];
        }
      }
      PutKeepsDistinct(m[1..], k, v);
      assert !HasKey(m[1..], m[0].0) by {
        forall i | 0 <= i < |m[1..]| ensures m[1..][i].0 != m[0].0 { assert m[1..][i] == m[i + 1]; }
      }
      assert Get(rest, m[0].0) == Get(m[1..], m[0].0);
      assert !HasKey(rest, m[0].0);
      assert Put(m, k, v) == [m[0]] + rest;
    } else if m != [] {
      assert Put(m, k, v) == [(k, v)] + m[1..];
      forall i, j | 0 <= i < j < |Put(m, k, v)| ensures Put(m, k, v)[i].0 != Put(m, k, v)[j].0 {
        assert Put(m, k, v)[i].0 == m[i].0 && Put(m, k, v)[j].0 == m[j].0;
      }
    }
  }
}
