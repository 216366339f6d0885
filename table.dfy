/**
  The two in-place operations the registry performs on its `unordered_map`:
  `insert_or_assign` and `erase`, stated as functions on Dafny maps.
 */
module Table {

  /** `m.insert_or_assign(k, v)`: the entry for `k` becomes `v`, whether or not `k` was present. */
  function InsertOrAssign<K, V>(m: map<K, V>, k: K, v: V): (r: map<K, V>)
    ensures k in r && r[k] == v
    ensures r.Keys == m.Keys + {k}
    ensures forall j :: j in m && j != k ==> j in r && r[j] == m[j]
    ensures k !in m ==> |r| == |m| + 1
    ensures k in m ==> |r| == |m|
  {
    m[k := v]
  }

  /** `m.erase(k)`: no entry for `k` is left; erasing an absent key changes nothing. */
  function Erase<K, V>(m: map<K, V>, k: K): (r: map<K, V>)
    ensures k !in r
    ensures r.Keys == m.Keys - {k}
    ensures forall j :: j in r ==> r[j] == m[j]
    ensures k !in m ==> r == m
    ensures k in m ==> |r| == |m| - 1
  {
    m - {k}
  }

  /** Registering a fresh key and then erasing it restores the table. */
  lemma EraseUndoesInsert<K, V>(m: map<K, V>, k: K, v: V)
    requires k !in m
    ensures Erase(InsertOrAssign(m, k, v), k) == m
  {
  }

  /** Registering the same entry twice leaves the same table as registering it once. */
  lemma InsertOrAssignIdempotent<K, V>(m: map<K, V>, k: K, v: V)
    ensures InsertOrAssign(InsertOrAssign(m, k, v), k, v) == InsertOrAssign(m, k, v)
  {
  }

  /** Erasing twice is erasing once. */
  lemma EraseIdempotent<K, V>(m: map<K, V>, k: K)
    ensures Erase(Erase(m, k), k) == Erase(m, k)
  {
  }
}
