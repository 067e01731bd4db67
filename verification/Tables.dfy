/** SQL tables with one key column, and the statements that the stores run on them. */
module Tables {
  import opened Results

  datatype Rec<V> = Rec(key: string, value: V)

  /** Rows in no meaningful order. */
  type Table<V> = seq<Rec<V>>

  /** The UNIQUE constraint. */
  predicate UniqueKeys<V>(t: Table<V>) {
    forall i, j | 0 <= i < j < |t| :: t[i].key != t[j].key
  }

  /** SELECT … WHERE key = k, taking the first row. */
  function Select<V>(t: Table<V>, k: string): Option<V> {
    if t == [] then None else if t[0].key == k then Some(t[0].value) else Select(t[1..], k)
  }

  function UpdateWhere<V>(t: Table<V>, k: string, f: V -> V): (r: Table<V>)
    ensures |r| == |t|
    ensures forall i | 0 <= i < |t| :: r[i] == if t[i].key == k then Rec(k, f(t[i].value)) else t[i]
  {
    seq(|t|, i requires 0 <= i < |t| => if t[i].key == k then Rec(k, f(t[i].value)) else t[i])
  }

  function DeleteWhere<V>(t: Table<V>, k: string): Table<V> {
    if t == [] then [] else (if t[0].key == k then [] else [t[0]]) + DeleteWhere(t[1..], k)
  }

  function Affected<V>(t: Table<V>, k: string): nat {
    if t == [] then 0 else (if t[0].key == k then 1 else 0) + Affected(t[1..], k)
  }

  predicate HasKey<V>(t: Table<V>, k: string) {
    exists i :: 0 <= i < |t| && t[i].key == k
  }

  lemma {:induction false} SelectFinds<V>(t: Table<V>, k: string)
    ensures Select(t, k).Some? <==> HasKey(t, k)
    ensures Affected(t, k) > 0 <==> HasKey(t, k)
    ensures Select(t, k).Some? ==> Rec(k, Select(t, k).value) in t
  {
    if t != [] {
      SelectFinds(t[1..], k);
      if HasKey(t[1..], k) { var i :| 0 <= i < |t[1..]| && t[1..][i].key == k; assert t[i + 1].key == k; }
      if HasKey(t, k) && t[0].key != k { var i :| 0 <= i < |t| && t[i].key == k; assert t[1..][i - 1].key == k; }
    }
  }

  lemma {:induction false} SelectUpdated<V>(t: Table<V>, k: string, f: V -> V, x: string)
    ensures Select(UpdateWhere(t, k, f), x)
      == if x == k && Select(t, x).Some? then Some(f(Select(t, x).value)) else Select(t, x)
    ensures UniqueKeys(t) ==> UniqueKeys(UpdateWhere(t, k, f))
  {
    if t != [] {
      SelectUpdated(t[1..], k, f, x);
      assert UpdateWhere(t, k, f)[1..] == UpdateWhere(t[1..], k, f);
    }
  }

  lemma {:induction false} DeleteKeepsRows<V>(t: Table<V>, k: string)
    ensures forall i | 0 <= i < |DeleteWhere(t, k)| :: DeleteWhere(t, k)[i] in t && DeleteWhere(t, k)[i].key != k
    ensures UniqueKeys(t) ==> UniqueKeys(DeleteWhere(t, k))
  {
    if t != [] {
      DeleteKeepsRows(t[1..], k);
      if UniqueKeys(t) {
        forall r | r in t[1..] ensures r.key != t[0].key { }
      }
    }
  }

  lemma {:induction false} SelectDeleted<V>(t: Table<V>, k: string, x: string)
    ensures Select(DeleteWhere(t, k), x) == if x == k then None else Select(t, x)
  {
    if t != [] {
      SelectDeleted(t[1..], k, x);
      var rest := DeleteWhere(t[1..], k);
      if t[0].key != k {
        assert DeleteWhere(t, k) == [t[0]] + rest && DeleteWhere(t, k)[1..] == rest;
      } else {
        assert DeleteWhere(t, k) == rest;
      }
    }
  }

  lemma {:induction false} SelectInserted<V>(t: Table<V>, k: string, v: V, x: string)
    requires !HasKey(t, k)
    ensures Select(t + [Rec(k, v)], x) == if x == k then Some(v) else Select(t, x)
    ensures UniqueKeys(t) ==> UniqueKeys(t + [Rec(k, v)])
  {
    if t != [] {
      assert t[0].key != k;
      forall i | 0 <= i < |t[1..]| ensures t[1..][i].key != k { assert t[1..][i] == t[i + 1]; }
      SelectInserted(t[1..], k, v, x);
      assert (t + [Rec(k, v)])[1..] == t[1..] + [Rec(k, v)];
    } else {
      assert t + [Rec(k, v)] == [Rec(k, v)] && [Rec(k, v)][1..] == [];
      assert Select([Rec(k, v)], x) == if x == k then Some(v) else Select([], x);
    }
  }

  /** The set of selected (key, column) pairs of a whole table. */
  function Project<V(==), C(==)>(t: Table<V>, column: V -> C): set<(string, C)> {
    set r | r in t :: (r.key, column(r.value))
  }

  lemma {:induction false} UniqueRow<V>(t: Table<V>, r: Rec<V>)
    requires UniqueKeys(t) && r in t
    ensures Select(t, r.key) == Some(r.value)
  {
    if t[0] != r {
      assert r in t[1..] by { var i :| 0 <= i < |t| && t[i] == r; assert t[1..][i - 1] == r; }
      UniqueRow(t[1..], r);
      var i :| 0 <= i < |t[1..]| && t[1..][i] == r;
      assert t[i + 1] == r && t[0].key != t[i + 1].key;
    }
  }
}
