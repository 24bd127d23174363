/**
 * A table is a map from primary key to row. Every query that reads several rows
 * walks the table in key order and keeps the rows its WHERE clause accepts;
 * `Where` says which rows that is and `Scan` is the `rows.Next()` loop that
 * collects them.
 */
module Tables {

  /** The rows with key below `n` that `keep` accepts, in increasing key order. */
  function Where<T(==)>(t: map<nat, T>, n: nat, keep: T -> bool): (rows: seq<T>)
    ensures forall i :: 0 <= i < |rows| ==> rows[i] in t.Values && keep(rows[i])
    ensures forall k :: k in t && k < n && keep(t[k]) ==> t[k] in rows
  {
    if n == 0 then []
    else Where(t, n - 1, keep) + (if n - 1 in t && keep(t[n - 1]) then [t[n - 1]] else [])
  }

  /** The keys of the rows `Where` selects. */
  ghost function SelectedKeys<T>(t: map<nat, T>, n: nat, keep: T -> bool): set<nat>
  {
    set k | k in t && k < n && keep(t[k])
  }

  /** `Where` yields one entry per selected key: no row is missed or repeated. */
  lemma {:induction false} WhereCount<T>(t: map<nat, T>, n: nat, keep: T -> bool)
    ensures |Where(t, n, keep)| == |SelectedKeys(t, n, keep)|
  {
    if n == 0 {
      assert SelectedKeys(t, n, keep) == {};
    } else {
      WhereCount(t, n - 1, keep);
      var before := SelectedKeys(t, n - 1, keep);
      if n - 1 in t && keep(t[n - 1]) {
        assert SelectedKeys(t, n, keep) == before + {n - 1};
        assert n - 1 !in before;
      } else {
        assert SelectedKeys(t, n, keep) == before;
      }
    }
  }

  /** Appends each accepted row as the cursor passes it. */
  method Scan<T(==)>(t: map<nat, T>, n: nat, keep: T -> bool) returns (rows: seq<T>)
    ensures rows == Where(t, n, keep)
  {
    rows := [];
    var key := 0;
    while key < n
      invariant key <= n
      invariant rows == Where(t, key, keep)
    {
      if key in t && keep(t[key]) {
        rows := rows + [t[key]];
      }
      key := key + 1;
    }
  }
}
