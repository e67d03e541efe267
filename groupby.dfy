/** `df.groupby(col)['totalprice_rupiah'].sum().reset_index()`, the shape of
    all three charts' data (app.py:98-99, 123-125, 140-142).

    The result is a table of (key, total) rows. pandas sorts group keys by
    default, so the rows come in strictly ascending key order: one row per key
    present in the input, holding the sum of the prices of that key's rows. */
module GroupBy {
  import opened Orderings
  import opened Table
  import opened Metrics

  datatype Group<K> = Group(key: K, total: int)

  predicate StrictlySorted<K>(g: seq<Group<K>>, less: (K, K) -> bool) {
    forall i, j :: 0 <= i < j < |g| ==> less(g[i].key, g[j].key)
  }

  function KeysOf<K>(g: seq<Group<K>>): set<K> {
    set i | 0 <= i < |g| :: g[i].key
  }

  /** The values of the grouping column that occur in the table. */
  function KeysIn<K>(t: seq<Record>, key: Record -> K): set<K> {
    set x | x in t :: key(x)
  }

  /** The sum of a grouped table's totals column. */
  function TotalOf<K>(g: seq<Group<K>>): int {
    if |g| == 0 then 0 else g[0].total + TotalOf(g[1..])
  }

  lemma {:induction false} TotalOfAppend<K>(a: seq<Group<K>>, b: seq<Group<K>>)
    ensures TotalOf(a + b) == TotalOf(a) + TotalOf(b)
  {
    if |a| > 0 {
      TotalOfAppend(a[1..], b);
      assert (a + b)[1..] == a[1..] + b;
    } else {
      assert a + b == b;
    }
  }

  /** Reordering the rows of a grouped table keeps the sum of its totals. */
  lemma {:induction false} TotalOfPermutation<K>(a: seq<Group<K>>, b: seq<Group<K>>)
    requires multiset(a) == multiset(b)
    ensures TotalOf(a) == TotalOf(b)
    decreases |a|
  {
    if |a| == 0 {
      assert |b| == |multiset(b)| == 0;
    } else {
      assert a[0] in multiset(b);
      var k :| 0 <= k < |b| && b[k] == a[0];
      var front, back := b[..k], b[k + 1..];
      var rest := front + back;
      assert b == front + ([b[k]] + back);
      assert multiset(rest) == multiset(a[1..]) by {
        assert a == [a[0]] + a[1..];
        assert b == front + [b[k]] + back;
        assert multiset(b) == multiset(front) + multiset{b[k]} + multiset(back);
        assert multiset(rest) == multiset(front) + multiset(back);
        assert multiset(rest) == multiset(b) - multiset{b[k]};
        assert multiset(a[1..]) == multiset(a) - multiset{a[0]};
      }
      TotalOfPermutation(a[1..], rest);
      assert TotalOf(b) == TotalOf(front) + b[k].total + TotalOf(back) by {
        TotalOfAppend(front, [b[k]] + back);
        assert ([b[k]] + back)[1..] == back;
      }
      assert TotalOf(rest) == TotalOf(front) + TotalOf(back) by {
        TotalOfAppend(front, back);
      }
    }
  }

  /** The total stored for `k`, or 0 when `k` has no row. */
  function Lookup<K(==)>(g: seq<Group<K>>, k: K): int {
    if |g| == 0 then 0 else if g[0].key == k then g[0].total else Lookup(g[1..], k)
  }

  /** The mask selecting the rows whose grouping column equals `k`. */
  function HasKey<K(==)>(key: Record -> K, k: K): Record -> bool {
    x => key(x) == k
  }

  /** Adds `v` to the total of key `k`, inserting a row for `k` at its sorted
      place when there is none yet. */
  function AddTo<K(==)>(g: seq<Group<K>>, k: K, v: int, less: (K, K) -> bool): seq<Group<K>> {
    if |g| == 0 then [Group(k, v)]
    else if g[0].key == k then [Group(k, g[0].total + v)] + g[1..]
    else if less(k, g[0].key) then [Group(k, v)] + g
    else [g[0]] + AddTo(g[1..], k, v, less)
  }

  /** AddTo adds `k` to the keys and no other key. */
  lemma {:induction false} AddToKeys<K>(g: seq<Group<K>>, k: K, v: int, less: (K, K) -> bool)
    ensures KeysOf(AddTo(g, k, v, less)) == KeysOf(g) + {k}
  {
    var r := AddTo(g, k, v, less);
    if |g| == 0 {
      assert r == [Group(k, v)] && r[0].key == k;
    } else if g[0].key == k {
      forall i | 0 <= i < |r| ensures r[i].key == g[i].key {
        if i > 0 { assert r[i] == g[i]; }
      }
    } else if less(k, g[0].key) {
      forall i | 0 <= i < |g| ensures g[i].key in KeysOf(r) { assert r[i + 1] == g[i]; }
      forall i | 0 < i < |r| ensures r[i].key in KeysOf(g) { assert r[i] == g[i - 1]; }
      assert r[0].key == k;
    } else {
      var rest := AddTo(g[1..], k, v, less);
      AddToKeys(g[1..], k, v, less);
      assert r == [g[0]] + rest;
      forall i | 0 <= i < |rest| ensures rest[i].key in KeysOf(r) { assert r[i + 1] == rest[i]; }
      forall i | 0 < i < |r| ensures r[i].key in KeysOf(rest) { assert r[i] == rest[i - 1]; }
      forall i | 0 < i < |g| ensures g[i].key in KeysOf(g[1..]) { assert g[1..][i - 1] == g[i]; }
      forall i | 0 <= i < |g[1..]| ensures g[1..][i].key in KeysOf(g) { assert g[1..][i] == g[i + 1]; }
      assert r[0] == g[0];
    }
  }

  /** AddTo adds `v` to the sum of all totals. */
  lemma {:induction false} AddToTotal<K>(g: seq<Group<K>>, k: K, v: int, less: (K, K) -> bool)
    ensures TotalOf(AddTo(g, k, v, less)) == TotalOf(g) + v
  {
    var r := AddTo(g, k, v, less);
    if |g| == 0 {
    } else if g[0].key == k {
      assert r[1..] == g[1..];
    } else if less(k, g[0].key) {
      assert r[1..] == g;
    } else {
      AddToTotal(g[1..], k, v, less);
      assert r[1..] == AddTo(g[1..], k, v, less);
    }
  }

  /** On a sorted table, AddTo adds `v` to the total of `k` and leaves the
      other keys' totals alone. */
  lemma {:induction false} AddToLookup<K(!new)>(g: seq<Group<K>>, k: K, v: int, less: (K, K) -> bool)
    requires StrictTotalOrder(less) && StrictlySorted(g, less)
    ensures forall k' :: Lookup(AddTo(g, k, v, less), k') == Lookup(g, k') + (if k' == k then v else 0)
  {
    var r := AddTo(g, k, v, less);
    if |g| == 0 {
    } else if g[0].key == k {
      assert r[1..] == g[1..];
    } else if less(k, g[0].key) {
      assert r[1..] == g;
      forall i | 0 <= i < |g| ensures g[i].key != k {
        if i > 0 {
          assert less(g[0].key, g[i].key);
        }
      }
      LookupAbsent(g, k);
    } else {
      AddToLookup(g[1..], k, v, less);
      assert r[1..] == AddTo(g[1..], k, v, less);
    }
  }

  /** AddTo keeps the keys strictly sorted. */
  lemma {:induction false} AddToSorted<K(!new)>(g: seq<Group<K>>, k: K, v: int, less: (K, K) -> bool)
    requires StrictTotalOrder(less) && StrictlySorted(g, less)
    ensures StrictlySorted(AddTo(g, k, v, less), less)
  {
    var r := AddTo(g, k, v, less);
    if |g| == 0 {
    } else if g[0].key == k {
      forall i, j | 0 <= i < j < |r| ensures less(r[i].key, r[j].key) {
        assert r[j] == g[j];
        if i > 0 { assert r[i] == g[i]; }
      }
    } else if less(k, g[0].key) {
      forall i, j | 0 <= i < j < |r| ensures less(r[i].key, r[j].key) {
        if i > 0 {
          assert r[i] == g[i - 1] && r[j] == g[j - 1];
        } else if j > 1 {
          assert less(g[0].key, g[j - 1].key);
        }
      }
    } else {
      var rest := AddTo(g[1..], k, v, less);
      AddToSorted(g[1..], k, v, less);
      AddToKeys(g[1..], k, v, less);
      assert r == [g[0]] + rest;
      assert less(g[0].key, k);
      forall j | 0 < j < |r| ensures less(g[0].key, r[j].key) {
        var key := rest[j - 1].key;
        assert r[j] == rest[j - 1];
        assert key in KeysOf(rest);
        if key != k {
          assert key in KeysOf(g[1..]);
          var i :| 0 <= i < |g[1..]| && g[1..][i].key == key;
          assert g[i + 1].key == key;
        }
      }
      forall i, j | 0 <= i < j < |r| ensures less(r[i].key, r[j].key) {
        if i > 0 {
          assert r[i] == rest[i - 1] && r[j] == rest[j - 1];
        }
      }
    }
  }

  /** A key without a row has total 0. */
  lemma {:induction false} LookupAbsent<K>(g: seq<Group<K>>, k: K)
    requires forall i :: 0 <= i < |g| ==> g[i].key != k
    ensures Lookup(g, k) == 0
  {
    if |g| > 0 {
      LookupAbsent(g[1..], k);
    }
  }

  /** A sorted grouped table has no key twice: it has as many rows as keys. */
  lemma {:induction false} SortedKeysCount<K(!new)>(g: seq<Group<K>>, less: (K, K) -> bool)
    requires StrictTotalOrder(less) && StrictlySorted(g, less)
    ensures |KeysOf(g)| == |g|
  {
    if |g| > 0 {
      var rest := g[1..];
      SortedKeysCount(rest, less);
      assert KeysOf(g) == {g[0].key} + KeysOf(rest) by {
        forall i | 0 <= i < |rest| ensures rest[i].key in KeysOf(g) { assert rest[i] == g[i + 1]; }
      }
      assert g[0].key !in KeysOf(rest) by {
        forall i | 0 <= i < |rest| ensures rest[i].key != g[0].key {
          assert rest[i] == g[i + 1];
          assert less(g[0].key, g[i + 1].key);
        }
      }
    }
  }

  /** In a sorted grouped table each row's total is the one stored for its
      key. */
  lemma {:induction false} SortedKeysLookup<K(!new)>(g: seq<Group<K>>, less: (K, K) -> bool)
    requires StrictTotalOrder(less) && StrictlySorted(g, less)
    ensures forall i :: 0 <= i < |g| ==> Lookup(g, g[i].key) == g[i].total
  {
    if |g| > 0 {
      var rest := g[1..];
      SortedKeysLookup(rest, less);
      forall i | 0 < i < |g| ensures Lookup(g, g[i].key) == g[i].total {
        assert g[i] == rest[i - 1];
        assert less(g[0].key, g[i].key);
      }
    }
  }

  /** The grouped sums of a table, keyed by `key` and sorted by `less`. */
  function GroupSum<K(==,!new)>(t: seq<Record>, key: Record -> K, less: (K, K) -> bool)
    : (g: seq<Group<K>>)
    requires StrictTotalOrder(less)
    ensures StrictlySorted(g, less)
    ensures KeysOf(g) == KeysIn(t, key)
    ensures TotalOf(g) == TotalSales(t)
    ensures forall k :: Lookup(g, k) == TotalSales(Where(t, HasKey(key, k)))
  {
    if |t| == 0 then []
    else
      var rest := GroupSum(t[1..], key, less);
      AddToSorted(rest, key(t[0]), t[0].totalpriceRupiah, less);
      AddToKeys(rest, key(t[0]), t[0].totalpriceRupiah, less);
      AddToTotal(rest, key(t[0]), t[0].totalpriceRupiah, less);
      AddToLookup(rest, key(t[0]), t[0].totalpriceRupiah, less);
      assert t == [t[0]] + t[1..];
      assert KeysIn(t, key) == {key(t[0])} + KeysIn(t[1..], key);
      AddTo(rest, key(t[0]), t[0].totalpriceRupiah, less)
  }

  /** What the grouped table means row by row: one row per key occurring in
      the table, in ascending key order, each holding the total price of
      exactly the rows with that key; all rows together hold the total
      sales. */
  lemma GroupSumRows<K(!new)>(t: seq<Record>, key: Record -> K, less: (K, K) -> bool)
    requires StrictTotalOrder(less)
    ensures |GroupSum(t, key, less)| == |KeysIn(t, key)|
    ensures forall i :: 0 <= i < |GroupSum(t, key, less)| ==>
      GroupSum(t, key, less)[i].total == TotalSales(Where(t, HasKey(key, GroupSum(t, key, less)[i].key)))
  {
    SortedKeysCount(GroupSum(t, key, less), less);
    SortedKeysLookup(GroupSum(t, key, less), less);
  }
}
