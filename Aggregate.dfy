/** The table operations both report functions end with, on exact decimals:
    pandas `groupby(key)[value].sum()`, `sort_values(ascending=False)`,
    `iloc[:n]` and `round(2)`. */
module Aggregate {
  import opened Text

  // ---------------------------------------------------------------------
  // Group sums

  /** The keys that occur in the rows. */
  function KeysOf<T, K>(rows: seq<T>, key: T -> K): set<K> {
    set i | 0 <= i < |rows| :: key(rows[i])
  }

  /** Reference definition: the total of `val` over the rows whose key is `k`. */
  function KeyTotal<T, K(==)>(rows: seq<T>, key: T -> K, val: T -> real, k: K): real {
    if rows == [] then 0.0
    else
      var last := rows[|rows| - 1];
      KeyTotal(rows[..|rows| - 1], key, val, k) + (if key(last) == k then val(last) else 0.0)
  }

  /** The total of `val` over all rows. */
  function Total<T>(rows: seq<T>, val: T -> real): real {
    if rows == [] then 0.0 else Total(rows[..|rows| - 1], val) + val(rows[|rows| - 1])
  }

  lemma {:induction false} KeyTotalAbsent<T, K>(rows: seq<T>, key: T -> K, val: T -> real, k: K)
    requires k !in KeysOf(rows, key)
    ensures KeyTotal(rows, key, val, k) == 0.0
  {
    if rows != [] {
      var init := rows[..|rows| - 1];
      assert forall i :: 0 <= i < |init| ==> init[i] == rows[i];
      assert k !in KeysOf(init, key);
      KeyTotalAbsent(init, key, val, k);
    }
  }

  lemma KeysOfSnoc<T, K>(rows: seq<T>, x: T, key: T -> K)
    ensures KeysOf(rows + [x], key) == KeysOf(rows, key) + {key(x)}
  {
    var s := rows + [x];
    assert forall i :: 0 <= i < |rows| ==> s[i] == rows[i];
    assert s[|rows|] == x;
  }

  /** The fold `groupby(key)[val].sum()` performs: one entry per key, each
      the total of its rows. */
  function GroupSum<T, K(==)>(rows: seq<T>, key: T -> K, val: T -> real): (m: map<K, real>)
    ensures m.Keys == KeysOf(rows, key)
    ensures forall k :: k in m ==> m[k] == KeyTotal(rows, key, val, k)
  {
    if rows == [] then map[]
    else
      var init, last := rows[..|rows| - 1], rows[|rows| - 1];
      var m := GroupSum(init, key, val);
      assert rows == init + [last];
      KeysOfSnoc(init, last, key);
      var prev := if key(last) in m then m[key(last)] else 0.0;
      assert prev == KeyTotal(init, key, val, key(last)) by {
        if key(last) !in m { KeyTotalAbsent(init, key, val, key(last)); }
      }
      m[key(last) := prev + val(last)]
  }

  // ---------------------------------------------------------------------
  // Order does not matter to a sum

  lemma {:induction false} KeyTotalAppend<T, K>(a: seq<T>, b: seq<T>, key: T -> K, val: T -> real, k: K)
    ensures KeyTotal(a + b, key, val, k) == KeyTotal(a, key, val, k) + KeyTotal(b, key, val, k)
  {
    if b == [] {
      assert a + b == a;
    } else {
      var init := b[..|b| - 1];
      KeyTotalAppend(a, init, key, val, k);
      assert (a + b)[..|a + b| - 1] == a + init;
    }
  }

  lemma {:induction false} TotalAppend<T>(a: seq<T>, b: seq<T>, val: T -> real)
    ensures Total(a + b, val) == Total(a, val) + Total(b, val)
  {
    if b == [] {
      assert a + b == a;
    } else {
      var init := b[..|b| - 1];
      TotalAppend(a, init, val);
      assert (a + b)[..|a + b| - 1] == a + init;
    }
  }

  /** Taking one row out of a sequence takes it out of its multiset. */
  lemma RemoveAt<T>(b: seq<T>, i: int)
    requires 0 <= i < |b|
    ensures multiset(b[..i] + b[i + 1..]) + multiset{b[i]} == multiset(b)
  {
    assert b == b[..i] + [b[i]] + b[i + 1..];
  }

  /** A key's total is that of the other rows plus the row taken out. */
  lemma KeyTotalAt<T, K>(b: seq<T>, i: int, key: T -> K, val: T -> real, k: K)
    requires 0 <= i < |b|
    ensures KeyTotal(b, key, val, k)
         == KeyTotal(b[..i] + b[i + 1..], key, val, k) + (if key(b[i]) == k then val(b[i]) else 0.0)
  {
    var x := b[i];
    assert b == b[..i] + ([x] + b[i + 1..]);
    KeyTotalAppend(b[..i], [x] + b[i + 1..], key, val, k);
    KeyTotalAppend([x], b[i + 1..], key, val, k);
    KeyTotalAppend(b[..i], b[i + 1..], key, val, k);
    assert [x][..0] == [];
  }

  lemma MultisetCancel<T>(p: multiset<T>, q: multiset<T>, x: T)
    requires p + multiset{x} == q + multiset{x}
    ensures p == q
  {
    forall y ensures p[y] == q[y] {
      assert (p + multiset{x})[y] == (q + multiset{x})[y];
    }
  }

  /** Rearranging the rows changes no key's total. */
  lemma {:induction false} KeyTotalPermutation<T, K>(a: seq<T>, b: seq<T>, key: T -> K, val: T -> real, k: K)
    requires multiset(a) == multiset(b)
    ensures KeyTotal(a, key, val, k) == KeyTotal(b, key, val, k)
    decreases |a|
  {
    if a == [] {
      assert |b| == |multiset(b)| == 0;
    } else {
      var init, x := a[..|a| - 1], a[|a| - 1];
      assert a == init + [x];
      assert multiset(a) == multiset(init) + multiset{x};
      assert x in multiset(b);
      var i :| 0 <= i < |b| && b[i] == x;
      var rest := b[..i] + b[i + 1..];
      RemoveAt(b, i);
      MultisetCancel(multiset(rest), multiset(init), x);
      KeyTotalPermutation(init, rest, key, val, k);
      KeyTotalAt(b, i, key, val, k);
    }
  }

  lemma KeysOfPermutation<T, K>(a: seq<T>, b: seq<T>, key: T -> K)
    requires multiset(a) == multiset(b)
    ensures KeysOf(a, key) == KeysOf(b, key)
  {
    forall k | k in KeysOf(a, key) ensures k in KeysOf(b, key) {
      var i :| 0 <= i < |a| && key(a[i]) == k;
      assert a[i] in multiset(b);
      var j :| 0 <= j < |b| && b[j] == a[i];
    }
    forall k | k in KeysOf(b, key) ensures k in KeysOf(a, key) {
      var j :| 0 <= j < |b| && key(b[j]) == k;
      assert b[j] in multiset(a);
      var i :| 0 <= i < |a| && a[i] == b[j];
    }
  }

  /** Grouping does not see the order of the rows. */
  lemma GroupSumPermutation<T, K>(a: seq<T>, b: seq<T>, key: T -> K, val: T -> real)
    requires multiset(a) == multiset(b)
    ensures GroupSum(a, key, val) == GroupSum(b, key, val)
  {
    KeysOfPermutation(a, b, key);
    forall k | k in GroupSum(a, key, val) ensures GroupSum(a, key, val)[k] == GroupSum(b, key, val)[k] {
      KeyTotalPermutation(a, b, key, val, k);
    }
  }

  // ---------------------------------------------------------------------
  // Scaling and summing the groups

  /** When every row's `g` is its `f` divided by 100, so is every group's. */
  lemma {:induction false} KeyTotalHundredth<T, K>(rows: seq<T>, key: T -> K, f: T -> real, g: T -> real, k: K)
    requires forall i :: 0 <= i < |rows| ==> g(rows[i]) == f(rows[i]) / 100.0
    ensures KeyTotal(rows, key, g, k) == KeyTotal(rows, key, f, k) / 100.0
  {
    if rows != [] {
      var init := rows[..|rows| - 1];
      assert forall i :: 0 <= i < |init| ==> init[i] == rows[i];
      KeyTotalHundredth(init, key, f, g, k);
    }
  }

  /** The sum of a map's values, taken in any order. */
  ghost function SumValues<K>(m: map<K, real>): real
    decreases |m|
  {
    if m == map[] then 0.0
    else
      var k :| k in m;
      m[k] + SumValues(m - {k})
  }

  /** Any key can be taken out first. */
  lemma {:induction false} SumValuesRemove<K>(m: map<K, real>, k: K)
    requires k in m
    ensures SumValues(m) == m[k] + SumValues(m - {k})
    decreases |m|
  {
    var j :| j in m && SumValues(m) == m[j] + SumValues(m - {j});
    if j != k {
      var mj, mk := m - {j}, m - {k};
      assert |mj| < |m| && |mk| < |m|;
      SumValuesRemove(mj, k);
      SumValuesRemove(mk, j);
      assert mj - {k} == mk - {j};
    }
  }

  /** The groups' sums add up to the total over all rows. */
  lemma {:induction false} SumOfGroups<T, K>(rows: seq<T>, key: T -> K, val: T -> real)
    ensures SumValues(GroupSum(rows, key, val)) == Total(rows, val)
  {
    if rows != [] {
      var init, last := rows[..|rows| - 1], rows[|rows| - 1];
      var m := GroupSum(init, key, val);
      var m' := GroupSum(rows, key, val);
      SumOfGroups(init, key, val);
      var k := key(last);
      assert m' - {k} == m - {k};
      SumValuesRemove(m', k);
      if k in m {
        SumValuesRemove(m, k);
      } else {
        assert m - {k} == m;
      }
    }
  }

  // ---------------------------------------------------------------------
  // Sorting by a score, largest first, and taking a prefix

  predicate SortedDesc<T>(s: seq<T>, score: T -> real) {
    forall i, j :: 0 <= i < j < |s| ==> score(s[i]) >= score(s[j])
  }

  function Insert<T>(x: T, s: seq<T>, score: T -> real): (r: seq<T>)
    ensures multiset(r) == multiset(s) + multiset{x}
  {
    if s == [] || score(s[0]) <= score(x) then [x] + s
    else
      assert s == [s[0]] + s[1..];
      [s[0]] + Insert(x, s[1..], score)
  }

  lemma {:induction false} InsertSorted<T>(x: T, s: seq<T>, score: T -> real)
    requires SortedDesc(s, score)
    ensures SortedDesc(Insert(x, s, score), score)
  {
    if s != [] && score(s[0]) > score(x) {
      var r' := Insert(x, s[1..], score);
      InsertSorted(x, s[1..], score);
      assert s == [s[0]] + s[1..];
      forall j | 0 <= j < |r'| ensures score(s[0]) >= score(r'[j]) {
        assert r'[j] in multiset(r');
        assert r'[j] == x || r'[j] in multiset(s[1..]);
        if r'[j] != x {
          var k :| 0 <= k < |s[1..]| && s[1..][k] == r'[j];
          assert s[k + 1] == r'[j];
        }
      }
      assert Insert(x, s, score) == [s[0]] + r';
    }
  }

  /** One order pandas' (unstable) descending sort may produce. */
  function SortDesc<T>(s: seq<T>, score: T -> real): (r: seq<T>)
    ensures multiset(r) == multiset(s)
    ensures SortedDesc(r, score)
  {
    if s == [] then []
    else
      assert s == [s[0]] + s[1..];
      InsertSorted(s[0], SortDesc(s[1..], score), score);
      Insert(s[0], SortDesc(s[1..], score), score)
  }

  /** The first `n` rows of any descending order of `s` are `min(n, |s|)` of
      its rows, in descending order, and no row left out scores higher than
      a row kept. */
  lemma TopRows<T>(s: seq<T>, sorted: seq<T>, score: T -> real, n: nat)
    requires multiset(sorted) == multiset(s) && SortedDesc(sorted, score)
    ensures var top := Prefix(sorted, n);
            && |top| == (if |s| < n then |s| else n)
            && SortedDesc(top, score)
            && multiset(top) <= multiset(s)
            && forall x, y :: x in multiset(s) - multiset(top) && y in top ==> score(x) <= score(y)
  {
    var top := Prefix(sorted, n);
    var k := |top|;
    assert |sorted| == |multiset(s)| == |s|;
    assert sorted == top + sorted[k..];
    assert multiset(sorted) == multiset(top) + multiset(sorted[k..]);
    forall x, y | x in multiset(s) - multiset(top) && y in top ensures score(x) <= score(y) {
      assert x in sorted[k..];
      var j :| k <= j < |sorted| && sorted[j] == x;
      var i :| 0 <= i < k && top[i] == y;
    }
  }

  /** A row of a descending order scoring above the last of its first `n`
      rows is among them. */
  lemma TopKeepsLarger<T>(sorted: seq<T>, score: T -> real, n: nat, x: T)
    requires SortedDesc(sorted, score) && x in sorted
    requires var top := Prefix(sorted, n); |top| > 0 && score(x) > score(top[|top| - 1])
    ensures x in Prefix(sorted, n)
  {
    var top := Prefix(sorted, n);
    var j :| 0 <= j < |sorted| && sorted[j] == x;
    assert top[j] == x;
  }

  // ---------------------------------------------------------------------
  // round(2)

  /** A whole number of hundredths. */
  predicate IsCents(x: real) {
    (x * 100.0).Floor as real == x * 100.0
  }

  /** Rounding to two decimals, half to even, as numpy's `round` does on the
      exact value: the result is a whole number of cents at most half a cent
      away (so the nearest one), and an exact tie goes to the even cent. */
  function RoundCents(x: real): (r: real)
    ensures IsCents(r)
    ensures -0.005 <= r - x <= 0.005
    ensures (r - x == 0.005 || x - r == 0.005) ==> (r * 100.0).Floor % 2 == 0
  {
    var scaled := x * 100.0;
    var k := scaled.Floor;
    var frac := scaled - k as real;
    var n := if frac < 0.5 then k else if frac > 0.5 then k + 1 else if k % 2 == 0 then k else k + 1;
    assert n as real / 100.0 * 100.0 == n as real;
    n as real / 100.0
  }

  lemma RoundCentsExact(x: real)
    requires IsCents(x)
    ensures RoundCents(x) == x
  {
  }

  lemma {:induction false} KeyTotalOfCents<T, K>(rows: seq<T>, key: T -> K, val: T -> real, k: K)
    requires forall i :: 0 <= i < |rows| ==> IsCents(val(rows[i]))
    ensures IsCents(KeyTotal(rows, key, val, k))
  {
    if rows != [] {
      var init, x := rows[..|rows| - 1], rows[|rows| - 1];
      assert forall i :: 0 <= i < |init| ==> init[i] == rows[i];
      KeyTotalOfCents(init, key, val, k);
      var a, b := KeyTotal(init, key, val, k) * 100.0, (if key(x) == k then val(x) else 0.0) * 100.0;
      assert (a + b).Floor == a.Floor + b.Floor;
    }
  }

  lemma {:induction false} TotalOfCents<T>(rows: seq<T>, val: T -> real)
    requires forall i :: 0 <= i < |rows| ==> IsCents(val(rows[i]))
    ensures IsCents(Total(rows, val))
  {
    if rows != [] {
      var init := rows[..|rows| - 1];
      assert forall i :: 0 <= i < |init| ==> init[i] == rows[i];
      TotalOfCents(init, val);
      var a, b := Total(init, val) * 100.0, val(rows[|rows| - 1]) * 100.0;
      assert (a + b).Floor == a.Floor + b.Floor;
    }
  }
}
