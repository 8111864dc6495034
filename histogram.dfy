/** The computation both `printHistogramData` functions share: the deltas
    between consecutive timestamps, how often each delta occurs, and the order
    in which JavaScript enumerates the keys of the `counts` object. Timestamps
    are whole milliseconds. */
module Histogram {

  /** Differences between consecutive timestamps. */
  function Deltas(data: seq<int>): seq<int>
  {
    if |data| < 2 then [] else Deltas(data[..|data| - 1]) + [data[|data| - 1] - data[|data| - 2]]
  }

  /** There is one delta fewer than timestamps, the i-th being the gap after the i-th timestamp. */
  lemma {:induction false} DeltasShape(data: seq<int>)
    ensures |Deltas(data)| == if |data| == 0 then 0 else |data| - 1
    ensures forall i :: 0 <= i < |Deltas(data)| ==> Deltas(data)[i] == data[i + 1] - data[i]
  {
    if |data| >= 2 {
      var init := data[..|data| - 1];
      DeltasShape(init);
      forall i | 0 <= i < |Deltas(init)|
        ensures Deltas(data)[i] == data[i + 1] - data[i]
      {
        assert Deltas(data)[i] == Deltas(init)[i];
      }
    }
  }

  /** The first loop of `printHistogramData`: push each consecutive difference. */
  method DeltaTimes(data: seq<int>) returns (deltaTimes: seq<int>)
    ensures deltaTimes == Deltas(data)
    ensures |deltaTimes| == if |data| == 0 then 0 else |data| - 1
    ensures forall i :: 0 <= i < |deltaTimes| ==> deltaTimes[i] == data[i + 1] - data[i]
  {
    deltaTimes := [];
    var i := 1;
    while i < |data|
      invariant 1 <= i && (|data| == 0 || i <= |data|)
      invariant deltaTimes == Deltas(data[..if |data| == 0 then 0 else i])
    {
      assert data[..i + 1][..i] == data[..i];
      deltaTimes := deltaTimes + [data[i] - data[i - 1]];
      i := i + 1;
    }
    assert data[..if |data| == 0 then 0 else i] == data;
    DeltasShape(data);
  }

  predicate Distinct(s: seq<int>) {
    forall i, j :: 0 <= i < j < |s| ==> s[i] != s[j]
  }

  /** How often each value occurs in `s`, for the values that occur. */
  function CountsOf(s: seq<int>): map<int, nat>
  {
    map x | x in s :: multiset(s)[x]
  }

  /** The distinct values of `s`, in the order of their first occurrence:
      the order in which the counting loop adds keys to `counts`. */
  function FirstOccurrences(s: seq<int>): (r: seq<int>)
    ensures forall x :: x in r <==> x in s
    ensures Distinct(r)
  {
    if s == [] then []
    else
      var init := FirstOccurrences(s[..|s| - 1]);
      assert s == s[..|s| - 1] + [s[|s| - 1]];
      if s[|s| - 1] in init then init else init + [s[|s| - 1]]
  }

  function Get(counts: map<int, nat>, k: int): nat {
    if k in counts then counts[k] else 0
  }

  /** Sum of the counts of `keys`, a key absent from `counts` counting 0. */
  function Total(counts: map<int, nat>, keys: seq<int>): nat {
    if keys == [] then 0 else Total(counts, keys[..|keys| - 1]) + Get(counts, keys[|keys| - 1])
  }

  /** One more occurrence of `x` adds `x` to the counts or bumps its count. */
  lemma CountsOfSnoc(s: seq<int>, x: int)
    ensures CountsOf(s + [x]) == CountsOf(s)[x := Get(CountsOf(s), x) + 1]
  {
    assert multiset(s + [x]) == multiset(s) + multiset{x};
  }

  /** The second loop of `printHistogramData`: bump `counts[delta]`, or set it
      to 1 when `delta` is new; `order` is the order keys enter `counts`. */
  method CountDeltas(deltaTimes: seq<int>) returns (counts: map<int, nat>, order: seq<int>)
    ensures counts == CountsOf(deltaTimes)
    ensures order == FirstOccurrences(deltaTimes)
    ensures forall d :: d in counts <==> d in deltaTimes
    ensures forall d :: d in counts ==> counts[d] == multiset(deltaTimes)[d]
    ensures Total(counts, order) == |deltaTimes|
  {
    counts, order := map[], [];
    for i := 0 to |deltaTimes|
      invariant counts == CountsOf(deltaTimes[..i])
      invariant order == FirstOccurrences(deltaTimes[..i])
    {
      var delta := deltaTimes[i];
      assert deltaTimes[..i + 1] == deltaTimes[..i] + [delta];
      CountsOfSnoc(deltaTimes[..i], delta);
      if delta in counts {
        counts := counts[delta := counts[delta] + 1];
      } else {
        counts := counts[delta := 1];
        order := order + [delta];
      }
    }
    assert deltaTimes[..|deltaTimes|] == deltaTimes;
    CountsTotal(deltaTimes);
  }

  lemma {:induction false} TotalUpdate(counts: map<int, nat>, keys: seq<int>, x: int, v: nat)
    requires Distinct(keys)
    ensures Total(counts[x := v], keys) == Total(counts, keys) + (if x in keys then v - Get(counts, x) else 0)
  {
    if keys != [] {
      var init := keys[..|keys| - 1];
      TotalUpdate(counts, init, x, v);
      assert keys == init + [keys[|keys| - 1]];
      assert x == keys[|keys| - 1] ==> x !in init;
    }
  }

  lemma {:induction false} TotalAppend(counts: map<int, nat>, a: seq<int>, b: seq<int>)
    ensures Total(counts, a + b) == Total(counts, a) + Total(counts, b)
  {
    if b == [] {
      assert a + b == a;
    } else {
      TotalAppend(counts, a, b[..|b| - 1]);
      assert (a + b)[..|a + b| - 1] == a + b[..|b| - 1];
    }
  }

  /** Taking the key at `j` out of `b` takes its count out of the total. */
  lemma TotalRemoveAt(counts: map<int, nat>, b: seq<int>, j: int)
    requires 0 <= j < |b|
    ensures multiset(b[..j] + b[j + 1..]) == multiset(b) - multiset{b[j]}
    ensures Total(counts, b) == Total(counts, b[..j] + b[j + 1..]) + Get(counts, b[j])
  {
    var x := b[j];
    assert b == b[..j] + [x] + b[j + 1..];
    assert multiset(b) == multiset(b[..j]) + multiset{x} + multiset(b[j + 1..]);
    TotalAppend(counts, b[..j] + [x], b[j + 1..]);
    TotalAppend(counts, b[..j], b[j + 1..]);
    assert (b[..j] + [x])[..j] == b[..j];
  }

  /** The total does not depend on the order in which the keys are listed. */
  lemma {:induction false} TotalPermutation(counts: map<int, nat>, a: seq<int>, b: seq<int>)
    requires multiset(a) == multiset(b)
    ensures Total(counts, a) == Total(counts, b)
    decreases |a|
  {
    if a != [] {
      var x := a[|a| - 1];
      var init := a[..|a| - 1];
      assert a == init + [x];
      assert multiset(init) == multiset(a) - multiset{x};
      assert x in multiset(b);
      var j :| 0 <= j < |b| && b[j] == x;
      TotalRemoveAt(counts, b, j);
      TotalPermutation(counts, init, b[..j] + b[j + 1..]);
    }
  }

  /** The counts, summed over the keys in the order they were added, are the
      number of values counted. */
  lemma {:induction false} CountsTotal(s: seq<int>)
    ensures Total(CountsOf(s), FirstOccurrences(s)) == |s|
  {
    if s != [] {
      var init, x := s[..|s| - 1], s[|s| - 1];
      assert s == init + [x];
      CountsTotal(init);
      CountsOfSnoc(init, x);
      var keys := FirstOccurrences(init);
      TotalUpdate(CountsOf(init), keys, x, Get(CountsOf(init), x) + 1);
      if x !in init {
        assert FirstOccurrences(s) == keys + [x];
        assert (keys + [x])[..|keys|] == keys;
      }
    }
  }

  /** Property keys JavaScript treats as array indices: the integers 0 to 2^32 - 2. */
  predicate IsArrayIndex(k: int) {
    0 <= k < 0xFFFF_FFFF
  }

  predicate Ascending(s: seq<int>) {
    forall i, j :: 0 <= i < j < |s| ==> s[i] < s[j]
  }

  /** The keys of `keys` that are array indices (`index`) or that are not, in their order. */
  function Filter(keys: seq<int>, index: bool): (r: seq<int>)
    ensures forall i :: 0 <= i < |r| ==> IsArrayIndex(r[i]) == index
    ensures forall x :: x in r <==> x in keys && IsArrayIndex(x) == index
    ensures |r| <= |keys|
    ensures Distinct(keys) ==> Distinct(r)
  {
    if keys == [] then []
    else
      var rest := Filter(keys[1..], index);
      assert keys == [keys[0]] + keys[1..];
      if IsArrayIndex(keys[0]) == index then [keys[0]] + rest else rest
  }

  lemma FilterCons(k: int, rest: seq<int>, index: bool)
    ensures Filter([k] + rest, index) == (if IsArrayIndex(k) == index then [k] else []) + Filter(rest, index)
  {
    assert ([k] + rest)[1..] == rest;
  }

  /** Filtering keeps the relative order of the keys it keeps: filtering a
      concatenation is concatenating the filtered parts. */
  lemma {:induction false} FilterAppend(a: seq<int>, b: seq<int>, index: bool)
    ensures Filter(a + b, index) == Filter(a, index) + Filter(b, index)
  {
    if a == [] {
      assert a + b == b;
    } else {
      var keep := if IsArrayIndex(a[0]) == index then [a[0]] else [];
      calc {
        Filter(a + b, index);
        { assert a + b == [a[0]] + (a[1..] + b); }
        Filter([a[0]] + (a[1..] + b), index);
        { FilterCons(a[0], a[1..] + b, index); }
        keep + Filter(a[1..] + b, index);
        { FilterAppend(a[1..], b, index); }
        keep + (Filter(a[1..], index) + Filter(b, index));
        { assert keep + (Filter(a[1..], index) + Filter(b, index)) == (keep + Filter(a[1..], index)) + Filter(b, index); }
        (keep + Filter(a[1..], index)) + Filter(b, index);
        { assert a == [a[0]] + a[1..]; FilterCons(a[0], a[1..], index); }
        Filter(a, index) + Filter(b, index);
      }
    }
  }

  /** Every key is kept by exactly one of the two filters. */
  lemma {:induction false} FilterPartition(keys: seq<int>)
    ensures multiset(Filter(keys, true)) + multiset(Filter(keys, false)) == multiset(keys)
  {
    if keys != [] {
      var k, rest := keys[0], keys[1..];
      assert keys == [k] + rest;
      FilterPartition(rest);
      FilterCons(k, rest, true);
      FilterCons(k, rest, false);
      assert multiset(keys) == multiset{k} + multiset(rest);
    }
  }

  /** A key below every element of an ascending sequence can head it. */
  lemma AscendingCons(h: int, s: seq<int>)
    requires Ascending(s)
    requires forall x :: x in s ==> h < x
    ensures Ascending([h] + s)
  {
    var r := [h] + s;
    forall i, j | 0 <= i < j < |r|
      ensures r[i] < r[j]
    {
      assert r[j] == s[j - 1];
      if i > 0 {
        assert r[i] == s[i - 1];
      } else {
        assert s[j - 1] in s;
      }
    }
  }

  /** A key below the head of an ascending sequence can precede it. */
  lemma InsertFront(sorted: seq<int>, k: int)
    requires Ascending(sorted)
    requires sorted == [] || k < sorted[0]
    ensures Ascending([k] + sorted)
  {
    forall x | x in sorted
      ensures k < x
    {
      var j :| 0 <= j < |sorted| && sorted[j] == x;
      assert j == 0 || sorted[0] < sorted[j];
    }
    AscendingCons(k, sorted);
  }

  /** The head of an ascending sequence stays in front when a larger key is
      inserted into its tail. */
  lemma InsertBehind(sorted: seq<int>, k: int, rest: seq<int>)
    requires Ascending(sorted) && sorted != [] && sorted[0] < k
    requires Ascending(rest)
    requires forall x :: x in rest <==> x in sorted[1..] || x == k
    ensures Ascending([sorted[0]] + rest)
  {
    forall x | x in rest
      ensures sorted[0] < x
    {
      if x != k {
        var j :| 0 <= j < |sorted[1..]| && sorted[1..][j] == x;
        assert sorted[j + 1] == x;
      }
    }
    AscendingCons(sorted[0], rest);
  }

  /** Inserts a new key into an ascending sequence. */
  function Insert(sorted: seq<int>, k: int): (r: seq<int>)
    requires Ascending(sorted) && k !in sorted
    ensures Ascending(r)
    ensures multiset(r) == multiset(sorted) + multiset{k}
    ensures forall x :: x in r <==> x in sorted || x == k
  {
    if sorted == [] || k < sorted[0] then
      InsertFront(sorted, k);
      [k] + sorted
    else
      assert sorted == [sorted[0]] + sorted[1..];
      var rest := Insert(sorted[1..], k);
      InsertBehind(sorted, k, rest);
      [sorted[0]] + rest
  }

  /** The distinct keys in ascending order. */
  function SortAscending(keys: seq<int>): (r: seq<int>)
    requires Distinct(keys)
    ensures Ascending(r)
    ensures multiset(r) == multiset(keys)
    ensures forall x :: x in r <==> x in keys
  {
    if keys == [] then []
    else
      assert keys == keys[..|keys| - 1] + [keys[|keys| - 1]];
      Insert(SortAscending(keys[..|keys| - 1]), keys[|keys| - 1])
  }

  lemma {:induction false} AscendingIsDistinct(s: seq<int>)
    requires Ascending(s)
    ensures Distinct(s)
  {
  }

  /** `Object.keys(counts)` for an object whose keys were added in the order
      `order`: array-index keys first, ascending, then the other keys in the
      order they were added. */
  function ObjectKeys(order: seq<int>): (keys: seq<int>)
    requires Distinct(order)
    ensures |keys| == |order|
    ensures multiset(keys) == multiset(order)
    ensures forall x :: x in keys <==> x in order
    ensures Distinct(keys)
  {
    var indices := SortAscending(Filter(order, true));
    var others := Filter(order, false);
    AscendingIsDistinct(indices);
    FilterPartition(order);
    assert |multiset(order)| == |multiset(Filter(order, true))| + |multiset(others)|;
    indices + others
  }

  /** The array-index keys come first, in ascending order; the other keys
      follow in the order they were added. */
  lemma ObjectKeysOrder(order: seq<int>)
    requires Distinct(order)
    ensures var keys, m := ObjectKeys(order), |Filter(order, true)|;
      && m <= |keys|
      && Ascending(keys[..m])
      && (forall i :: 0 <= i < m ==> IsArrayIndex(keys[i]))
      && keys[m..] == Filter(order, false)
  {
    var indices := SortAscending(Filter(order, true));
    var others := Filter(order, false);
    var keys := ObjectKeys(order);
    assert keys == indices + others;
    var m := |Filter(order, true)|;
    assert |indices| == m by {
      assert |multiset(indices)| == |multiset(Filter(order, true))|;
    }
    assert keys[..m] == indices;
    assert keys[m..] == others;
    forall i | 0 <= i < m
      ensures IsArrayIndex(keys[i])
    {
      assert keys[i] in Filter(order, true);
    }
  }

  /** One row per key, with the key's count. */
  function Rows(counts: map<int, nat>, keys: seq<int>): (rows: seq<(int, nat)>)
    ensures |rows| == |keys|
    ensures forall i :: 0 <= i < |rows| ==> rows[i] == (keys[i], Get(counts, keys[i]))
  {
    if keys == [] then [] else Rows(counts, keys[..|keys| - 1]) + [(keys[|keys| - 1], Get(counts, keys[|keys| - 1]))]
  }

  /** The keys of `rows`, in order. */
  function KeyColumn(rows: seq<(int, nat)>): seq<int> {
    if rows == [] then [] else KeyColumn(rows[..|rows| - 1]) + [rows[|rows| - 1].0]
  }

  /** The counts of `rows`, in order. */
  function CountColumn(rows: seq<(int, nat)>): seq<nat> {
    if rows == [] then [] else CountColumn(rows[..|rows| - 1]) + [rows[|rows| - 1].1]
  }

  /** Printing the keys and the counts as two separate columns loses nothing:
      the i-th entries of the two columns are the i-th row. */
  lemma {:induction false} ColumnsAligned(rows: seq<(int, nat)>)
    ensures |KeyColumn(rows)| == |CountColumn(rows)| == |rows|
    ensures forall i :: 0 <= i < |rows| ==> (KeyColumn(rows)[i], CountColumn(rows)[i]) == rows[i]
  {
    if rows != [] {
      ColumnsAligned(rows[..|rows| - 1]);
    }
  }

  /** What `printHistogramData` reports for `data`: each distinct delta, in
      the order `Object.keys(counts)` yields it, with its count. */
  function Report(data: seq<int>): seq<(int, nat)>
  {
    var deltas := Deltas(data);
    var order := FirstOccurrences(deltas);
    Rows(CountsOf(deltas), ObjectKeys(order))
  }

  /** Sum of the count column. */
  function CountSum(rows: seq<(int, nat)>): nat {
    if rows == [] then 0 else CountSum(rows[..|rows| - 1]) + rows[|rows| - 1].1
  }

  lemma {:induction false} CountSumRows(counts: map<int, nat>, keys: seq<int>)
    ensures CountSum(Rows(counts, keys)) == Total(counts, keys)
  {
    if keys != [] {
      CountSumRows(counts, keys[..|keys| - 1]);
      var rows := Rows(counts, keys);
      assert rows[..|rows| - 1] == Rows(counts, keys[..|keys| - 1]);
    }
  }

  /** Each reported key is a delta, no key is reported twice, and each comes
      with the number of times it occurs among the deltas. */
  lemma ReportRows(data: seq<int>)
    ensures var rows := Report(data);
      && (forall i, j :: 0 <= i < j < |rows| ==> rows[i].0 != rows[j].0)
      && (forall i :: 0 <= i < |rows| ==> rows[i].0 in Deltas(data) && rows[i].1 == multiset(Deltas(data))[rows[i].0])
  {
    var deltas := Deltas(data);
    var keys := ObjectKeys(FirstOccurrences(deltas));
    var rows := Report(data);
    assert |rows| == |keys|;
    forall i | 0 <= i < |rows|
      ensures rows[i].0 in deltas && rows[i].1 == multiset(deltas)[rows[i].0]
    {
      assert rows[i] == (keys[i], Get(CountsOf(deltas), keys[i]));
      assert keys[i] in keys;
    }
  }

  /** Every delta is reported. */
  lemma ReportCoversDeltas(data: seq<int>)
    ensures var rows := Report(data);
      forall d :: d in Deltas(data) ==> exists i :: 0 <= i < |rows| && rows[i].0 == d
  {
    var deltas := Deltas(data);
    var keys := ObjectKeys(FirstOccurrences(deltas));
    var rows := Report(data);
    forall d | d in deltas
      ensures exists i :: 0 <= i < |rows| && rows[i].0 == d
    {
      assert d in keys;
      var i :| 0 <= i < |keys| && keys[i] == d;
      assert rows[i].0 == d;
    }
  }

  /** The reported counts add up to the number of deltas. */
  lemma ReportSum(data: seq<int>)
    ensures CountSum(Report(data)) == |Deltas(data)|
  {
    var deltas := Deltas(data);
    var order := FirstOccurrences(deltas);
    var keys := ObjectKeys(order);
    CountSumRows(CountsOf(deltas), keys);
    TotalPermutation(CountsOf(deltas), keys, order);
    CountsTotal(deltas);
  }
}
