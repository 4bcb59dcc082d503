/** Sequence and map helpers of the functional toolkit: zip, stack, product,
    explode, countTo, between, mapcat, valmap, edgesToGraph, groupByMany and
    the first/filter helpers over already resolved results. */
module Functional {
  import opened Wrappers

  /** JavaScript `arr[i]`: the element at `i`, or `undefined` past the end. */
  function At<T>(s: seq<T>, i: nat): Option<T>
  {
    if i < |s| then Some(s[i]) else None
  }

  // ----------------------------------------------------------------------
  // zip: one row per element of the FIRST array
  // ----------------------------------------------------------------------

  /** `arrays.map(arr => arr[i])` */
  function ZipRow<T>(arrays: seq<seq<T>>, i: nat): (row: seq<Option<T>>)
    ensures |row| == |arrays|
    ensures forall j :: 0 <= j < |arrays| ==> row[j] == At(arrays[j], i)
  {
    if arrays == [] then [] else [At(arrays[0], i)] + ZipRow(arrays[1..], i)
  }

  /** The first `n` rows of the zip. */
  function ZipRows<T>(arrays: seq<seq<T>>, n: nat): (rows: seq<seq<Option<T>>>)
    ensures |rows| == n
    ensures forall i :: 0 <= i < n ==> rows[i] == ZipRow(arrays, i)
  {
    if n == 0 then [] else ZipRows(arrays, n - 1) + [ZipRow(arrays, n - 1)]
  }

  /** `zip(...arrays)`. With no arrays at all, `arrays[0].map` throws (`None`).
      Otherwise there is one row per element of the first array, and cell `j`
      of row `i` is `arrays[j][i]`, `undefined` past the end of `arrays[j]`. */
  function Zip<T>(arrays: seq<seq<T>>): (r: Option<seq<seq<Option<T>>>>)
    ensures r.None? <==> arrays == []
    ensures r.Some? ==> |r.value| == |arrays[0]|
    ensures r.Some? ==> forall i :: 0 <= i < |r.value| ==> |r.value[i]| == |arrays|
    ensures r.Some? ==> forall i, j :: 0 <= i < |r.value| && 0 <= j < |arrays| ==>
      r.value[i][j] == At(arrays[j], i)
  {
    if arrays == [] then None else Some(ZipRows(arrays, |arrays[0]|))
  }

  /** Every one of `arrays` has length `n`. */
  ghost predicate Rectangular<T>(arrays: seq<seq<T>>, n: nat)
  {
    forall j :: 0 <= j < |arrays| ==> |arrays[j]| == n
  }

  /** `arrays` with every element wrapped twice in `Some`. */
  function Lifted<T>(arrays: seq<seq<T>>): seq<seq<Option<Option<T>>>>
  {
    seq(|arrays|, j requires 0 <= j < |arrays| =>
      seq(|arrays[j]|, i requires 0 <= i < |arrays[j]| => Some(Some(arrays[j][i]))))
  }

  /** On a non-empty rectangle zip is a transposition: zipping twice gives
      back the input, every cell defined. */
  lemma ZipTwiceTransposes<T>(arrays: seq<seq<T>>, n: nat)
    requires |arrays| > 0 && n > 0 && Rectangular(arrays, n)
    ensures Zip(arrays).Some? && Zip(Zip(arrays).value) == Some(Lifted(arrays))
  {
    var rows := Zip(arrays).value;
    assert |rows| == n;
    var back := Zip(rows).value;
    assert |back| == |rows[0]| == |arrays|;
    forall j | 0 <= j < |arrays|
      ensures back[j] == Lifted(arrays)[j]
    {
      assert |back[j]| == |rows| == |arrays[j]|;
      forall i | 0 <= i < n
        ensures back[j][i] == Lifted(arrays)[j][i]
      {
        assert back[j][i] == At(rows[i], j);
        assert rows[i][j] == At(arrays[j], i);
      }
      assert |Lifted(arrays)[j]| == n;
    }
    assert back == Lifted(arrays);
  }

  // ----------------------------------------------------------------------
  // stack: apply the i-th function to the i-th value
  // ----------------------------------------------------------------------

  /** `stack(functions)(values)`, which zips with the module's own `zip`: one
      result per FUNCTION, the function at `i` applied to `values[i]`, or to
      `undefined` where `values` is shorter. */
  function Stack<X, Y>(functions: seq<Option<X> -> Y>, values: seq<X>): (r: seq<Y>)
    ensures |r| == |functions|
    ensures forall i :: 0 <= i < |functions| ==> r[i] == functions[i](At(values, i))
  {
    if functions == [] then []
    else [functions[0](At(values, 0))] + Stack(functions[1..], if values == [] then [] else values[1..])
  }

  // ----------------------------------------------------------------------
  // product: the cartesian product, by reduce over [[]]
  // ----------------------------------------------------------------------

  /** `b.map(y => [...x, y])` */
  function Appended<T>(x: seq<T>, b: seq<T>): seq<seq<T>>
  {
    seq(|b|, k requires 0 <= k < |b| => x + [b[k]])
  }

  /** `acc.flatMap(x => b.map(y => [...x, y]))`, the reducer of `product`. */
  function Extend<T>(acc: seq<seq<T>>, b: seq<T>): seq<seq<T>>
  {
    if acc == [] then [] else Appended(acc[0], b) + Extend(acc[1..], b)
  }

  /** `product(arrays)`: a left fold of `Extend` starting from `[[]]`. */
  function Product<T>(arrays: seq<seq<T>>): seq<seq<T>>
  {
    if arrays == [] then [[]]
    else Extend(Product(arrays[..|arrays| - 1]), arrays[|arrays| - 1])
  }

  /** The product of the lengths of `arrays` (1 for no arrays). */
  function ProductOfLengths<T>(arrays: seq<seq<T>>): nat
  {
    if arrays == [] then 1
    else ProductOfLengths(arrays[..|arrays| - 1]) * |arrays[|arrays| - 1]|
  }

  /** `t` takes, position by position, one element of each of `arrays`. */
  ghost predicate IsTuple<T>(t: seq<T>, arrays: seq<seq<T>>)
  {
    |t| == |arrays| && forall j :: 0 <= j < |t| ==> t[j] in arrays[j]
  }

  lemma {:induction false} ExtendLength<T>(acc: seq<seq<T>>, b: seq<T>)
    ensures |Extend(acc, b)| == |acc| * |b|
  {
    if acc != [] {
      ExtendLength(acc[1..], b);
      assert |acc| * |b| == |b| + (|acc| - 1) * |b|;
    }
  }

  lemma {:induction false} ExtendMembers<T>(acc: seq<seq<T>>, b: seq<T>, t: seq<T>)
    ensures t in Extend(acc, b) <==> |t| > 0 && t[..|t| - 1] in acc && t[|t| - 1] in b
  {
    if acc != [] {
      ExtendMembers(acc[1..], b, t);
      var x := acc[0];
      if t in Appended(x, b) {
        var k :| 0 <= k < |b| && Appended(x, b)[k] == t;
        assert t[..|t| - 1] == x;
      }
      if |t| > 0 && t[..|t| - 1] == x && t[|t| - 1] in b {
        var k :| 0 <= k < |b| && b[k] == t[|t| - 1];
        assert t == x + [b[k]];
        assert Appended(x, b)[k] == t;
      }
      assert t in Extend(acc, b) <==> t in Appended(x, b) || t in Extend(acc[1..], b);
      if |t| > 0 {
        assert t[..|t| - 1] in acc <==> t[..|t| - 1] == x || t[..|t| - 1] in acc[1..] by {
          assert acc == [x] + acc[1..];
        }
      }
    }
  }

  /** The product has as many tuples as the product of the input lengths. */
  lemma {:induction false} ProductLength<T>(arrays: seq<seq<T>>)
    ensures |Product(arrays)| == ProductOfLengths(arrays)
  {
    if arrays != [] {
      var n := |arrays| - 1;
      ProductLength(arrays[..n]);
      ExtendLength(Product(arrays[..n]), arrays[n]);
    }
  }

  /** A list is in the product exactly when it takes one element from each
      input, in input order; in particular `product([])` is `[[]]`. */
  lemma {:induction false} ProductMembers<T>(arrays: seq<seq<T>>, t: seq<T>)
    ensures t in Product(arrays) <==> IsTuple(t, arrays)
  {
    if arrays == [] {
      assert Product(arrays) == [[]];
    } else {
      var n := |arrays| - 1;
      var prefix := arrays[..n];
      ExtendMembers(Product(prefix), arrays[n], t);
      if |t| > 0 {
        ProductMembers(prefix, t[..|t| - 1]);
        if IsTuple(t, arrays) {
          assert IsTuple(t[..|t| - 1], prefix);
        }
        if IsTuple(t[..|t| - 1], prefix) && t[|t| - 1] in arrays[n] {
          forall j | 0 <= j < |t|
            ensures t[j] in arrays[j]
          {
            if j < n { assert t[..|t| - 1][j] == t[j]; }
          }
        }
      }
    }
  }

  // ----------------------------------------------------------------------
  // explode: a product over the positions named, other positions kept
  // ----------------------------------------------------------------------

  /** A JavaScript value as far as `explode` looks at it: an array, or
      anything else. */
  datatype Value<T> = Atom(atom: T) | Arr(items: seq<Value<T>>)

  /** `wrapArray` */
  function WrapArray<T>(x: Value<T>): Value<T>
  {
    Arr([x])
  }

  /** `doOnPositions(f, predicate)(x, i)`: `f(x)` where the predicate `test` holds of `i`,
      `x` elsewhere. */
  function DoOnPositions<X>(f: X -> X, test: int -> bool, x: X, i: int): X
  {
    if test(i) then f(x) else x
  }

  /** The indexed map in `explode`: every position not among `positions` is
      wrapped in a one-element array. */
  function Columns<T>(positions: seq<int>, row: seq<Value<T>>): seq<Value<T>>
  {
    seq(|row|, i requires 0 <= i < |row| =>
      DoOnPositions(WrapArray, p => p !in positions, row[i], i))
  }

  /** `product` over JavaScript values: reducing into a non-empty accumulator
      calls `.map` on the next column, which throws (`None`) when that column
      is not an array; an empty accumulator never looks at the column. */
  function ProductOfValues<T>(columns: seq<Value<T>>): Option<seq<seq<Value<T>>>>
  {
    if columns == [] then Some([[]])
    else
      match ProductOfValues(columns[..|columns| - 1])
      case None => None
      case Some(acc) =>
        if acc == [] then Some([])
        else
          match columns[|columns| - 1]
          case Arr(items) => Some(Extend(acc, items))
          case Atom(_) => None
  }

  /** `explode(...positions)(row)` */
  function Explode<T>(positions: seq<int>, row: seq<Value<T>>): Option<seq<seq<Value<T>>>>
  {
    ProductOfValues(Columns(positions, row))
  }

  /** Every column is an array. */
  ghost predicate AllArrays<T>(columns: seq<Value<T>>)
  {
    forall i :: 0 <= i < |columns| ==> columns[i].Arr?
  }

  /** The element lists of columns that are all arrays. */
  function ItemsOf<T>(columns: seq<Value<T>>): seq<seq<Value<T>>>
    requires AllArrays(columns)
  {
    seq(|columns|, i requires 0 <= i < |columns| => columns[i].items)
  }

  /** On columns that are all arrays, the value product is the list product. */
  lemma {:induction false} ProductOfArrays<T>(columns: seq<Value<T>>)
    requires AllArrays(columns)
    ensures ProductOfValues(columns) == Some(Product(ItemsOf(columns)))
  {
    if columns != [] {
      var n := |columns| - 1;
      ProductOfArrays(columns[..n]);
      assert ItemsOf(columns)[..n] == ItemsOf(columns[..n]);
      if Product(ItemsOf(columns[..n])) == [] {
        assert Extend([], columns[n].items) == [];
      }
    }
  }

  /** Every position the row explodes holds an array. */
  ghost predicate ExplodesArrays<T>(positions: seq<int>, row: seq<Value<T>>)
  {
    forall i :: 0 <= i < |row| && i in positions ==> row[i].Arr?
  }

  /** When every exploded position holds an array, `explode` succeeds; each
      result row is as long as the input, equal to it off the exploded
      positions and holding one element of the input's array on them; there
      are as many rows as the product of the column lengths, where a column
      that is not exploded counts one. */
  lemma ExplodeRows<T>(positions: seq<int>, row: seq<Value<T>>)
    requires ExplodesArrays(positions, row)
    ensures AllArrays(Columns(positions, row))
    ensures Explode(positions, row).Some?
    ensures |Explode(positions, row).value| == ProductOfLengths(ItemsOf(Columns(positions, row)))
    ensures forall i :: 0 <= i < |row| && i !in positions ==> ItemsOf(Columns(positions, row))[i] == [row[i]]
    ensures forall r, i :: r in Explode(positions, row).value && 0 <= i < |row| ==>
      |r| == |row| && (i !in positions ==> r[i] == row[i]) && (i in positions ==> r[i] in row[i].items)
  {
    var cols := Columns(positions, row);
    ProductOfArrays(cols);
    var rows := Product(ItemsOf(cols));
    ProductLength(ItemsOf(cols));
    forall r, i | r in rows && 0 <= i < |row|
      ensures |r| == |row| && (i !in positions ==> r[i] == row[i]) && (i in positions ==> r[i] in row[i].items)
    {
      ProductMembers(ItemsOf(cols), r);
      assert r[i] in ItemsOf(cols)[i];
    }
  }

  // ----------------------------------------------------------------------
  // countTo and between
  // ----------------------------------------------------------------------

  /** `between([start, end])(x)`: the half-open interval test. */
  predicate Between(start: int, end: int, x: int)
  {
    start <= x && x < end
  }

  /** `countTo(x)`: the for-loop pushing `0, 1, ..., x - 1`; nothing for
      `x <= 0`. Its elements are exactly the integers `between([0, x])`. */
  method CountTo(x: int) returns (result: seq<int>)
    ensures |result| == if x <= 0 then 0 else x
    ensures forall i :: 0 <= i < |result| ==> result[i] == i
    ensures forall v :: v in result <==> Between(0, x, v)
  {
    result := [];
    var i := 0;
    while i < x
      invariant 0 <= i && (x <= 0 ==> i == 0) && (x > 0 ==> i <= x)
      invariant |result| == i
      invariant forall k :: 0 <= k < i ==> result[k] == k
    {
      result := result + [i];
      i := i + 1;
    }
    forall v | Between(0, x, v)
      ensures v in result
    {
      assert result[v] == v;
    }
  }

  // ----------------------------------------------------------------------
  // mapcat and valmap
  // ----------------------------------------------------------------------

  /** `mapcat(f)(xs)`: `reduce(concat, [])` over `map(f)(xs)`, a left fold.
      An element is in the result exactly when it is in `f(x)` for some `x`
      of `xs`. */
  function Mapcat<X(!new), Y(!new)>(f: X -> seq<Y>, xs: seq<X>): (r: seq<Y>)
    ensures forall y :: y in r <==> exists x :: x in xs && y in f(x)
  {
    if xs == [] then []
    else
      var init := Mapcat(f, xs[..|xs| - 1]);
      assert forall x :: x in xs <==> x in xs[..|xs| - 1] || x == xs[|xs| - 1] by {
        assert xs == xs[..|xs| - 1] + [xs[|xs| - 1]];
      }
      init + f(xs[|xs| - 1])
  }

  /** The total length of the lists `f` gives for `xs`. */
  function SumOfLengths<X, Y>(f: X -> seq<Y>, xs: seq<X>): nat
  {
    if xs == [] then 0 else |f(xs[0])| + SumOfLengths(f, xs[1..])
  }

  /** Concatenation drops nothing: the result is as long as all the lists
      `f` returns together. */
  lemma {:induction false} MapcatLength<X(!new), Y(!new)>(f: X -> seq<Y>, xs: seq<X>)
    ensures |Mapcat(f, xs)| == SumOfLengths(f, xs)
  {
    if xs != [] {
      var n := |xs| - 1;
      MapcatLength(f, xs[..n]);
      SumOfLengthsSnoc(f, xs[..n], xs[n]);
      assert xs[..n] + [xs[n]] == xs;
    }
  }

  lemma {:induction false} SumOfLengthsSnoc<X, Y>(f: X -> seq<Y>, xs: seq<X>, x: X)
    ensures SumOfLengths(f, xs + [x]) == SumOfLengths(f, xs) + |f(x)|
  {
    if xs != [] {
      SumOfLengthsSnoc(f, xs[1..], x);
      assert (xs + [x])[1..] == xs[1..] + [x];
    }
  }

  /** Concatenation keeps order and multiplicity: mapcat of a
      concatenation is the concatenation of the mapcats. */
  lemma {:induction false} MapcatAppend<X(!new), Y(!new)>(f: X -> seq<Y>, xs: seq<X>, ys: seq<X>)
    ensures Mapcat(f, xs + ys) == Mapcat(f, xs) + Mapcat(f, ys)
  {
    if ys == [] {
      assert xs + ys == xs;
    } else {
      var n := |ys| - 1;
      MapcatAppend(f, xs, ys[..n]);
      assert (xs + ys)[..|xs + ys| - 1] == xs + ys[..n];
      assert (xs + ys)[|xs + ys| - 1] == ys[n];
    }
  }

  /** `Object.fromEntries(entries)`: a left fold, a later entry for a key
      replacing an earlier one. */
  function FromEntries<K, V>(entries: seq<(K, V)>): map<K, V>
  {
    if entries == [] then map[]
    else FromEntries(entries[..|entries| - 1])[entries[|entries| - 1].0 := entries[|entries| - 1].1]
  }

  /** The object has exactly the keys of its entries, and the value of the
      last entry for each. */
  lemma {:induction false} FromEntriesLast<K, V>(entries: seq<(K, V)>, k: K, i: nat)
    ensures k in FromEntries(entries) <==> exists j :: 0 <= j < |entries| && entries[j].0 == k
    ensures i < |entries| && entries[i].0 == k && (forall j :: i < j < |entries| ==> entries[j].0 != k) ==>
      k in FromEntries(entries) && FromEntries(entries)[k] == entries[i].1
  {
    if entries != [] {
      var n := |entries| - 1;
      FromEntriesLast(entries[..n], k, i);
      if k in FromEntries(entries[..n]) {
        var j :| 0 <= j < n && entries[..n][j].0 == k;
        assert entries[j].0 == k;
      }
    }
  }

  /** `Object.entries(o).map(([x, y]) => [x, f(y)])` */
  function MapEntries<K, V, W>(f: V -> W, entries: seq<(K, V)>): seq<(K, W)>
  {
    seq(|entries|, i requires 0 <= i < |entries| => (entries[i].0, f(entries[i].1)))
  }

  /** `valmap(f)(o)`, where `entries` is `Object.entries(o)`. */
  function Valmap<K, V, W>(f: V -> W, entries: seq<(K, V)>): map<K, W>
  {
    FromEntries(MapEntries(f, entries))
  }

  /** Reference definition: the object, each value replaced by its image. */
  function Pointwise<K, V, W>(f: V -> W, o: map<K, V>): map<K, W>
  {
    map k | k in o :: f(o[k])
  }

  /** Rebuilding the object from mapped entries maps it pointwise: the
      same keys as the object the entries make, each value replaced by its
      image. */
  lemma {:induction false} ValmapPointwise<K, V, W>(f: V -> W, entries: seq<(K, V)>)
    ensures Valmap(f, entries) == Pointwise(f, FromEntries(entries))
  {
    if entries != [] {
      var n := |entries| - 1;
      ValmapPointwise(f, entries[..n]);
      assert MapEntries(f, entries)[..n] == MapEntries(f, entries[..n]);
      var before := FromEntries(entries[..n]);
      assert Pointwise(f, before)[entries[n].0 := f(entries[n].1)]
          == Pointwise(f, before[entries[n].0 := entries[n].1]);
    }
  }

  /** Mapping values twice is mapping them once by the composition. */
  lemma ValmapCompose<K, U, V, W>(f: U -> V, g: V -> W, entries: seq<(K, U)>)
    ensures Valmap(g, MapEntries(f, entries)) == Valmap(x => g(f(x)), entries)
  {
    assert MapEntries(g, MapEntries(f, entries)) == MapEntries(x => g(f(x)), entries);
  }

  // ----------------------------------------------------------------------
  // edgesToGraph and groupByMany
  // ----------------------------------------------------------------------

  /** Reference definition: the targets of the edges leaving `k`, in edge
      order, duplicates kept. */
  function ValuesFor<K(==), V>(edges: seq<(K, V)>, k: K): seq<V>
  {
    if edges == [] then []
    else (if edges[0].0 == k then [edges[0].1] else []) + ValuesFor(edges[1..], k)
  }

  lemma {:induction false} ValuesForMembers<K, V>(edges: seq<(K, V)>, k: K, v: V)
    ensures v in ValuesFor(edges, k) <==> (k, v) in edges
  {
    if edges != [] {
      ValuesForMembers(edges[1..], k, v);
      assert edges == [edges[0]] + edges[1..];
    }
  }

  lemma {:induction false} ValuesForEmpty<K, V>(edges: seq<(K, V)>, k: K)
    ensures ValuesFor(edges, k) == [] <==> forall i :: 0 <= i < |edges| ==> edges[i].0 != k
  {
    if edges != [] {
      ValuesForEmpty(edges[1..], k);
      assert forall i :: 1 <= i < |edges| ==> edges[i] == edges[1..][i - 1];
    }
  }

  lemma {:induction false} ValuesForSnoc<K, V>(edges: seq<(K, V)>, e: (K, V), k: K)
    ensures ValuesFor(edges + [e], k) == ValuesFor(edges, k) + (if e.0 == k then [e.1] else [])
  {
    if edges != [] {
      ValuesForSnoc(edges[1..], e, k);
      assert (edges + [e])[1..] == edges[1..] + [e];
    }
  }

  /** Ramda's `groupBy(nth(0))` over the edges, as a left fold: each edge's
      target is appended to the list of its source. */
  function GroupBy<K(==), V>(edges: seq<(K, V)>): map<K, seq<V>>
  {
    if edges == [] then map[]
    else
      var g := GroupBy(edges[..|edges| - 1]);
      var e := edges[|edges| - 1];
      g[e.0 := (if e.0 in g then g[e.0] else []) + [e.1]]
  }

  /** Grouping lists, under exactly the keys that occur, all the targets of
      each key in edge order. */
  lemma {:induction false} GroupByValues<K, V>(edges: seq<(K, V)>, k: K)
    ensures k in GroupBy(edges) <==> ValuesFor(edges, k) != []
    ensures k in GroupBy(edges) ==> GroupBy(edges)[k] == ValuesFor(edges, k)
  {
    if edges != [] {
      var n := |edges| - 1;
      GroupByValues(edges[..n], k);
      ValuesForSnoc(edges[..n], edges[n], k);
      assert edges[..n] + [edges[n]] == edges;
    }
  }

  /** No element occurs twice. */
  predicate NoDuplicates<T(==)>(s: seq<T>)
  {
    forall i, j :: 0 <= i < j < |s| ==> s[i] != s[j]
  }

  /** The index of the first occurrence of `x` in `s`. */
  function FirstIndex<T(==)>(s: seq<T>, x: T): (i: nat)
    requires x in s
    ensures i < |s| && s[i] == x && x !in s[..i]
  {
    if s[0] == x then 0
    else
      var i := 1 + FirstIndex(s[1..], x);
      assert s[..i] == [s[0]] + s[1..][..i - 1];
      i
  }

  /** Ramda's `uniq`, as a left fold keeping the first occurrence of each
      element. */
  function Uniq<T(==,!new)>(s: seq<T>): (u: seq<T>)
    ensures forall x :: x in u <==> x in s
    ensures NoDuplicates(u)
  {
    if s == [] then []
    else
      var u := Uniq(s[..|s| - 1]);
      assert s == s[..|s| - 1] + [s[|s| - 1]];
      if s[|s| - 1] in u then u else u + [s[|s| - 1]]
  }

  lemma FirstIndexOfPrefix<T>(s: seq<T>, n: nat, x: T)
    requires n <= |s| && x in s[..n]
    ensures x in s && FirstIndex(s, x) == FirstIndex(s[..n], x)
  {
    var i := FirstIndex(s[..n], x);
    var j := FirstIndex(s, x);
    assert s[..n][..i] == s[..i];
  }

  /** `uniq` keeps first-occurrence order. */
  lemma {:induction false} UniqOrder<T(!new)>(s: seq<T>, i: nat, j: nat)
    requires i < j < |Uniq(s)|
    ensures FirstIndex(s, Uniq(s)[i]) < FirstIndex(s, Uniq(s)[j])
  {
    var n := |s| - 1;
    var u := Uniq(s[..n]);
    if j < |u| {
      UniqOrder(s[..n], i, j);
      FirstIndexOfPrefix(s, n, u[i]);
      FirstIndexOfPrefix(s, n, u[j]);
    } else {
      assert Uniq(s)[j] == s[n] && s[n] !in s[..n];
      assert FirstIndex(s, s[n]) == n;
      FirstIndexOfPrefix(s, n, u[i]);
    }
  }

  /** `edgesToGraph(edges)`: `groupBy(nth(0))`, then `uniq` of the targets. */
  function EdgesToGraph<K(==), V(==,!new)>(edges: seq<(K, V)>): map<K, seq<V>>
  {
    var groups := GroupBy(edges);
    map k | k in groups :: Uniq(groups[k])
  }

  /** The graph has a node for exactly the sources that occur; `v` is listed
      under `k` exactly when the edge `(k, v)` exists; each list is free of
      duplicates and is `uniq` of the targets in edge order. */
  lemma EdgesToGraphSpec<K, V(!new)>(edges: seq<(K, V)>, k: K, v: V)
    ensures k in EdgesToGraph(edges) <==> exists i :: 0 <= i < |edges| && edges[i].0 == k
    ensures k in EdgesToGraph(edges) ==>
      && EdgesToGraph(edges)[k] == Uniq(ValuesFor(edges, k))
      && NoDuplicates(EdgesToGraph(edges)[k])
      && (v in EdgesToGraph(edges)[k] <==> (k, v) in edges)
  {
    GroupByValues(edges, k);
    ValuesForEmpty(edges, k);
    ValuesForMembers(edges, k, v);
  }

  /** `xprod(ks, [e])`: the edges from each of `ks` to `e`. */
  function PairsTo<K(==,!new), T(==,!new)>(ks: seq<K>, e: T): (r: seq<(K, T)>)
    ensures forall p :: p in r <==> p.0 in ks && p.1 == e
  {
    var r := seq(|ks|, i requires 0 <= i < |ks| => (ks[i], e));
    assert forall i :: 0 <= i < |ks| ==> r[i] == (ks[i], e);
    r
  }

  /** `groupByMany(f)(elements)`: the edges `(k, e)` for every `k` of `f(e)`,
      collected by `chain`, then `edgesToGraph`. */
  function GroupByMany<K(==,!new), T(==,!new)>(f: T -> seq<K>, elements: seq<T>): map<K, seq<T>>
  {
    EdgesToGraph(Mapcat(e => PairsTo(f(e), e), elements))
  }

  /** An element is listed under `k` exactly when it is one of `elements`
      and `k` is one of its keys; a key is present exactly when some element
      has it; no list repeats an element. */
  lemma GroupByManySpec<K(!new), T(!new)>(f: T -> seq<K>, elements: seq<T>, k: K, e: T)
    ensures k in GroupByMany(f, elements) <==> exists x :: x in elements && k in f(x)
    ensures k in GroupByMany(f, elements) ==>
      && NoDuplicates(GroupByMany(f, elements)[k])
      && (e in GroupByMany(f, elements)[k] <==> e in elements && k in f(e))
  {
    var edges := Mapcat(x => PairsTo(f(x), x), elements);
    EdgesToGraphSpec(edges, k, e);
    if exists x :: x in elements && k in f(x) {
      var x :| x in elements && k in f(x);
      assert (k, x) in PairsTo(f(x), x);
      assert (k, x) in edges;
      var i :| 0 <= i < |edges| && edges[i] == (k, x);
    }
    if k in GroupByMany(f, elements) {
      var i :| 0 <= i < |edges| && edges[i].0 == k;
      assert edges[i] in edges;
    }
    if e in elements && k in f(e) {
      assert (k, e) in PairsTo(f(e), e);
    }
  }

  // ----------------------------------------------------------------------
  // asyncFirst and asyncFilter, over results already resolved
  // ----------------------------------------------------------------------

  /** Ramda's `filter`: the elements satisfying `p`, in order. */
  function Filter<T(!new)>(p: T -> bool, s: seq<T>): (r: seq<T>)
    ensures forall x :: x in r <==> x in s && p(x)
    ensures |r| <= |s|
  {
    if s == [] then []
    else
      assert s == [s[0]] + s[1..];
      (if p(s[0]) then [s[0]] else []) + Filter(p, s[1..])
  }

  /** `asyncFirst(...funcs)(...args)` once every call has resolved:
      `results[i]` is what `funcs[i]` resolved to and `truthy` is JavaScript
      truthiness; the first truthy result, or `undefined`. */
  function AsyncFirst<V(!new)>(truthy: V -> bool, results: seq<V>): (r: Option<V>)
    ensures r.None? <==> forall i :: 0 <= i < |results| ==> !truthy(results[i])
    ensures r.Some? ==> exists i :: (0 <= i < |results| && r.value == results[i] && truthy(results[i])
      && forall j :: 0 <= j < i ==> !truthy(results[j]))
  {
    var kept := Filter(truthy, results);
    FilterHead(truthy, results);
    if |kept| > 0 then Some(kept[0]) else None
  }

  /** The head of a filter is the first element satisfying the predicate. */
  lemma FilterHead<T(!new)>(p: T -> bool, s: seq<T>)
    ensures Filter(p, s) == [] <==> forall i :: 0 <= i < |s| ==> !p(s[i])
    ensures Filter(p, s) != [] ==> exists i :: (0 <= i < |s| && Filter(p, s)[0] == s[i] && p(s[i])
      && forall j :: 0 <= j < i ==> !p(s[j]))
  {
    if i :| 0 <= i < |s| && p(s[i]) {
      var first := FirstSatisfying(p, s, i);
      FilterHeadAt(p, s, first);
    } else {
      assert forall x :: x in s ==> !p(x);
    }
  }

  /** Below any index satisfying `p` lies a first one. */
  lemma {:induction false} FirstSatisfying<T>(p: T -> bool, s: seq<T>, k: nat) returns (i: nat)
    requires k < |s| && p(s[k])
    ensures i <= k && p(s[i]) && forall j :: 0 <= j < i ==> !p(s[j])
    decreases k
  {
    if j :| 0 <= j < k && p(s[j]) {
      i := FirstSatisfying(p, s, j);
    } else {
      i := k;
    }
  }

  /** Elements before the first one satisfying `p` are all dropped. */
  lemma {:induction false} FilterHeadAt<T(!new)>(p: T -> bool, s: seq<T>, i: nat)
    requires i < |s| && p(s[i]) && forall j :: 0 <= j < i ==> !p(s[j])
    ensures Filter(p, s) != [] && Filter(p, s)[0] == s[i]
  {
    if i > 0 {
      FilterHeadAt(p, s[1..], i - 1);
    }
  }

  /** `asyncFilter(pred)(args)` once every predicate call has resolved, with
      `pred` giving the truthiness of that resolved value: pair each argument
      with its verdict, keep the pairs whose verdict holds, take the
      arguments. */
  function AsyncFilter<T(!new)>(pred: T -> bool, args: seq<T>): seq<T>
  {
    Project(Filter((pair: (T, bool)) => pair.1, Verdicts(pred, args)))
  }

  /** `map(head)` */
  function Project<T>(pairs: seq<(T, bool)>): (r: seq<T>)
    ensures |r| == |pairs|
    ensures forall i :: 0 <= i < |pairs| ==> r[i] == pairs[i].0
  {
    if pairs == [] then [] else [pairs[0].0] + Project(pairs[1..])
  }

  /** `asyncMap(async (arg) => [arg, await pred(arg)])`, resolved: each
      argument paired with its verdict. */
  function Verdicts<T>(pred: T -> bool, args: seq<T>): seq<(T, bool)>
  {
    seq(|args|, i requires 0 <= i < |args| => (args[i], pred(args[i])))
  }

  lemma {:induction false} ProjectFilterVerdicts<T(!new)>(pred: T -> bool, args: seq<T>)
    ensures Project(Filter((pair: (T, bool)) => pair.1, Verdicts(pred, args))) == Filter(pred, args)
  {
    if args != [] {
      ProjectFilterVerdicts(pred, args[1..]);
      assert Verdicts(pred, args)[1..] == Verdicts(pred, args[1..]);
      var rest := Filter((pair: (T, bool)) => pair.1, Verdicts(pred, args[1..]));
      if pred(args[0]) {
        assert Project([(args[0], true)] + rest) == [args[0]] + Project(rest);
      }
    }
  }

  /** `asyncFilter` is `filter` by the resolved verdicts: the same elements,
      in the same order. */
  lemma AsyncFilterIsFilter<T(!new)>(pred: T -> bool, args: seq<T>)
    ensures AsyncFilter(pred, args) == Filter(pred, args)
    ensures forall x :: x in AsyncFilter(pred, args) <==> x in args && pred(x)
  {
    assert AsyncFilter(pred, args) == Project(Filter((pair: (T, bool)) => pair.1, Verdicts(pred, args)));
    ProjectFilterVerdicts(pred, args);
  }
}
