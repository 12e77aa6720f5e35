/**
  Assembling streamed tool calls.  Fragments of several calls arrive interleaved, each tagged with
  the index of its call; the accumulator keeps one entry per index and finally lists them in order.
 */
module ToolCallAssembly {
  import opened Options
  import opened Subsequences

  datatype Delta = Delta(index: int, id: string, typ: string, name: string, args: string)
  datatype ToolCall = ToolCall(index: int, id: string, typ: string, name: string, args: string)
  type CallMap = map<int, ToolCall>

  /** How one fragment changes the map: a fragment without an id cannot open a call. */
  function Apply(m: CallMap, d: Delta): CallMap {
    if d.index in m then m[d.index := m[d.index].(args := m[d.index].args + d.args)]
    else if d.id != "" then m[d.index := ToolCall(d.index, d.id, d.typ, d.name, d.args)]
    else m
  }

  function ApplyAll(m: CallMap, ds: seq<Delta>): CallMap {
    if ds == [] then m else Apply(ApplyAll(m, ds[..|ds| - 1]), ds[|ds| - 1])
  }

  lemma {:induction false} ApplyAllAppend(m: CallMap, a: seq<Delta>, b: seq<Delta>)
    ensures ApplyAll(m, a + b) == ApplyAll(ApplyAll(m, a), b)
    decreases |b|
  {
    if b == [] {
      assert a + b == a;
    } else {
      ApplyAllAppend(m, a, b[..|b| - 1]);
      assert (a + b)[..|a + b| - 1] == a + b[..|b| - 1];
    }
  }

  // Reference: one call, from its own fragments only.

  function ForIndex(ds: seq<Delta>, i: int): seq<Delta> {
    if ds == [] then []
    else
      var init, last := ForIndex(ds[..|ds| - 1], i), ds[|ds| - 1];
      if last.index == i then init + [last] else init
  }

  function ConcatArgs(ds: seq<Delta>): string {
    if ds == [] then "" else ds[0].args + ConcatArgs(ds[1..])
  }

  /** The call that the fragments of one index describe: it opens at the first fragment with an id. */
  function OneCall(frags: seq<Delta>): Option<ToolCall> {
    if frags == [] then None
    else if frags[0].id == "" then OneCall(frags[1..])
    else
      var d := frags[0];
      Some(ToolCall(d.index, d.id, d.typ, d.name, ConcatArgs(frags)))
  }

  function Lookup(m: CallMap, i: int): Option<ToolCall> {
    if i in m then Some(m[i]) else None
  }

  lemma {:induction false} ConcatArgsSnoc(ds: seq<Delta>, d: Delta)
    ensures ConcatArgs(ds + [d]) == ConcatArgs(ds) + d.args
  {
    if ds == [] {
      assert ds + [d] == [d] && [d][1..] == [];
    } else {
      ConcatArgsSnoc(ds[1..], d);
      assert (ds + [d])[1..] == ds[1..] + [d];
    }
  }

  lemma {:induction false} OneCallSnoc(frags: seq<Delta>, d: Delta)
    ensures OneCall(frags + [d]) ==
            match OneCall(frags)
            case Some(tc) => Some(tc.(args := tc.args + d.args))
            case None => if d.id == "" then None else Some(ToolCall(d.index, d.id, d.typ, d.name, d.args))
  {
    if frags == [] {
      assert frags + [d] == [d] && [d][1..] == [];
      assert ConcatArgs([d]) == d.args + ConcatArgs([d][1..]) == d.args;
      assert OneCall([d][1..]) == None;
    } else {
      assert (frags + [d])[1..] == frags[1..] + [d];
      OneCallSnoc(frags[1..], d);
      ConcatArgsSnoc(frags, d);
    }
  }

  /** Every entry is determined by the fragments of its own index, and its index is its key. */
  lemma {:induction false} EachIndexOnItsOwn(ds: seq<Delta>, i: int)
    ensures Lookup(ApplyAll(map[], ds), i) == OneCall(ForIndex(ds, i))
    ensures i in ApplyAll(map[], ds) ==> ApplyAll(map[], ds)[i].index == i
  {
    if ds == [] {
    } else {
      var init, d := ds[..|ds| - 1], ds[|ds| - 1];
      EachIndexOnItsOwn(init, i);
      OneCallSnoc(ForIndex(init, i), d);
    }
  }

  /** Interleaving the fragments of different calls differently gives the same calls. */
  lemma InterleavingIrrelevant(a: seq<Delta>, b: seq<Delta>)
    requires forall i :: ForIndex(a, i) == ForIndex(b, i)
    ensures ApplyAll(map[], a) == ApplyAll(map[], b)
  {
    var ma, mb := ApplyAll(map[], a), ApplyAll(map[], b);
    forall i
      ensures (i in ma <==> i in mb) && (i in ma ==> ma[i] == mb[i])
    {
      EachIndexOnItsOwn(a, i);
      EachIndexOnItsOwn(b, i);
    }
  }

  // Listing the calls.

  /** `r` lists exactly the entries of `m`, in strictly increasing order of index. */
  ghost predicate Lists(r: seq<ToolCall>, m: CallMap) {
    && (forall j, k :: 0 <= j < k < |r| ==> r[j].index < r[k].index)
    && (forall k :: 0 <= k < |r| ==> r[k].index in m && r[k] == m[r[k].index])
    && (forall i :: i in m ==> exists k :: 0 <= k < |r| && r[k].index == i)
  }

  /** There is only one such list, so the order in which the map is traversed cannot matter. */
  lemma {:induction false} ListingUnique(a: seq<ToolCall>, b: seq<ToolCall>, m: CallMap)
    requires Lists(a, m) && Lists(b, m)
    ensures a == b
    decreases |a|
  {
    hide Lists;
    if a == [] || b == [] {
      if b != [] { NonEmptyListing(m, b); }
      if a != [] { NonEmptyListing(m, a); }
    } else {
      var x := a[|a| - 1];
      LastIsLargest(a, b, m);
      LastIsLargest(b, a, m);
      ListingInit(a, m);
      ListingInit(b, m);
      ListingUnique(a[..|a| - 1], b[..|b| - 1], m - {x.index});
      assert a == a[..|a| - 1] + [x] && b == b[..|b| - 1] + [x];
    }
  }

  lemma LastIsLargest(a: seq<ToolCall>, b: seq<ToolCall>, m: CallMap)
    requires a != [] && b != [] && Lists(a, m) && Lists(b, m)
    ensures a[|a| - 1].index <= b[|b| - 1].index
    ensures b[|b| - 1].index in m && b[|b| - 1] == m[b[|b| - 1].index]
  {
    var k :| 0 <= k < |b| && b[k].index == a[|a| - 1].index;
  }

  lemma NonEmptyListing(m: CallMap, b: seq<ToolCall>)
    requires b != [] && Lists(b, m)
    ensures !Lists([], m)
  {
    assert b[0].index in m;
  }

  lemma ListingInit(a: seq<ToolCall>, m: CallMap)
    requires a != [] && Lists(a, m)
    ensures Lists(a[..|a| - 1], m - {a[|a| - 1].index})
  {
    var init, m' := a[..|a| - 1], m - {a[|a| - 1].index};
    forall i | i in m'
      ensures exists k :: 0 <= k < |init| && init[k].index == i
    {
      var k :| 0 <= k < |a| && a[k].index == i;
      assert init[k].index == i;
    }
  }

  predicate Increasing(xs: seq<int>) { forall j, k :: 0 <= j < k < |xs| ==> xs[j] < xs[k] }

  /** The sort of the map's keys. */
  method SortInts(xs: seq<int>) returns (r: seq<int>)
    requires Distinct(xs)
    ensures Increasing(r)
    ensures forall x :: x in r <==> x in xs
  {
    r := [];
    for n := 0 to |xs|
      invariant Increasing(r)
      invariant forall x :: x in r <==> x in xs[..n]
    {
      var p := 0;
      while p < |r| && r[p] < xs[n]
        invariant 0 <= p <= |r|
        invariant forall j :: 0 <= j < p ==> r[j] < xs[n]
      {
        p := p + 1;
      }
      ghost var before := r;
      assert xs[n] !in before;
      r := r[..p] + [xs[n]] + r[p..];
      assert forall x :: x in r <==> x in before || x == xs[n] by {
        assert before == before[..p] + before[p..];
      }
      assert xs[..n + 1] == xs[..n] + [xs[n]];
    }
    assert xs[..|xs|] == xs;
  }

  method ListCalls(m: CallMap) returns (r: seq<ToolCall>)
    requires forall i :: i in m ==> m[i].index == i
    ensures Lists(r, m)
  {
    if |m| == 0 { return []; }
    var indices: seq<int>, keys: set<int> := [], m.Keys;
    while keys != {}
      invariant Distinct(indices)
      invariant forall x :: x in indices <==> x in m && x !in keys
      decreases keys
    {
      var k := AnyOf(keys);   // the order in which a map is walked is arbitrary
      indices := indices + [k];
      keys := keys - {k};
    }
    var sorted := SortInts(indices);
    r := [];
    for n := 0 to |sorted|
      invariant |r| == n
      invariant forall k :: 0 <= k < n ==> sorted[k] in m && r[k] == m[sorted[k]]
    {
      assert sorted[n] in sorted;
      r := r + [m[sorted[n]]];
    }
    forall i | i in m
      ensures exists k :: 0 <= k < |r| && r[k].index == i
    {
      assert i in sorted;
      var k :| 0 <= k < |sorted| && sorted[k] == i;
      assert r[k].index == i;
    }
  }
}
