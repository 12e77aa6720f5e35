/**
  The simple picture of the file cache: a list of entries, most recently used first.
 */
module RecencyList {
  import opened Options
  import opened Utf8

  datatype Entry = Entry(path: string, data: Bytes, mtime: int, size: int)

  function TotalSize(es: seq<Entry>): int {
    if es == [] then 0 else es[0].size + TotalSize(es[1..])
  }

  predicate Fits(es: seq<Entry>, maxItems: int, maxSize: int) {
    TotalSize(es) <= maxSize && |es| <= maxItems
  }

  /** Dropping the least recently used entries until both limits hold, or nothing is left. */
  function Evict(es: seq<Entry>, maxItems: int, maxSize: int): seq<Entry> {
    if es == [] || Fits(es, maxItems, maxSize) then es
    else Evict(es[..|es| - 1], maxItems, maxSize)
  }

  function Without(es: seq<Entry>, path: string): seq<Entry> {
    if es == [] then []
    else if es[0].path == path then Without(es[1..], path)
    else [es[0]] + Without(es[1..], path)
  }

  function Find(es: seq<Entry>, path: string): Option<Entry> {
    if es == [] then None else if es[0].path == path then Some(es[0]) else Find(es[1..], path)
  }

  /** `get`: the entry found, and the list with it moved to the front. */
  function Touch(es: seq<Entry>, path: string): seq<Entry> {
    match Find(es, path)
    case Some(e) => [e] + Without(es, path)
    case None => es
  }

  function Put(es: seq<Entry>, e: Entry, maxItems: int, maxSize: int): seq<Entry> {
    Evict([e] + Without(es, e.path), maxItems, maxSize)
  }

  predicate DistinctPaths(es: seq<Entry>) {
    forall i, j :: 0 <= i < j < |es| ==> es[i].path != es[j].path
  }

  lemma {:induction false} TotalSizeSplit(es: seq<Entry>, k: nat)
    requires k <= |es|
    ensures TotalSize(es) == TotalSize(es[..k]) + TotalSize(es[k..])
  {
    if k > 0 {
      TotalSizeSplit(es[1..], k - 1);
      assert es[..k][1..] == es[1..][..k - 1];
      assert es[k..] == es[1..][k - 1..];
    } else {
      assert es[0..] == es;
    }
  }

  /** Eviction keeps the longest prefix that meets both limits (the empty one if none does). */
  lemma {:induction false} EvictIsLongestFittingPrefix(es: seq<Entry>, maxItems: int, maxSize: int)
    ensures Evict(es, maxItems, maxSize) <= es
    ensures var r := Evict(es, maxItems, maxSize);
            && (r == [] || Fits(r, maxItems, maxSize))
            && forall k :: |r| < k <= |es| ==> !Fits(es[..k], maxItems, maxSize)
  {
    if es != [] && !Fits(es, maxItems, maxSize) {
      var init := es[..|es| - 1];
      EvictIsLongestFittingPrefix(init, maxItems, maxSize);
      var r := Evict(es, maxItems, maxSize);
      forall k | |r| < k <= |es|
        ensures !Fits(es[..k], maxItems, maxSize)
      {
        if k < |es| { assert es[..k] == init[..k]; } else { assert es[..k] == es; }
      }
    }
  }

  /** An entry too large for the cache is not kept, and takes everything else with it. */
  lemma OversizedPutEmptiesCache(es: seq<Entry>, e: Entry, maxItems: int, maxSize: int)
    requires e.size > maxSize || maxItems < 1
    requires forall x :: x in es ==> x.size >= 0
    ensures Put(es, e, maxItems, maxSize) == []
  {
    var all := [e] + Without(es, e.path);
    var r := Evict(all, maxItems, maxSize);
    EvictIsLongestFittingPrefix(all, maxItems, maxSize);
    WithoutIsFilter(es, e.path);
    if r != [] {
      assert r[0] == e;
      assert TotalSize(r) == e.size + TotalSize(r[1..]);
      assert forall x :: x in r[1..] ==> x in Without(es, e.path);
      TotalSizeNonNegative(r[1..]);
    }
  }

  lemma {:induction false} TotalSizeNonNegative(es: seq<Entry>)
    requires forall x :: x in es ==> x.size >= 0
    ensures TotalSize(es) >= 0
  {
    if es == [] {
    } else {
      TotalSizeNonNegative(es[1..]);
    }
  }

  lemma {:induction false} WithoutIsFilter(es: seq<Entry>, path: string)
    ensures forall x :: x in Without(es, path) <==> x in es && x.path != path
    ensures |Without(es, path)| <= |es|
  {
    if es == [] {
    } else {
      WithoutIsFilter(es[1..], path);
    }
  }

  lemma {:induction false} WithoutDistinct(es: seq<Entry>, path: string)
    requires DistinctPaths(es)
    ensures DistinctPaths(Without(es, path))
  {
    if es == [] {
    } else {
      WithoutDistinct(es[1..], path);
      WithoutIsFilter(es[1..], path);
      var w := Without(es[1..], path);
      forall j | 0 <= j < |w|
        ensures w[j].path != es[0].path
      {
        assert w[j] in es[1..];
      }
    }
  }

  /** With distinct paths, `Without` removes at most the one position. */
  lemma {:induction false} WithoutAt(es: seq<Entry>, k: nat)
    requires k < |es| && DistinctPaths(es)
    ensures Without(es, es[k].path) == es[..k] + es[k + 1..]
    ensures Find(es, es[k].path) == Some(es[k])
  {
    if k == 0 {
      WithoutAbsent(es[1..], es[0].path);
    } else {
      WithoutAt(es[1..], k - 1);
      assert es[..k] + es[k + 1..] == [es[0]] + (es[1..][..k - 1] + es[1..][k..]);
    }
  }

  lemma {:induction false} WithoutAbsent(es: seq<Entry>, path: string)
    requires forall i :: 0 <= i < |es| ==> es[i].path != path
    ensures Without(es, path) == es && Find(es, path) == None
  {
    if es == [] {
    } else {
      WithoutAbsent(es[1..], path);
    }
  }

  lemma {:induction false} FindIsMember(es: seq<Entry>, path: string)
    ensures match Find(es, path)
            case Some(e) => e in es && e.path == path
            case None => forall x :: x in es ==> x.path != path
  {
    if es == [] {
    } else {
      FindIsMember(es[1..], path);
    }
  }

  /** What `r` is of `all`: the longest beginning within both limits, or nothing. */
  ghost predicate IsLongestWithin(r: seq<Entry>, all: seq<Entry>, maxItems: int, maxSize: int) {
    && r <= all
    && (r != [] ==> TotalSize(r) <= maxSize && |r| <= maxItems)
    && forall k :: |r| < k <= |all| ==> TotalSize(all[..k]) > maxSize || k > maxItems
  }

  /** Putting an entry in place of the one of its path: it comes first, then the others in their order. */
  lemma PutReplaces(es: seq<Entry>, e: Entry, k: nat, maxItems: int, maxSize: int)
    requires DistinctPaths(es) && k < |es| && es[k].path == e.path
    ensures IsLongestWithin(Put(es, e, maxItems, maxSize), [e] + (es[..k] + es[k + 1..]), maxItems, maxSize)
  {
    hide Evict, Without, TotalSize;
    WithoutAt(es, k);
    EvictIsLongestFittingPrefix([e] + (es[..k] + es[k + 1..]), maxItems, maxSize);
  }

  /** Putting an entry of a new path. */
  lemma PutAdds(es: seq<Entry>, e: Entry, maxItems: int, maxSize: int)
    requires forall i :: 0 <= i < |es| ==> es[i].path != e.path
    ensures IsLongestWithin(Put(es, e, maxItems, maxSize), [e] + es, maxItems, maxSize)
  {
    hide Evict, Without, TotalSize;
    WithoutAbsent(es, e.path);
    EvictIsLongestFittingPrefix([e] + es, maxItems, maxSize);
  }

  /** A hit is found and moves to the front; a miss changes nothing. */
  lemma TouchMoves(es: seq<Entry>, path: string)
    requires DistinctPaths(es)
    ensures forall k :: 0 <= k < |es| && es[k].path == path ==>
              Find(es, path) == Some(es[k]) && Touch(es, path) == [es[k]] + (es[..k] + es[k + 1..])
    ensures (forall k :: 0 <= k < |es| ==> es[k].path != path) ==> Find(es, path) == None && Touch(es, path) == es
  {
    hide Without, Find;
    forall k | 0 <= k < |es| && es[k].path == path
      ensures Find(es, path) == Some(es[k]) && Touch(es, path) == [es[k]] + (es[..k] + es[k + 1..])
    {
      WithoutAt(es, k);
    }
    if forall k :: 0 <= k < |es| ==> es[k].path != path { WithoutAbsent(es, path); }
  }

  lemma PutKeepsDistinct(es: seq<Entry>, e: Entry, maxItems: int, maxSize: int)
    requires DistinctPaths(es)
    ensures DistinctPaths(Put(es, e, maxItems, maxSize))
  {
    var rest := Without(es, e.path);
    var all := [e] + rest;
    WithoutDistinct(es, e.path);
    WithoutIsFilter(es, e.path);
    forall i, j | 0 <= i < j < |all|
      ensures all[i].path != all[j].path
    {
      assert all[j] == rest[j - 1];
      assert rest[j - 1] in rest;
      if i > 0 { assert all[i] == rest[i - 1]; }
    }
    EvictIsLongestFittingPrefix(all, maxItems, maxSize);
  }
}
