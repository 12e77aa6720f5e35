/**
  When every load of a run returns what is on disk, whatever the capacity of the cache.
 */
module FileRuns {
  import opened Options
  import opened Utf8
  import opened RecencyList
  import opened FileLoader

  predicate AllMatch(loads: seq<(ReadResult, ReadResult)>) { forall i :: 0 <= i < |loads| ==> loads[i].0 == loads[i].1 }

  /** The file each path had when it was last stored, as if nothing were ever evicted. */
  type Stored = map<string, File>

  predicate StampKnown(stored: Stored, path: string, file: Option<File>, os: Answers) {
    file.Some? && os.firstStat && path in stored && stored[path].mtime == file.value.mtime
  }

  function Store(stored: Stored, path: string, file: Option<File>, os: Answers): Stored {
    if StampKnown(stored, path, file, os) || PlainRead(file, os).ReadError? || !os.secondStat then stored
    else stored[path := file.value]
  }

  /** Whenever a load finds the stamp under which its file was stored, the bytes are the stored ones. */
  predicate StampsTruthful(disk: Disk, stored: Stored, ops: seq<Op>)
    decreases |ops|
  {
    || ops == []
    || match ops[0]
       case Write(p, f) => StampsTruthful(disk[p := f], stored, ops[1..])
       case Delete(p) => StampsTruthful(disk - {p}, stored, ops[1..])
       case Clear => StampsTruthful(disk, map[], ops[1..])
       case Read(p, os) =>
         var file := OnDisk(disk, p);
         && (StampKnown(stored, p, file, os) ==> os.readable && stored[p].data == file.value.data)
         && StampsTruthful(disk, Store(stored, p, file, os), ops[1..])
  }

  // ---------------------------------------------------------------------------------------
  // Truthful stamps suffice, for every capacity
  // ---------------------------------------------------------------------------------------

  /** Every cached entry is the file last stored under its path. */
  ghost predicate Within(es: seq<Entry>, stored: Stored) {
    forall e :: e in es ==> e.path in stored && stored[e.path] == File(e.data, e.mtime)
  }

  lemma LoadStaysWithin(es: seq<Entry>, stored: Stored, path: string, file: Option<File>, os: Answers,
                        maxItems: int, maxSize: int)
    requires Within(es, stored)
    requires StampKnown(stored, path, file, os) ==> os.readable && stored[path].data == file.value.data
    ensures Within(Load(es, path, file, os, maxItems, maxSize).0, Store(stored, path, file, os))
    ensures Load(es, path, file, os, maxItems, maxSize).1 == PlainRead(file, os)
  {
    hide RecencyList.Put;
    var touched := Touch(es, path);
    FindIsMember(es, path);
    WithoutIsFilter(es, path);
    assert Within(touched, stored);
    if FreshHit(es, path, file, os) {
      assert Find(es, path).value in es;
    } else if PlainRead(file, os).Data? && os.secondStat {
      var e := Entry(path, file.value.data, file.value.mtime, |file.value.data|);
      PutMembers(touched, e, maxItems, maxSize);
      forall x | x in RecencyList.Put(touched, e, maxItems, maxSize)
        ensures x.path in Store(stored, path, file, os)
        ensures Store(stored, path, file, os)[x.path] == File(x.data, x.mtime)
      {
        assert x == e || (x in touched && x.path != path);
      }
    }
  }

  lemma PutMembers(es: seq<Entry>, e: Entry, maxItems: int, maxSize: int)
    ensures forall x :: x in RecencyList.Put(es, e, maxItems, maxSize) ==> x == e || (x in es && x.path != e.path)
  {
    hide Evict;
    var all := [e] + Without(es, e.path);
    WithoutIsFilter(es, e.path);
    EvictIsLongestFittingPrefix(all, maxItems, maxSize);
    forall x | x in RecencyList.Put(es, e, maxItems, maxSize)
      ensures x == e || (x in es && x.path != e.path)
    {
      assert x in all;
    }
  }

  lemma {:induction false} TruthfulMatches(disk: Disk, es: seq<Entry>, stored: Stored, ops: seq<Op>, maxItems: int, maxSize: int)
    requires StampsTruthful(disk, stored, ops) && Within(es, stored)
    ensures AllMatch(Loads(disk, es, ops, maxItems, maxSize))
    decreases |ops|
  {
    hide Load, Within;
    if ops == [] {
    } else {
      match ops[0]
      case Write(p, f) => TruthfulMatches(disk[p := f], es, stored, ops[1..], maxItems, maxSize);
      case Delete(p) => TruthfulMatches(disk - {p}, es, stored, ops[1..], maxItems, maxSize);
      case Clear =>
        NothingWithin();
        TruthfulMatches(disk, [], map[], ops[1..], maxItems, maxSize);
      case Read(p, os) =>
        var file := OnDisk(disk, p);
        LoadStaysWithin(es, stored, p, file, os, maxItems, maxSize);
        TruthfulMatches(disk, Load(es, p, file, os, maxItems, maxSize).0, Store(stored, p, file, os), ops[1..], maxItems, maxSize);
    }
  }

  lemma NothingWithin()
    ensures Within([], map[])
  {
  }

  // ---------------------------------------------------------------------------------------
  // They are necessary: a cache with room for everything tells
  // ---------------------------------------------------------------------------------------

  /** The cache knows exactly the stored files. */
  ghost predicate Mirrors(es: seq<Entry>, stored: Stored) {
    forall p: string :: match Find(es, p)
                        case Some(e) => p in stored && stored[p] == File(e.data, e.mtime)
                        case None => p !in stored
  }

  function Weight(disk: Disk, ops: seq<Op>): nat
    decreases |ops|
  {
    if ops == [] then 0
    else match ops[0]
      case Write(p, f) => Weight(disk[p := f], ops[1..])
      case Delete(p) => Weight(disk - {p}, ops[1..])
      case Clear => Weight(disk, ops[1..])
      case Read(p, _) => (if p in disk then |disk[p].data| else 0) + Weight(disk, ops[1..])
  }

  /** No sequence of loads of this weight and length can fill the cache. */
  ghost predicate Roomy(es: seq<Entry>, items: nat, weight: nat, maxItems: int, maxSize: int) {
    && (forall e :: e in es ==> e.size >= 0)
    && |es| + items <= maxItems && TotalSize(es) + weight <= maxSize
  }

  lemma {:induction false} FindWithout(es: seq<Entry>, path: string, q: string)
    ensures Find(Without(es, path), q) == if q == path then None else Find(es, q)
  {
    if es == [] {
    } else {
      FindWithout(es[1..], path, q);
      var rest := Without(es[1..], path);
      assert ([es[0]] + rest)[1..] == rest;
    }
  }

  lemma FindPut(es: seq<Entry>, e: Entry, q: string)
    ensures Find([e] + Without(es, e.path), q) == if q == e.path then Some(e) else Find(es, q)
  {
    FindWithout(es, e.path, q);
    assert ([e] + Without(es, e.path))[1..] == Without(es, e.path);
  }

  lemma FindTouch(es: seq<Entry>, path: string, q: string)
    ensures Find(Touch(es, path), q) == Find(es, q)
  {
    FindIsMember(es, path);
    if Find(es, path).Some? { FindPut(es, Find(es, path).value, q); }
  }

  lemma {:induction false} WithoutShrinks(es: seq<Entry>, path: string)
    requires forall e :: e in es ==> e.size >= 0
    ensures |Without(es, path)| + (if Find(es, path).Some? then 1 else 0) <= |es|
    ensures TotalSize(Without(es, path)) + (if Find(es, path).Some? then Find(es, path).value.size else 0) <= TotalSize(es)
  {
    if es == [] {
    } else {
      assert es[0].size >= 0;
      WithoutShrinks(es[1..], path);
      var rest := Without(es[1..], path);
      assert ([es[0]] + rest)[1..] == rest;
      FindIsMember(es[1..], path);
    }
  }

  lemma WithoutSizes(es: seq<Entry>, path: string)
    requires forall e :: e in es ==> e.size >= 0
    ensures TotalSize(Without(es, path)) >= 0
  {
    WithoutIsFilter(es, path);
    TotalSizeNonNegative(Without(es, path));
  }

  lemma TouchShrinks(es: seq<Entry>, path: string)
    requires forall e :: e in es ==> e.size >= 0
    ensures forall e :: e in Touch(es, path) ==> e.size >= 0
    ensures |Touch(es, path)| <= |es| && TotalSize(Touch(es, path)) <= TotalSize(es)
  {
    WithoutShrinks(es, path);
    WithoutIsFilter(es, path);
    FindIsMember(es, path);
    if Find(es, path).Some? {
      var e := Find(es, path).value;
      assert ([e] + Without(es, path))[1..] == Without(es, path);
    }
  }

  lemma PutFits(es: seq<Entry>, e: Entry, items: nat, weight: nat, maxItems: int, maxSize: int)
    requires e.size >= 0 && Roomy(es, items + 1, weight + e.size, maxItems, maxSize)
    ensures RecencyList.Put(es, e, maxItems, maxSize) == [e] + Without(es, e.path)
    ensures Roomy([e] + Without(es, e.path), items, weight, maxItems, maxSize)
  {
    var all := [e] + Without(es, e.path);
    WithoutShrinks(es, e.path);
    WithoutSizes(es, e.path);
    WithoutIsFilter(es, e.path);
    FindIsMember(es, e.path);
    assert all[1..] == Without(es, e.path);
    assert Fits(all, maxItems, maxSize);
  }

  lemma LoadMirrors(es: seq<Entry>, stored: Stored, path: string, file: Option<File>, os: Answers,
                    items: nat, weight: nat, maxItems: int, maxSize: int)
    requires Mirrors(es, stored)
    requires Roomy(es, items + 1, weight + (if file.Some? then |file.value.data| else 0), maxItems, maxSize)
    ensures FreshHit(es, path, file, os) <==> StampKnown(stored, path, file, os)
    ensures FreshHit(es, path, file, os) ==> Find(es, path).value.data == stored[path].data
    ensures Mirrors(Load(es, path, file, os, maxItems, maxSize).0, Store(stored, path, file, os))
    ensures Roomy(Load(es, path, file, os, maxItems, maxSize).0, items, weight, maxItems, maxSize)
  {
    hide Touch, Find, RecencyList.Put, TotalSize, Without;
    var touched := Touch(es, path);
    TouchShrinks(es, path);
    assert Mirrors(touched, stored) by {
      forall q: string
        ensures Find(touched, q) == Find(es, q)
      {
        FindTouch(es, path, q);
      }
    }
    assert match Find(es, path) case Some(e) => path in stored && stored[path] == File(e.data, e.mtime) case None => path !in stored;
    if !FreshHit(es, path, file, os) && PlainRead(file, os).Data? && os.secondStat {
      var e := Entry(path, file.value.data, file.value.mtime, |file.value.data|);
      PutFits(touched, e, items, weight, maxItems, maxSize);
      forall q: string
        ensures Find([e] + Without(touched, path), q) == if q == path then Some(e) else Find(touched, q)
      {
        FindPut(touched, e, q);
      }
    }
  }

  lemma {:induction false} MatchesTruthful(disk: Disk, es: seq<Entry>, stored: Stored, ops: seq<Op>, maxItems: int, maxSize: int)
    requires Mirrors(es, stored) && Roomy(es, |ops|, Weight(disk, ops), maxItems, maxSize)
    requires AllMatch(Loads(disk, es, ops, maxItems, maxSize))
    ensures StampsTruthful(disk, stored, ops)
    decreases |ops|
  {
    hide Load, Mirrors, StampKnown, Store, FreshHit;
    if ops == [] {
    } else {
      match ops[0]
      case Write(p, f) => MatchesTruthful(disk[p := f], es, stored, ops[1..], maxItems, maxSize);
      case Delete(p) => MatchesTruthful(disk - {p}, es, stored, ops[1..], maxItems, maxSize);
      case Clear =>
        NothingMirrored(es);
        MatchesTruthful(disk, [], map[], ops[1..], maxItems, maxSize);
      case Read(p, os) =>
        var file := OnDisk(disk, p);
        var loads, rest := Loads(disk, es, ops, maxItems, maxSize),
                           Loads(disk, Load(es, p, file, os, maxItems, maxSize).0, ops[1..], maxItems, maxSize);
        assert loads == [(Load(es, p, file, os, maxItems, maxSize).1, PlainRead(file, os))] + rest;
        assert loads[0].0 == loads[0].1 && loads[1..] == rest;
        LoadExact(es, p, file, os, maxItems, maxSize);
        LoadMirrors(es, stored, p, file, os, |ops| - 1, Weight(disk, ops[1..]), maxItems, maxSize);
        MatchesTruthful(disk, Load(es, p, file, os, maxItems, maxSize).0, Store(stored, p, file, os), ops[1..], maxItems, maxSize);
    }
  }

  lemma NothingMirrored(es: seq<Entry>)
    requires forall e :: e in es ==> e.size >= 0
    ensures Mirrors([], map[]) && TotalSize([]) <= TotalSize(es)
  {
    TotalSizeNonNegative(es);
  }

  ghost predicate AlwaysMatches(disk: Disk, ops: seq<Op>) {
    forall maxItems: int, maxSize: int :: AllMatch(Loads(disk, [], ops, maxItems, maxSize))
  }

  /**
    Starting with an empty cache, every load of a run returns what a plain read would, at every
    capacity, exactly when no load meets its stored time stamp with other bytes than those stored.
   */
  lemma LoadsAlwaysMatchIff(disk: Disk, ops: seq<Op>)
    ensures AlwaysMatches(disk, ops) <==> StampsTruthful(disk, map[], ops)
  {
    hide StampsTruthful, AllMatch, Loads, Weight;
    if StampsTruthful(disk, map[], ops) {
      forall maxItems: int, maxSize: int
        ensures AllMatch(Loads(disk, [], ops, maxItems, maxSize))
      {
        NothingWithin();
        TruthfulMatches(disk, [], map[], ops, maxItems, maxSize);
      }
    }
    if AlwaysMatches(disk, ops) {
      NothingMirrored([]);
      assert AllMatch(Loads(disk, [], ops, |ops|, Weight(disk, ops)));
      MatchesTruthful(disk, [], map[], ops, |ops|, Weight(disk, ops));
    }
  }
}
