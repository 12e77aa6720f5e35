/**
  Serving a local file through the cache, against a disk that changes between calls.
 */
module FileLoader {
  import opened Options
  import opened Utf8
  import opened RecencyList
  import opened FileCache

  datatype File = File(data: Bytes, mtime: int)
  datatype ReadResult = Data(data: Bytes) | ReadError

  /** What the operating system answers during one call: reading, and the two stat calls, may fail. */
  datatype Answers = Answers(readable: bool, firstStat: bool, secondStat: bool)

  function PlainRead(file: Option<File>, os: Answers): ReadResult {
    if file.Some? && os.readable then Data(file.value.data) else ReadError
  }

  predicate FreshHit(es: seq<Entry>, path: string, file: Option<File>, os: Answers) {
    && file.Some? && os.firstStat
    && Find(es, path).Some? && Find(es, path).value.mtime == file.value.mtime
  }

  /** The list after the call, and the bytes it returns. */
  function Load(es: seq<Entry>, path: string, file: Option<File>, os: Answers, maxItems: int, maxSize: int)
    : (seq<Entry>, ReadResult)
  {
    var touched := Touch(es, path);
    if FreshHit(es, path, file, os) then (touched, Data(Find(es, path).value.data))
    else if PlainRead(file, os).ReadError? || !os.secondStat then (touched, PlainRead(file, os))
    else
      var e := Entry(path, file.value.data, file.value.mtime, |file.value.data|);
      (Put(touched, e, maxItems, maxSize), PlainRead(file, os))
  }

  method LoadFileWithCache(cache: FileLruCache?, path: string, file: Option<File>, os: Answers)
    returns (r: ReadResult)
    requires cache != null ==> cache.Valid()
    modifies if cache == null then {} else cache.Repr
    ensures cache == null ==> r == PlainRead(file, os)
    ensures cache != null ==> cache.Valid() && fresh(cache.Repr - old(cache.Repr))
    ensures cache != null ==>
              (cache.Contents(), r) == Load(old(cache.Contents()), path, file, os, cache.maxItems, cache.maxSize)
  {
    hide RecencyList.Put, Touch, Find, FileCache.Values, FileCache.Indexed, TotalSize;
    if cache == null {
      return PlainRead(file, os);
    }
    var entry := cache.Get(path);
    if entry.Some? {
      if file.Some? && os.firstStat && file.value.mtime == entry.value.mtime {
        return Data(entry.value.data);
      }
    }
    var fileData := PlainRead(file, os);
    if fileData.ReadError? {
      return ReadError;
    }
    if os.secondStat {
      cache.Put(path, fileData.data, file.value.mtime);
    }
    return fileData;
  }

  /** A call differs from a plain read only on a hit whose time stamp matches: same stamp, other bytes. */
  lemma LoadExact(es: seq<Entry>, path: string, file: Option<File>, os: Answers, maxItems: int, maxSize: int)
    ensures Load(es, path, file, os, maxItems, maxSize).1 == PlainRead(file, os) <==>
            (FreshHit(es, path, file, os) ==> os.readable && Find(es, path).value.data == file.value.data)
  {
  }

  // ---------------------------------------------------------------------------------------
  // Whole runs: the disk is rewritten between loads
  // ---------------------------------------------------------------------------------------

  datatype Op =
    | Write(path: string, file: File)
    | Delete(path: string)
    | Clear
    | Read(path: string, os: Answers)

  type Disk = map<string, File>

  function OnDisk(disk: Disk, path: string): Option<File> {
    if path in disk then Some(disk[path]) else None
  }

  /** Every load of the run, as (what the cache returned, what a plain read would have returned). */
  function Loads(disk: Disk, es: seq<Entry>, ops: seq<Op>, maxItems: int, maxSize: int)
    : seq<(ReadResult, ReadResult)>
    decreases |ops|
  {
    if ops == [] then []
    else match ops[0]
      case Write(p, f) => Loads(disk[p := f], es, ops[1..], maxItems, maxSize)
      case Delete(p) => Loads(disk - {p}, es, ops[1..], maxItems, maxSize)
      case Clear => Loads(disk, [], ops[1..], maxItems, maxSize)
      case Read(p, os) =>
        var file := OnDisk(disk, p);
        var (es', r) := Load(es, p, file, os, maxItems, maxSize);
        [(r, PlainRead(file, os))] + Loads(disk, es', ops[1..], maxItems, maxSize)
  }

  /** A time stamp names one content of its file: nothing is rewritten without a new stamp. */
  ghost predicate HonestFile(path: string, f: File, content: (string, int) -> Bytes) {
    f.data == content(path, f.mtime)
  }

  ghost predicate HonestRun(disk: Disk, ops: seq<Op>, content: (string, int) -> Bytes) {
    && (forall p :: p in disk ==> HonestFile(p, disk[p], content))
    && (forall i :: 0 <= i < |ops| && ops[i].Write? ==> HonestFile(ops[i].path, ops[i].file, content))
    && (forall i :: 0 <= i < |ops| && ops[i].Read? ==> ops[i].os.readable)
  }

  ghost predicate Coherent(es: seq<Entry>, content: (string, int) -> Bytes) {
    forall e :: e in es ==> e.data == content(e.path, e.mtime)
  }

  lemma LoadKeepsCoherent(es: seq<Entry>, path: string, file: Option<File>, os: Answers,
                          maxItems: int, maxSize: int, content: (string, int) -> Bytes)
    requires Coherent(es, content)
    requires file.Some? ==> HonestFile(path, file.value, content)
    ensures Coherent(Load(es, path, file, os, maxItems, maxSize).0, content)
    ensures os.readable ==> Load(es, path, file, os, maxItems, maxSize).1 == PlainRead(file, os)
  {
    var touched := Touch(es, path);
    FindIsMember(es, path);
    WithoutIsFilter(es, path);
    assert Coherent(touched, content);
    if file.Some? {
      var e := Entry(path, file.value.data, file.value.mtime, |file.value.data|);
      var all := [e] + Without(touched, path);
      WithoutIsFilter(touched, path);
      EvictIsLongestFittingPrefix(all, maxItems, maxSize);
      var kept := Put(touched, e, maxItems, maxSize);
      forall x | x in kept
        ensures x.data == content(x.path, x.mtime)
      {
        assert x in all;
      }
    }
  }

  /** In every run where rewriting a file changes its time stamp, each load returns what is on disk. */
  lemma {:induction false} LoadsMatchDisk(disk: Disk, es: seq<Entry>, ops: seq<Op>, maxItems: int, maxSize: int,
                                          content: (string, int) -> Bytes)
    requires HonestRun(disk, ops, content) && Coherent(es, content)
    ensures forall i :: 0 <= i < |Loads(disk, es, ops, maxItems, maxSize)| ==>
              Loads(disk, es, ops, maxItems, maxSize)[i].0 == Loads(disk, es, ops, maxItems, maxSize)[i].1
    decreases |ops|
  {
    if ops == [] {
    } else {
      match ops[0]
      case Write(p, f) => LoadsMatchDisk(disk[p := f], es, ops[1..], maxItems, maxSize, content);
      case Delete(p) => LoadsMatchDisk(disk - {p}, es, ops[1..], maxItems, maxSize, content);
      case Clear => LoadsMatchDisk(disk, [], ops[1..], maxItems, maxSize, content);
      case Read(p, os) =>
        var file := OnDisk(disk, p);
        var es' := Load(es, p, file, os, maxItems, maxSize).0;
        LoadKeepsCoherent(es, p, file, os, maxItems, maxSize, content);
        LoadsMatchDisk(disk, es', ops[1..], maxItems, maxSize, content);
    }
  }

  /** Rewriting a file under the same time stamp is not noticed: the old bytes are served. */
  lemma SameStampServesOldBytes(path: string, os: Answers)
    requires os == Answers(true, true, true)
    ensures var ops := [Read(path, os), Write(path, File([2], 7)), Read(path, os)];
            Loads(map[path := File([1], 7)], [], ops, 10, 100) == [(Data([1]), Data([1])), (Data([1]), Data([2]))]
  {
    var old1, new1 := File([1], 7), File([2], 7);
    var e := Entry(path, [1], 7, 1);
    assert TotalSize([e]) == 1 && [e] + [] == [e];
    assert Put([], e, 10, 100) == [e];
    assert Load([], path, Some(old1), os, 10, 100) == ([e], Data([1]));
    assert Without([e], path) == [];
    assert Load([e], path, Some(new1), os, 10, 100) == ([e], Data([1]));
    var ops := [Read(path, os), Write(path, new1), Read(path, os)];
    var disk := map[path := old1];
    assert ops[1..] == [Write(path, new1), Read(path, os)] && ops[1..][1..] == [Read(path, os)];
    assert ops[1..][1..][1..] == [];
    assert Loads(disk[path := new1], [e], [Read(path, os)], 10, 100) == [(Data([1]), Data([2]))];
  }
}
