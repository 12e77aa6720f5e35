/**
  The resumable downloader: a protocol over two files, the target and its ".tmp" companion, that has
  to survive broken connections, failed writes, cancellation and being killed at any point.
 */
module Download {
  import opened Numbers
  import opened Options
  import opened Utf8

  /** The two files.  `stat` is taken to be truthful: it succeeds exactly when the file exists. */
  datatype Files = Files(dest: Option<Bytes>, tmp: Option<Bytes>)

  datatype Outcome = Completed | Failed | Paused | Died

  datatype ReadEnd = More | Eof | Broken

  /** One turn of the copy loop: how many bytes arrive, whether writing stops early, what comes next. */
  datatype Step =
    | Cancel(renamed: bool)
    | Read(n: nat, cutShortAt: Option<nat>, end: ReadEnd)

  /** Everything the environment decides during one attempt.  The script running out means being killed. */
  datatype Net = Net(
    requestOk: bool,
    status: int,
    lengthKnown: bool,
    openOk: bool,
    seekOk: bool,
    steps: seq<Step>,
    closeOk: bool,
    renameOk: bool,
    removeOk: bool)

  const OK := 200
  const PARTIAL_CONTENT := 206
  const RANGE_NOT_SATISFIABLE := 416

  /** The first `n` bytes of what is left of the response. */
  function Arriving(body: Bytes, n: nat): Bytes { body[..Min(n, |body|)] }

  function Accepted(data: Bytes, step: Step): Bytes
    requires step.Read?
  {
    match step.cutShortAt
    case None => data
    case Some(k) => data[..Min(k, |data|)]
  }

  // ---------------------------------------------------------------------------------------
  // Specification: one attempt as a function
  // ---------------------------------------------------------------------------------------

  datatype Copied = EndOfBody | ConnectionLost | WriteError | Cancelled(renamed: bool) | Killed

  /** The copy loop: what the output file holds afterwards, and why the loop ended. */
  function Copy(file: Bytes, body: Bytes, steps: seq<Step>): (Bytes, Copied)
    decreases |steps|
  {
    if steps == [] then (file, Killed)
    else match steps[0]
      case Cancel(renamed) => (file, Cancelled(renamed))
      case Read(n, _, end) =>
        var data := Arriving(body, n);
        var file' := file + Accepted(data, steps[0]);
        if steps[0].cutShortAt.Some? && n > 0 then (file', WriteError)
        else match end
          case Eof => (file + data, EndOfBody)
          case Broken => (file + data, ConnectionLost)
          case More => Copy(file + data, body[|data|..], steps[1..])
  }

  function Size(f: Option<Bytes>): nat { if f.Some? then |f.value| else 0 }

  function ResumePoint(fs: Files, total: int): nat {
    if total <= 0 then 0 else if fs.dest.Some? then Size(fs.dest) else Size(fs.tmp)
  }

  predicate AlreadyThere(fs: Files, total: int) { total > 0 && fs.dest.Some? && Size(fs.dest) >= total }

  /** Where the response continues: the server may ignore the range and start over. */
  function StartAt(fs: Files, total: int, net: Net): nat {
    if net.status == PARTIAL_CONTENT then ResumePoint(fs, total) else 0
  }

  predicate Refused(fs: Files, total: int, net: Net) {
    !net.requestOk || (StartAt(fs, total, net) == 0 && net.status != OK)
  }

  function ExpectedSize(remote: Bytes, total: int, net: Net): int {
    if total > 0 then total else if net.lengthKnown then |remote| else 0
  }

  predicate WritesTarget(fs: Files, start: nat) { start > 0 && fs.dest.Some? }

  function WithOutput(fs: Files, toTarget: bool, out: Bytes): Files {
    if toTarget then fs.(dest := Some(out)) else fs.(tmp := Some(out))
  }

  function Finish(fs: Files, toTarget: bool, out: Bytes, ended: Copied, expected: int, net: Net): (Files, Outcome) {
    var written := WithOutput(fs, toTarget, out);
    match ended
    case Killed => (written, Died)
    case ConnectionLost => (written, Failed)
    case WriteError => (written, Failed)
    case Cancelled(renamed) => (if !toTarget && renamed then Files(Some(out), None) else written, Paused)
    case EndOfBody =>
      if !net.closeOk then (written, Failed)
      else if expected > 0 && |out| != expected then
        (if !net.removeOk then written else if toTarget then fs.(dest := None) else fs.(tmp := None), Failed)
      else if toTarget then (written, Completed)
      else if net.renameOk then (Files(Some(out), None), Completed)
      else (if net.removeOk then fs.(tmp := None) else written, Failed)
  }

  function Attempt(fs: Files, remote: Bytes, total: int, net: Net): (Files, Outcome) {
    if AlreadyThere(fs, total) then (fs, Completed)
    else if Refused(fs, total, net) then (fs, Failed)
    else
      var start := StartAt(fs, total, net);
      var toTarget := WritesTarget(fs, start);
      if !net.openOk || (start > 0 && !net.seekOk) then (fs, Failed)
      else
        var initial := if start == 0 then [] else if toTarget then fs.dest.value else fs.tmp.value;
        var (out, ended) := Copy(initial, if start <= |remote| then remote[start..] else [], net.steps);
        Finish(fs, toTarget, out, ended, ExpectedSize(remote, total, net), net)
  }

  // ---------------------------------------------------------------------------------------
  // The downloader
  // ---------------------------------------------------------------------------------------

  /** Overwriting or extending a file from an offset inside it. */
  function WriteAt(file: Bytes, offset: nat, data: Bytes): Bytes
    requires offset <= |file|
  {
    file[..offset] + data + file[Min(offset + |data|, |file|)..]
  }

  class Downloader {
    var dest: Option<Bytes>
    var tmp: Option<Bytes>

    ghost function OnDisk(): Files
      reads this
    {
      Files(dest, tmp)
    }

    method Write(toTarget: bool, offset: nat, data: Bytes)
      requires if toTarget then dest.Some? && offset <= |dest.value| else tmp.Some? && offset <= |tmp.value|
      modifies this
      ensures toTarget ==> dest == Some(WriteAt(old(dest.value), offset, data)) && tmp == old(tmp)
      ensures !toTarget ==> tmp == Some(WriteAt(old(tmp.value), offset, data)) && dest == old(dest)
    {
      if toTarget {
        dest := Some(WriteAt(dest.value, offset, data));
      } else {
        tmp := Some(WriteAt(tmp.value, offset, data));
      }
    }

    ghost function Output(toTarget: bool): Bytes
      requires if toTarget then dest.Some? else tmp.Some?
      reads this
    {
      if toTarget then dest.value else tmp.value
    }

    /** The copy loop; `downloaded` counts from the resume point and is also the write offset. */
    method CopyBody(toTarget: bool, resumeFrom: nat, response: Bytes, steps: seq<Step>)
      returns (ended: Copied, downloaded: nat)
      requires if toTarget then dest.Some? else tmp.Some?
      requires resumeFrom == |Output(toTarget)|
      modifies this
      ensures if toTarget then dest.Some? && tmp == old(tmp) else tmp.Some? && dest == old(dest)
      ensures (Output(toTarget), ended) == Copy(old(Output(toTarget)), response, steps)
      ensures ended == EndOfBody ==> downloaded == |Output(toTarget)|
    {
      downloaded := resumeFrom;
      var body := response;
      var i := 0;
      assert steps[0..] == steps;
      while i < |steps|
        invariant 0 <= i <= |steps|
        invariant if toTarget then dest.Some? && tmp == old(tmp) else tmp.Some? && dest == old(dest)
        invariant downloaded == |Output(toTarget)|
        invariant Copy(Output(toTarget), body, steps[i..]) == Copy(old(Output(toTarget)), response, steps)
      {
        assert steps[i..][0] == steps[i] && steps[i..][1..] == steps[i + 1..];
        match steps[i] {
          case Cancel(renamed) => return Cancelled(renamed), downloaded;
          case Read(n, cutShortAt, end) =>
            var data := Arriving(body, n);
            if n > 0 {
              AppendsAtEnd(Output(toTarget), data);
              AppendsAtEnd(Output(toTarget), Accepted(data, steps[i]));
              if cutShortAt.Some? {
                Write(toTarget, downloaded, Accepted(data, steps[i]));
                return WriteError, downloaded;
              }
              Write(toTarget, downloaded, data);
              downloaded := downloaded + |data|;
            } else {
              assert Output(toTarget) + data == Output(toTarget);
            }
            if end == Eof { return EndOfBody, downloaded; }
            if end == Broken { return ConnectionLost, downloaded; }
            body := body[|data|..];
        }
        i := i + 1;
      }
      return Killed, downloaded;
    }

    method DownloadHubFile(remote: Bytes, size: int, net: Net) returns (outcome: Outcome)
      modifies this
      ensures (OnDisk(), outcome) == Attempt(old(OnDisk()), remote, size, net)
    {
      hide Copy, WriteAt;
      var totalSize := size;
      var resumeFrom := 0;
      if totalSize > 0 {
        if dest.Some? {
          if |dest.value| >= totalSize { return Completed; }
          resumeFrom := |dest.value|;
        } else if tmp.Some? && |tmp.value| > 0 {
          resumeFrom := |tmp.value|;
        }
      }
      if !net.requestOk { return Failed; }
      if resumeFrom > 0 && net.status != PARTIAL_CONTENT { resumeFrom := 0; }
      if resumeFrom == 0 && net.status != OK { return Failed; }
      var response := if resumeFrom <= |remote| then remote[resumeFrom..] else [];
      if totalSize <= 0 {
        totalSize := if net.lengthKnown then resumeFrom + |response| else 0;
      }
      if !net.openOk { return Failed; }
      var toTarget := resumeFrom > 0 && dest.Some?;
      if resumeFrom > 0 {
        if !net.seekOk { return Failed; }
      } else {
        tmp := Some([]);
      }
      assert resumeFrom == |Output(toTarget)|;
      var ended, downloaded := CopyBody(toTarget, resumeFrom, response, net.steps);
      match ended {
        case Cancelled(renamed) =>
          if !toTarget && renamed { dest, tmp := tmp, None; }
          return Paused;
        case WriteError => return Failed;
        case ConnectionLost => return Failed;
        case Killed => return Died;
        case EndOfBody =>
      }
      if !net.closeOk { return Failed; }
      if totalSize > 0 && downloaded != totalSize {
        if net.removeOk {
          if toTarget { dest := None; } else { tmp := None; }
        }
        return Failed;
      }
      if !toTarget {
        if !net.renameOk {
          if net.removeOk { tmp := None; }
          return Failed;
        }
        dest, tmp := tmp, None;
      }
      return Completed;
    }

    /** The caller's skip-or-resume decision; `probed` is the size the server announced, or 0. */
    method DownloadSingle(remote: Bytes, probed: int, net: Net) returns (outcome: Outcome)
      modifies this
      ensures (OnDisk(), outcome) == Single(old(OnDisk()), remote, probed, net)
      ensures old(dest).Some? && (probed <= 0 || |old(dest).value| >= probed) ==>
                OnDisk() == old(OnDisk()) && outcome == Completed
      ensures old(dest).None? || (probed > 0 && |old(dest).value| < probed) ==>
                (OnDisk(), outcome) == Attempt(old(OnDisk()), remote, probed, net)
    {
      if dest.Some? {
        if probed <= 0 || |dest.value| >= probed { return Completed; }
      }
      outcome := DownloadHubFile(remote, probed, net);
    }
  }

  /** Writing replaces the bytes from the offset on and extends the file if need be; nothing else changes. */
  lemma WriteAtMeaning(file: Bytes, offset: nat, data: Bytes)
    requires offset <= |file|
    ensures var r := WriteAt(file, offset, data);
            && |r| == (if offset + |data| > |file| then offset + |data| else |file|)
            && forall i :: 0 <= i < |r| ==> r[i] == if offset <= i < offset + |data| then data[i - offset] else file[i]
  {
  }

  lemma AppendsAtEnd(file: Bytes, data: Bytes)
    ensures WriteAt(file, |file|, data) == file + data
  {
  }

  function Single(fs: Files, remote: Bytes, probed: int, net: Net): (Files, Outcome) {
    if fs.dest.Some? && (probed <= 0 || Size(fs.dest) >= probed) then (fs, Completed)
    else Attempt(fs, remote, probed, net)
  }
}
