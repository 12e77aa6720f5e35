/**
  Safety and progress of the downloader over arbitrary sequences of attempts.
 */
module DownloadLaws {
  import opened Numbers
  import opened Options
  import opened Utf8
  import opened Download

  predicate IsPrefix(f: Option<Bytes>, remote: Bytes) { f.Some? ==> f.value <= remote }

  /** Both files hold nothing but a beginning of the remote file. */
  predicate Sound(fs: Files, remote: Bytes) { IsPrefix(fs.dest, remote) && IsPrefix(fs.tmp, remote) }

  lemma FullPrefix(f: Option<Bytes>, remote: Bytes)
    requires f.Some? && IsPrefix(f, remote) && Size(f) >= |remote|
    ensures f == Some(remote)
  {
    assert f.value == remote[..|remote|] == remote;
  }

  lemma ExtendPrefix(file: Bytes, body: Bytes, k: nat, remote: Bytes)
    requires file + body == remote && k <= |body|
    ensures file + body[..k] <= remote
    ensures (file + body[..k]) + body[k..] == remote
  {
    assert body == body[..k] + body[k..];
  }

  /** Copying the rest of the remote file behind a prefix of it only ever extends the prefix. */
  lemma {:induction false} CopyKeepsPrefix(file: Bytes, body: Bytes, steps: seq<Step>, remote: Bytes)
    requires file + body == remote
    ensures file <= Copy(file, body, steps).0 <= remote
    decreases |steps|
  {
    if steps != [] && steps[0].Read? {
      var data := Arriving(body, steps[0].n);
      ExtendPrefix(file, body, |data|, remote);
      ExtendPrefix(file, body, |Accepted(data, steps[0])|, remote);
      assert Accepted(data, steps[0]) == body[..|Accepted(data, steps[0])|];
      CopyKeepsPrefix(file + data, body[|data|..], steps[1..], remote);
    }
  }

  lemma InitialIsPrefix(fs: Files, remote: Bytes, start: nat)
    requires Sound(fs, remote)
    requires start > 0 ==> if fs.dest.Some? then start == |fs.dest.value| else fs.tmp.Some? && start == |fs.tmp.value|
    ensures var initial := if start == 0 then [] else if WritesTarget(fs, start) then fs.dest.value else fs.tmp.value;
            start <= |remote| && initial + remote[start..] == remote
  {
  }

  /** An attempt, however it ends and whatever size it was told, leaves both files beginnings of the remote file. */
  lemma AttemptIsSafe(fs: Files, remote: Bytes, total: int, net: Net)
    requires Sound(fs, remote)
    ensures Sound(Attempt(fs, remote, total, net).0, remote)
  {
    hide Copy;
    if !AlreadyThere(fs, total) && !Refused(fs, total, net) && net.openOk {
      var start := StartAt(fs, total, net);
      var toTarget := WritesTarget(fs, start);
      InitialIsPrefix(fs, remote, start);
      var initial := if start == 0 then [] else if toTarget then fs.dest.value else fs.tmp.value;
      CopyKeepsPrefix(initial, remote[start..], net.steps, remote);
    }
  }

  /** Told the right size, an attempt reports success only with the whole file in place. */
  lemma SuccessMeansWhole(fs: Files, remote: Bytes, total: int, net: Net)
    requires Sound(fs, remote) && total == |remote| > 0
    requires Attempt(fs, remote, total, net).1 == Completed
    ensures Attempt(fs, remote, total, net).0.dest == Some(remote)
  {
    hide Copy;
    AttemptIsSafe(fs, remote, total, net);
    FullPrefix(Attempt(fs, remote, total, net).0.dest, remote);
  }

  /** The same holds without a probed size when the response announces its length. */
  lemma SuccessMeansWholeWithLength(fs: Files, remote: Bytes, total: int, net: Net)
    requires Sound(fs, remote) && total <= 0 && net.lengthKnown && |remote| > 0
    requires Attempt(fs, remote, total, net).1 == Completed
    ensures Attempt(fs, remote, total, net).0.dest == Some(remote)
  {
    hide Copy;
    AttemptIsSafe(fs, remote, total, net);
    FullPrefix(Attempt(fs, remote, total, net).0.dest, remote);
  }

  // ---------------------------------------------------------------------------------------
  // Sequences of attempts
  // ---------------------------------------------------------------------------------------

  datatype Try = Try(total: int, net: Net)

  function Run(fs: Files, remote: Bytes, tries: seq<Try>): Files {
    if tries == [] then fs
    else
      var before, t := Run(fs, remote, tries[..|tries| - 1]), tries[|tries| - 1];
      Attempt(before, remote, t.total, t.net).0
  }

  /** Over every sequence of attempts the files stay sound, and every correctly sized success is complete. */
  lemma {:induction false} RunIsSafe(fs: Files, remote: Bytes, tries: seq<Try>)
    requires Sound(fs, remote)
    ensures Sound(Run(fs, remote, tries), remote)
    ensures tries != [] ==>
              var before, t := Run(fs, remote, tries[..|tries| - 1]), tries[|tries| - 1];
              t.total == |remote| > 0 && Attempt(before, remote, t.total, t.net).1 == Completed ==>
                Run(fs, remote, tries).dest == Some(remote)
    decreases |tries|
  {
    hide Attempt, Sound;
    if tries == [] {
    } else {
      var before, t := Run(fs, remote, tries[..|tries| - 1]), tries[|tries| - 1];
      RunIsSafe(fs, remote, tries[..|tries| - 1]);
      AttemptIsSafe(before, remote, t.total, t.net);
      if t.total == |remote| > 0 && Attempt(before, remote, t.total, t.net).1 == Completed {
        SuccessMeansWhole(before, remote, t.total, t.net);
      }
    }
  }

  // ---------------------------------------------------------------------------------------
  // Progress
  // ---------------------------------------------------------------------------------------

  /** What a server that supports ranges answers for a request resuming at `from`. */
  function RangeStatus(from: nat, remote: Bytes): int {
    if from == 0 then OK else if from < |remote| then PARTIAL_CONTENT else RANGE_NOT_SATISFIABLE
  }

  /** An attempt in which nothing goes wrong. */
  function Undisturbed(fs: Files, remote: Bytes): Net {
    Net(true, RangeStatus(ResumePoint(fs, |remote|), remote), true, true, true,
        [Read(|remote|, None, Eof)], true, true, true)
  }

  /** A complete ".tmp" without a target: what a connection lost after the last byte leaves behind. */
  predicate Stranded(fs: Files, remote: Bytes) { fs.dest.None? && fs.tmp == Some(remote) }

  /** From every sound state an undisturbed attempt finishes the download, except from a stranded one. */
  lemma ProgressIffNotStranded(fs: Files, remote: Bytes)
    requires Sound(fs, remote) && remote != []
    ensures Attempt(fs, remote, |remote|, Undisturbed(fs, remote)).1 == Completed <==> !Stranded(fs, remote)
    ensures !Stranded(fs, remote) ==> Attempt(fs, remote, |remote|, Undisturbed(fs, remote)).0.dest == Some(remote)
  {
    var net := Undisturbed(fs, remote);
    if AlreadyThere(fs, |remote|) { FullPrefix(fs.dest, remote); }
    if fs.dest.None? && fs.tmp.Some? && Size(fs.tmp) >= |remote| { FullPrefix(fs.tmp, remote); }
    if !AlreadyThere(fs, |remote|) && !Stranded(fs, remote) {
      var from := ResumePoint(fs, |remote|);
      assert from < |remote|;
      assert StartAt(fs, |remote|, net) == from;
      var initial := if from == 0 then [] else if WritesTarget(fs, from) then fs.dest.value else fs.tmp.value;
      InitialIsPrefix(fs, remote, from);
      assert Arriving(remote[from..], |remote|) == remote[from..];
      assert Copy(initial, remote[from..], net.steps) == (remote, EndOfBody);
      assert Attempt(fs, remote, |remote|, net).1 == Completed;
      SuccessMeansWhole(fs, remote, |remote|, net);
    }
  }

  /** Once stranded, no number of further attempts against such a server changes anything. */
  lemma {:induction false} StrandedForever(fs: Files, remote: Bytes, tries: seq<Try>)
    requires Stranded(fs, remote) && remote != []
    requires forall i :: 0 <= i < |tries| ==>
               tries[i].total == |remote| && tries[i].net.status == RangeStatus(|remote|, remote)
    ensures Run(fs, remote, tries) == fs
    ensures forall net: Net :: net.status == RangeStatus(|remote|, remote) ==>
              Attempt(fs, remote, |remote|, net).1 != Completed
    decreases |tries|
  {
    if tries == [] {
    } else {
      StrandedForever(fs, remote, tries[..|tries| - 1]);
    }
  }

  /** Such a state is reachable from an empty directory by a single lost connection. */
  lemma StrandedReachable(remote: Bytes)
    requires remote != []
    ensures var net := Net(true, OK, true, true, true, [Read(|remote|, None, Broken)], true, true, true);
            Stranded(Run(Files(None, None), remote, [Try(|remote|, net)]), remote)
  {
    var net := Net(true, OK, true, true, true, [Read(|remote|, None, Broken)], true, true, true);
    var empty := Files(None, None);
    var tries := [Try(|remote|, net)];
    assert tries[..0] == [] && Run(empty, remote, tries[..0]) == empty;
    assert remote[0..] == remote && Arriving(remote, |remote|) == remote && [] + remote == remote;
    assert Copy([], remote, net.steps) == (remote, ConnectionLost);
  }

  // ---------------------------------------------------------------------------------------
  // Unknown size
  // ---------------------------------------------------------------------------------------

  /** The caller's decision is sound whenever the size could be probed. */
  lemma SingleSuccessMeansWhole(fs: Files, remote: Bytes, net: Net)
    requires Sound(fs, remote) && remote != []
    requires Single(fs, remote, |remote|, net).1 == Completed
    ensures Single(fs, remote, |remote|, net).0.dest == Some(remote)
  {
    hide Attempt;
    if fs.dest.Some? && Size(fs.dest) >= |remote| {
      FullPrefix(fs.dest, remote);
    } else {
      SuccessMeansWhole(fs, remote, |remote|, net);
    }
  }

  /** Without a probed size an existing target is taken for complete, exactly right when it is the whole file. */
  lemma SingleWithoutProbeExact(fs: Files, remote: Bytes, probed: int, net: Net)
    requires Sound(fs, remote) && probed <= 0 && fs.dest.Some?
    ensures Single(fs, remote, probed, net) == (fs, Completed)
    ensures fs.dest == Some(remote) <==> Size(fs.dest) == |remote|
  {
    if Size(fs.dest) == |remote| { FullPrefix(fs.dest, remote); }
  }

  /** A cancelled first download followed by a failed probe: success is reported for a partial file. */
  lemma PartialFileReportedComplete(remote: Bytes, any: Net)
    requires |remote| > 1
    ensures var net := Net(true, OK, true, true, true, [Read(1, None, More), Cancel(true)], true, true, true);
            var after := Attempt(Files(None, None), remote, |remote|, net).0;
            Single(after, remote, 0, any) == (after, Completed) && after.dest == Some(remote[..1])
  {
    var net := Net(true, OK, true, true, true, [Read(1, None, More), Cancel(true)], true, true, true);
    assert remote[0..] == remote && Arriving(remote, 1) == remote[..1] && [] + remote[..1] == remote[..1];
    assert net.steps[1..] == [Cancel(true)];
    assert Copy(remote[..1], remote[1..], [Cancel(true)]) == (remote[..1], Cancelled(true));
    assert Copy([], remote, net.steps) == (remote[..1], Cancelled(true));
  }

  /** How many bytes the reads deliver up to the end of the body. */
  function ReadCount(steps: seq<Step>): nat {
    if steps == [] || steps[0].Cancel? then 0
    else steps[0].n + if steps[0].end == More then ReadCount(steps[1..]) else 0
  }

  lemma {:induction false} CopyLength(file: Bytes, body: Bytes, steps: seq<Step>)
    requires Copy(file, body, steps).1 == EndOfBody
    ensures |Copy(file, body, steps).0| == |file| + Min(ReadCount(steps), |body|)
    decreases |steps|
  {
    if steps != [] && steps[0].Read? && steps[0].end == More {
      var data := Arriving(body, steps[0].n);
      CopyLength(file + data, body[|data|..], steps[1..]);
    }
  }

  /**
    With neither a probed nor an announced size every end of the body counts as success: the target is
    the whole file exactly when the reads before that end delivered all of it.
   */
  lemma UnsizedSuccessExact(fs: Files, remote: Bytes, total: int, net: Net)
    requires Sound(fs, remote) && total <= 0 && !net.lengthKnown
    requires Attempt(fs, remote, total, net).1 == Completed
    ensures Attempt(fs, remote, total, net).0.dest == Some(remote) <==> ReadCount(net.steps) >= |remote|
  {
    hide Copy, ReadCount;
    AttemptIsSafe(fs, remote, total, net);
    assert remote[0..] == remote;
    CopyLength([], remote, net.steps);
    var after := Attempt(fs, remote, total, net).0;
    if ReadCount(net.steps) >= |remote| { FullPrefix(after.dest, remote); }
  }

  /** A concrete response of unknown length that ends early: success for a partial file. */
  lemma EarlyEndReportedComplete(remote: Bytes)
    requires |remote| > 1
    ensures var net := Net(true, OK, false, true, true, [Read(1, None, Eof)], true, true, true);
            Attempt(Files(None, None), remote, 0, net) == (Files(Some(remote[..1]), None), Completed)
  {
    var steps := [Read(1, None, Eof)];
    assert remote[0..] == remote && Arriving(remote, 1) == remote[..1] && [] + remote[..1] == remote[..1];
    assert Copy([], remote, steps) == (remote[..1], EndOfBody);
  }
}
