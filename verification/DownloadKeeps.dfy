/**
  What a disturbed attempt keeps of what was downloaded, and what a finished one leaves.
 */
module DownloadKeeps {
  import opened Numbers
  import opened Options
  import opened Utf8
  import opened Download
  import opened DownloadLaws

  // ---------------------------------------------------------------------------------------
  // A script of reads by itself
  // ---------------------------------------------------------------------------------------

  datatype Ending = BodyEnds | LinkBreaks | DiskFails | UserCancels(renamed: bool) | ProcessDies

  /** How many bytes reach the file before the script ends the copying. */
  function Written(steps: seq<Step>): nat {
    if steps == [] || steps[0].Cancel? then 0
    else if steps[0].cutShortAt.Some? && steps[0].n > 0 then
      (if steps[0].cutShortAt.value <= steps[0].n then steps[0].cutShortAt.value else steps[0].n)
    else steps[0].n + if steps[0].end == More then Written(steps[1..]) else 0
  }

  function EndingOf(steps: seq<Step>): Ending {
    if steps == [] then ProcessDies
    else
      match steps[0]
      case Cancel(renamed) => UserCancels(renamed)
      case Read(n, cut, end) =>
        if cut.Some? && n > 0 then DiskFails
        else if end == Eof then BodyEnds
        else if end == Broken then LinkBreaks
        else EndingOf(steps[1..])
  }

  /** Copying appends exactly the bytes of the body that the script delivers. */
  lemma {:induction false} CopyAppends(file: Bytes, body: Bytes, steps: seq<Step>)
    ensures var (out, ended) := Copy(file, body, steps);
            && out == file + body[..Min(Written(steps), |body|)]
            && (EndingOf(steps) == match ended
                                   case EndOfBody => BodyEnds
                                   case ConnectionLost => LinkBreaks
                                   case WriteError => DiskFails
                                   case Cancelled(renamed) => UserCancels(renamed)
                                   case Killed => ProcessDies)
    decreases |steps|
  {
    if steps == [] || steps[0].Cancel? {
      assert body[..0] == [] && file + [] == file;
    } else if steps[0].end == More && !(steps[0].cutShortAt.Some? && steps[0].n > 0) {
      var data := Arriving(body, steps[0].n);
      CopyAppends(file + data, body[|data|..], steps[1..]);
      GoesOn(file, body, steps[0].n, Written(steps[1..]));
    } else {
      assert Accepted(Arriving(body, steps[0].n), steps[0]) <= Arriving(body, steps[0].n);
    }
  }

  lemma GoesOn(file: Bytes, body: Bytes, n: nat, w: nat)
    ensures var data := Arriving(body, n); var rest := body[|data|..];
            (file + data) + rest[..Min(w, |rest|)] == file + body[..Min(n + w, |body|)]
  {
    var data := Arriving(body, n);
    var rest := body[|data|..];
    assert data + rest[..Min(w, |rest|)] == body[..Min(n + w, |body|)];
  }

  // ---------------------------------------------------------------------------------------
  // One attempt
  // ---------------------------------------------------------------------------------------

  /** The bytes a restart can build on: those of the target, or else of the temporary file. */
  function Stock(fs: Files): Bytes {
    if fs.dest.Some? then fs.dest.value else if fs.tmp.Some? then fs.tmp.value else []
  }

  /** The attempt gets as far as copying, behind the stock or from the start. */
  predicate Copies(fs: Files, remote: Bytes, net: Net, resumed: bool) {
    && remote != [] && (fs.dest.Some? ==> |fs.dest.value| < |remote|) && net.requestOk && net.openOk
    && (resumed ==> Stock(fs) != [] && net.status == 206 && net.seekOk)
    && (!resumed ==> net.status == 200)
  }

  function Grown(fs: Files, remote: Bytes, net: Net, resumed: bool): Bytes {
    var from := if resumed then |Stock(fs)| else 0;
    remote[..Min(from + Written(net.steps), |remote|)]
  }

  /** The file that was written: the target when it was resumed, the temporary file otherwise. */
  function Put(fs: Files, resumed: bool, out: Bytes): Files {
    if resumed && fs.dest.Some? then fs.(dest := Some(out)) else fs.(tmp := Some(out))
  }

  lemma StockIsPrefix(fs: Files, remote: Bytes)
    requires Sound(fs, remote)
    ensures Stock(fs) <= remote
  {
  }

  lemma CopiedOutput(fs: Files, remote: Bytes, net: Net, resumed: bool)
    requires Sound(fs, remote) && Copies(fs, remote, net, resumed)
    ensures var start := StartAt(fs, |remote|, net);
            && !AlreadyThere(fs, |remote|) && !Refused(fs, |remote|, net)
            && start == (if resumed then |Stock(fs)| else 0)
            && Copy(if resumed then Stock(fs) else [], remote[start..], net.steps).0 == Grown(fs, remote, net, resumed)
  {
    hide Copy, Written;
    StockIsPrefix(fs, remote);
    var held := if resumed then Stock(fs) else [];
    assert held == remote[..|held|];
    CopyAppends(held, remote[|held|..], net.steps);
    var w := Written(net.steps);
    assert remote[..|held|] + remote[|held|..][..Min(w, |remote| - |held|)] == remote[..Min(|held| + w, |remote|)];
  }

  /**
    A disturbed attempt leaves the file it wrote as what it held followed by exactly the bytes that
    reached it, and the other file alone; a cancel moves a temporary file to the target if it can.
   */
  lemma DisturbedKeeps(fs: Files, remote: Bytes, net: Net, resumed: bool)
    requires Sound(fs, remote) && Copies(fs, remote, net, resumed) && EndingOf(net.steps) != BodyEnds
    ensures var (after, outcome), grown := Attempt(fs, remote, |remote|, net), Grown(fs, remote, net, resumed);
            match EndingOf(net.steps)
            case UserCancels(renamed) =>
              outcome == Paused &&
              after == if renamed && !(resumed && fs.dest.Some?) then Files(Some(grown), None) else Put(fs, resumed, grown)
            case ProcessDies => outcome == Died && after == Put(fs, resumed, grown)
            case _ => outcome == Failed && after == Put(fs, resumed, grown)
  {
    hide Copy, EndingOf, Grown;
    CopiedOutput(fs, remote, net, resumed);
    CopyAppends(if resumed then Stock(fs) else [], remote[StartAt(fs, |remote|, net)..], net.steps);
  }

  /** In particular a resumed attempt never has fewer bytes than before: its file only grows. */
  lemma ResumedGrows(fs: Files, remote: Bytes, net: Net)
    requires Sound(fs, remote) && Copies(fs, remote, net, true) && EndingOf(net.steps) != BodyEnds
    ensures Stock(fs) <= Stock(Attempt(fs, remote, |remote|, net).0) == Grown(fs, remote, net, true)
  {
    hide EndingOf, Written;
    DisturbedKeeps(fs, remote, net, true);
    StockIsPrefix(fs, remote);
  }

  /**
    A body that ends leaves a whole file as the target, and only then reports success; a short one is
    removed, and so is a temporary file that cannot be renamed.
   */
  lemma EndedAttempt(fs: Files, remote: Bytes, net: Net, resumed: bool)
    requires Sound(fs, remote) && Copies(fs, remote, net, resumed) && EndingOf(net.steps) == BodyEnds
    ensures var (after, outcome), grown := Attempt(fs, remote, |remote|, net), Grown(fs, remote, net, resumed);
            var inTarget := resumed && fs.dest.Some?;
            if !net.closeOk then outcome == Failed && after == Put(fs, resumed, grown)
            else if grown == remote && (inTarget || net.renameOk) then
              outcome == Completed && after == if inTarget then fs.(dest := Some(remote)) else Files(Some(remote), None)
            else
              && outcome == Failed
              && after == if !net.removeOk then Put(fs, resumed, grown)
                          else if inTarget then fs.(dest := None) else fs.(tmp := None)
  {
    hide Copy, EndingOf, Written;
    CopiedOutput(fs, remote, net, resumed);
    CopyAppends(if resumed then Stock(fs) else [], remote[StartAt(fs, |remote|, net)..], net.steps);
    assert |Grown(fs, remote, net, resumed)| == |remote| <==> Grown(fs, remote, net, resumed) == remote;
  }

  /** An attempt that does not get as far as copying changes nothing; it succeeds only if the target is whole. */
  lemma UntouchedOtherwise(fs: Files, remote: Bytes, net: Net)
    requires Sound(fs, remote) && remote != []
    requires !Copies(fs, remote, net, true) && !Copies(fs, remote, net, false)
    ensures var (after, outcome) := Attempt(fs, remote, |remote|, net);
            && (fs.dest == Some(remote) ==> outcome == Completed && after == fs)
            && (fs.dest != Some(remote) ==> outcome == Failed && after == fs)
  {
    hide Copy;
    if fs.dest.Some? && Size(fs.dest) >= |remote| { FullPrefix(fs.dest, remote); }
  }

  // ---------------------------------------------------------------------------------------
  // When bytes get lost
  // ---------------------------------------------------------------------------------------

  /**
    A disturbed attempt keeps at least as many bytes as there were exactly when it resumed, or got as far
    again from the start, or left a target alone that it had not resumed.
   */
  lemma DisturbedLosesNothingIff(fs: Files, remote: Bytes, net: Net, resumed: bool)
    requires Sound(fs, remote) && Copies(fs, remote, net, resumed) && EndingOf(net.steps) != BodyEnds
    ensures |Stock(Attempt(fs, remote, |remote|, net).0)| >= |Stock(fs)| <==>
            || resumed || Written(net.steps) >= |Stock(fs)|
            || (fs.dest.Some? && EndingOf(net.steps) != UserCancels(true))
  {
    hide EndingOf, Written;
    DisturbedKeeps(fs, remote, net, resumed);
    StockIsPrefix(fs, remote);
  }

  /** A concrete loss: the server ignores the range, and cancelling puts the new beginning over the longer one. */
  lemma CancelCanLoseBytes(remote: Bytes)
    requires |remote| > 2
    ensures var net := Net(true, 200, true, true, true, [Read(1, None, More), Cancel(true)], true, true, true);
            Attempt(Files(Some(remote[..2]), None), remote, |remote|, net) == (Files(Some(remote[..1]), None), Paused)
  {
    var steps := [Read(1, None, More), Cancel(true)];
    var net := Net(true, 200, true, true, true, steps, true, true, true);
    var fs := Files(Some(remote[..2]), None);
    assert steps[1..] == [Cancel(true)];
    assert EndingOf([Cancel(true)]) == UserCancels(true) && Written([Cancel(true)]) == 0;
    assert EndingOf(steps) == UserCancels(true) && Written(steps) == 1;
    DisturbedKeeps(fs, remote, net, false);
  }

  /** Against a server that honours ranges, and without a failed size check or rename. */
  predicate Gentle(fs: Files, remote: Bytes, t: Try) {
    && t.total == |remote| > 0
    && (Stock(fs) != [] ==> t.net.status != 200)
    && (EndingOf(t.net.steps) == BodyEnds && t.net.closeOk ==>
          t.net.renameOk && |Stock(fs)| + Written(t.net.steps) >= |remote|)
  }

  lemma GentleKeeps(fs: Files, remote: Bytes, t: Try)
    requires Sound(fs, remote) && Gentle(fs, remote, t)
    ensures |Stock(Attempt(fs, remote, t.total, t.net).0)| >= |Stock(fs)|
  {
    hide EndingOf, Written, Attempt, Sound;
    StockIsPrefix(fs, remote);
    var resumed := Stock(fs) != [];
    if Copies(fs, remote, t.net, resumed) {
      if EndingOf(t.net.steps) == BodyEnds {
        EndedAttempt(fs, remote, t.net, resumed);
      } else {
        DisturbedLosesNothingIff(fs, remote, t.net, resumed);
      }
    } else {
      UntouchedOtherwise(fs, remote, t.net);
    }
  }

  predicate GentleRun(fs: Files, remote: Bytes, tries: seq<Try>) {
    || tries == []
    || (GentleRun(fs, remote, tries[..|tries| - 1]) &&
        Gentle(Run(fs, remote, tries[..|tries| - 1]), remote, tries[|tries| - 1]))
  }

  /** Over every such run the number of bytes held never falls. */
  lemma {:induction false} BytesNeverFall(fs: Files, remote: Bytes, tries: seq<Try>, i: nat)
    requires Sound(fs, remote) && GentleRun(fs, remote, tries) && i <= |tries|
    ensures |Stock(Run(fs, remote, tries[..i]))| <= |Stock(Run(fs, remote, tries))|
    decreases |tries|
  {
    hide Attempt, Sound, Gentle, Stock;
    if i == |tries| {
      assert tries[..i] == tries;
    } else {
      var init := tries[..|tries| - 1];
      assert init[..i] == tries[..i];
      BytesNeverFall(fs, remote, init, i);
      RunIsSafe(fs, remote, init);
      GentleKeeps(Run(fs, remote, init), remote, tries[|tries| - 1]);
    }
  }
}
