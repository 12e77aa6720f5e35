/**
  The verdicts of the load wait read off the trace itself, without any counters.
 */
module LoadVerdicts {
  import opened Options
  import opened LoadPolling

  predicate ListsAsUp(p: Poll) {
    p.Parsed? && p.entry.Some? && (p.entry.value.value == "loaded" || p.entry.value.value == "sleeping")
  }

  predicate ShowsLoaded(p: Poll) { ListsAsUp(p) && !p.entry.value.failed }

  /** The entry reports a failure: its flag is set, or its state is "failed". */
  predicate ShowsFailed(p: Poll) {
    p.Parsed? && p.entry.Some? && (p.entry.value.failed || p.entry.value.value == "failed")
  }

  /** The entry was unloaded by a process that ended with an error. */
  predicate ShowsCrashed(p: Poll) {
    p.Parsed? && p.entry.Some? && !p.entry.value.failed && p.entry.value.value == "unloaded" && p.entry.value.exitCode != 0
  }

  /** The most recent parsed response shows the target as loaded. */
  predicate PreviousLoaded(trace: seq<Poll>) {
    trace != [] &&
    var p := trace[|trace| - 1];
    if p.Unusable? then PreviousLoaded(trace[..|trace| - 1]) else ShowsLoaded(p)
  }

  ghost predicate Seen(trace: seq<Poll>) {
    exists i :: 0 <= i < |trace| && trace[i].Parsed? && trace[i].entry.Some?
  }

  /** The memory is looked at on responses that do not show the target as loaded. */
  predicate Reads(p: Poll, v: Vram) { p.Parsed? && !ListsAsUp(p) && p.vram == v }

  /** Free readings since the last occupied one, if there was one. */
  function FreeSinceOccupied(trace: seq<Poll>): Option<nat> {
    if trace == [] then None
    else
      var before, p := FreeSinceOccupied(trace[..|trace| - 1]), trace[|trace| - 1];
      if Reads(p, Occupied) then Some(0)
      else if Reads(p, Free) && before.Some? then Some(before.value + 1)
      else before
  }

  /** The verdict of a poll, given the polls before it. */
  ghost function VerdictAfter(history: seq<Poll>, p: Poll): Verdict {
    match p
    case Cancelled => ContextGone
    case Unusable => Pending
    case Parsed(entry, vram) =>
      if ShowsFailed(p) then Failed
      else if ShowsCrashed(p) then Crashed
      else if ListsAsUp(p) then (if PreviousLoaded(history) then Loaded else Pending)
      else if vram == Free && FreeSinceOccupied(history).Some? && FreeSinceOccupied(history).value + 1 >= 3
      then VramCrash
      else if entry.None? && Seen(history) then Disappeared
      else Pending
  }

  lemma SeenSnoc(trace: seq<Poll>, p: Poll)
    ensures Seen(trace + [p]) <==> Seen(trace) || (p.Parsed? && p.entry.Some?)
  {
    var t := trace + [p];
    assert forall i :: 0 <= i < |trace| ==> t[i] == trace[i];
    if Seen(trace) {
      var i :| 0 <= i < |trace| && trace[i].Parsed? && trace[i].entry.Some?;
      assert t[i] == trace[i];
    }
    assert t[|trace|] == p;
  }

  ghost predicate CountersMatch(trace: seq<Poll>, c: Counters) {
    && c.stable == (if PreviousLoaded(trace) then 1 else 0)
    && c.seenBefore == Seen(trace)
    && c.seenOccupied == FreeSinceOccupied(trace).Some?
    && (c.seenOccupied ==> c.releases == FreeSinceOccupied(trace).value)
    && (PreviousLoaded(trace) ==> Seen(trace))
  }

  /** While there is no verdict, the counters say no more than the trace. */
  lemma {:induction false} CountersFollowTrace(trace: seq<Poll>)
    requires Run(trace).1 == Pending
    ensures CountersMatch(trace, Run(trace).0)
  {
    if trace == [] {
    } else {
      var init, p := trace[..|trace| - 1], trace[|trace| - 1];
      assert Run(init).1 == Pending;
      CountersFollowTrace(init);
      SeenSnoc(init, p);
      assert trace == init + [p];
      TurnFollowsTrace(init, p, Run(init).0);
    }
  }

  lemma TurnFollowsTrace(init: seq<Poll>, p: Poll, c: Counters)
    requires CountersMatch(init, c) && Turn(c, p).1 == Pending
    ensures CountersMatch(init + [p], Turn(c, p).0)
  {
    hide Run;
    SeenSnoc(init, p);
    var t := init + [p];
    assert t[..|t| - 1] == init && t[|t| - 1] == p;
  }

  /** The verdict of the counters is the verdict of the trace, for every poll that still finds the wait open. */
  lemma VerdictFromTrace(history: seq<Poll>, p: Poll)
    requires Run(history).1 == Pending
    ensures Run(history + [p]).1 == VerdictAfter(history, p)
  {
    CountersFollowTrace(history);
    assert (history + [p])[..|history|] == history;
    hide Run, PreviousLoaded, FreeSinceOccupied, Seen;
  }

  /** A verdict was reached at one poll, with the wait still open before it. */
  lemma {:induction false} VerdictPoint(trace: seq<Poll>) returns (k: nat)
    requires Run(trace).1 != Pending
    ensures k < |trace| && Run(trace[..k]).1 == Pending && Run(trace).1 == VerdictAfter(trace[..k], trace[k])
  {
    var init, p := trace[..|trace| - 1], trace[|trace| - 1];
    assert trace == init + [p];
    if Run(init).1 == Pending {
      k := |trace| - 1;
      VerdictFromTrace(init, p);
    } else {
      k := VerdictPoint(init);
      assert init[..k] == trace[..k];
    }
  }

  lemma {:induction false} LastParsed(trace: seq<Poll>) returns (j: nat)
    requires PreviousLoaded(trace)
    ensures j < |trace| && ShowsLoaded(trace[j])
    ensures forall i :: j < i < |trace| ==> trace[i].Unusable?
  {
    if trace[|trace| - 1].Unusable? {
      j := LastParsed(trace[..|trace| - 1]);
    } else {
      j := |trace| - 1;
    }
  }

  /** Success is reported only when the two most recent parsed responses both show the target as loaded. */
  lemma LoadedNeedsTwoInARow(trace: seq<Poll>) returns (j: nat, k: nat)
    requires Run(trace).1 == Loaded
    ensures j < k < |trace| && ShowsLoaded(trace[j]) && ShowsLoaded(trace[k])
    ensures forall i :: j < i < k ==> trace[i].Unusable?
  {
    k := VerdictPoint(trace);
    j := LastParsed(trace[..k]);
    forall i | j < i < k
      ensures trace[i].Unusable?
    {
      assert trace[i] == trace[..k][i];
    }
  }

  /** Positions of the last occupied reading and of the free readings after it. */
  lemma {:induction false} FreeReadings(trace: seq<Poll>) returns (o: nat, fs: seq<nat>)
    requires FreeSinceOccupied(trace).Some?
    ensures o < |trace| && Reads(trace[o], Occupied)
    ensures |fs| == FreeSinceOccupied(trace).value
    ensures forall n :: 0 <= n < |fs| ==> o < fs[n] < |trace| && Reads(trace[fs[n]], Free)
    ensures forall m, n :: 0 <= m < n < |fs| ==> fs[m] < fs[n]
    ensures forall i :: o < i < |trace| ==> !Reads(trace[i], Occupied)
  {
    var init, p := trace[..|trace| - 1], trace[|trace| - 1];
    if Reads(p, Occupied) {
      o, fs := |trace| - 1, [];
    } else {
      o, fs := FreeReadings(init);
      if Reads(p, Free) { fs := fs + [|trace| - 1]; }
    }
  }

  /** A memory-crash verdict needs an occupied reading followed by three free ones, none occupied between. */
  lemma VramCrashNeedsThreeFree(trace: seq<Poll>) returns (o: nat, fs: seq<nat>)
    requires Run(trace).1 == VramCrash
    ensures o < |trace| && Reads(trace[o], Occupied) && |fs| >= 3
    ensures forall n :: 0 <= n < |fs| ==> o < fs[n] < |trace| && Reads(trace[fs[n]], Free)
    ensures forall m, n :: 0 <= m < n < |fs| ==> fs[m] < fs[n]
    ensures forall i :: o < i <= fs[|fs| - 1] ==> !Reads(trace[i], Occupied)
  {
    var k := VerdictPoint(trace);
    o, fs := FreeReadings(trace[..k]);
    fs := fs + [k];
    forall i | o < i <= k
      ensures !Reads(trace[i], Occupied)
    {
      if i < k { assert trace[i] == trace[..k][i]; }
    }
  }

  /**
    While the wait is open, a response ends it as failed exactly when the entry's flag is set or its state is
    "failed", and as crashed exactly when the entry is unloaded, without the flag, with an exit code other than 0.
   */
  lemma EntryEndsWaitIff(history: seq<Poll>, entry: Option<Entry>, vram: Vram)
    requires Run(history).1 == Pending
    ensures var v := Run(history + [Parsed(entry, vram)]).1;
            && (v == Failed <==> entry.Some? && (entry.value.failed || entry.value.value == "failed"))
            && (v == Crashed <==>
                  entry.Some? && !entry.value.failed && entry.value.value == "unloaded" && entry.value.exitCode != 0)
  {
    VerdictFromTrace(history, Parsed(entry, vram));
    hide Run;
  }

  /** A verdict of failure or crash comes from the response that shows it. */
  lemma FailureNeedsEntry(trace: seq<Poll>) returns (k: nat)
    requires Run(trace).1 == Failed || Run(trace).1 == Crashed
    ensures k < |trace| && (Run(trace).1 == Failed ==> ShowsFailed(trace[k])) && (Run(trace).1 == Crashed ==> ShowsCrashed(trace[k]))
  {
    k := VerdictPoint(trace);
  }

  /** Disappearance is an error only after the target had been listed. */
  lemma DisappearanceNeedsSighting(trace: seq<Poll>) returns (j: nat, k: nat)
    requires Run(trace).1 == Disappeared
    ensures j < k < |trace| && trace[j].Parsed? && trace[j].entry.Some? && trace[k].Parsed? && trace[k].entry.None?
  {
    k := VerdictPoint(trace);
    assert Seen(trace[..k]);
    j :| 0 <= j < k && trace[..k][j].Parsed? && trace[..k][j].entry.Some?;
  }

  /** An unusable response between two loaded ones does not disturb the count, one that shows loading does. */
  lemma StabilityAcrossUnusable(state: string, code: int, v: Vram)
    requires state == "loaded" || state == "sleeping"
    ensures var up := Parsed(Some(Entry(state, false, code)), v);
            var loading := Parsed(Some(Entry("loading", false, code)), Unreadable);
            Run([up, Unusable, up]).1 == Loaded && Run([up, loading, up]).1 == Pending
  {
    var a, b := Parsed(Some(Entry(state, false, code)), v), Parsed(Some(Entry("loading", false, code)), Unreadable);
    var t, u := [a, Unusable, a], [a, b, a];
    assert t[..2] == [a, Unusable] && u[..2] == [a, b] && [a, Unusable][..1] == [a] && [a, b][..1] == [a] && [a][..0] == [];
    assert Run([a]) == (Counters(1, false, 0, true), Pending);
    assert Run([a, Unusable]) == (Counters(1, false, 0, true), Pending);
    assert Run([a, b]) == (Counters(0, false, 0, true), Pending);
  }
}
