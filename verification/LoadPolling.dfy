/**
  Waiting for a model to load: a verdict over a trace of polls.
 */
module LoadPolling {
  import opened Options

  const REQUIRED_STABLE_POLLS := 2
  const VRAM_RELEASE_THRESHOLD := 3

  /** The first matching entry of a model list. */
  datatype Entry = Entry(value: string, failed: bool, exitCode: int)

  /** A reading of the video memory; the query may fail. */
  datatype Vram = Free | Occupied | Unreadable

  /** One turn of the loop: cancelled, an unusable response, or a parsed list with the target's entry in it or not. */
  datatype Poll = Cancelled | Unusable | Parsed(entry: Option<Entry>, vram: Vram)

  datatype Verdict = Pending | Loaded | Failed | Crashed | VramCrash | Disappeared | ContextGone | TimedOut

  class PollState {
    var pollCount: nat
    var stableCount: nat
    var vramSeenOccupied: bool
    var vramReleaseCount: nat
    var modelSeenBefore: bool

    constructor ()
      ensures View() == START
    {
      pollCount, stableCount, vramSeenOccupied, vramReleaseCount, modelSeenBefore := 0, 0, false, 0, false;
    }

    ghost function View(): Counters
      reads this
    {
      Counters(stableCount, vramSeenOccupied, vramReleaseCount, modelSeenBefore)
    }
  }

  datatype Counters = Counters(stable: nat, seenOccupied: bool, releases: nat, seenBefore: bool)

  const START := Counters(0, false, 0, false)

  predicate IsLoaded(e: Entry) { e.value == "loaded" || e.value == "sleeping" }

  /** The verdict on the target's own entry, if it is final. */
  function EntryVerdict(e: Entry): Verdict {
    if e.failed then Failed
    else if IsLoaded(e) then Pending
    else if e.value == "failed" then Failed
    else if e.value == "unloaded" && e.exitCode != 0 then Crashed
    else Pending
  }

  function Evaluate(c: Counters, entry: Option<Entry>): (Counters, Verdict) {
    match entry
    case None => (c, Pending)
    case Some(e) =>
      var seen := c.(seenBefore := true);
      if EntryVerdict(e) != Pending then (seen, EntryVerdict(e))
      else if IsLoaded(e) then
        (seen.(stable := c.stable + 1), if c.stable + 1 >= REQUIRED_STABLE_POLLS then Loaded else Pending)
      else (seen.(stable := 0), Pending)
  }

  function CheckVram(c: Counters, v: Vram): (Counters, Verdict) {
    match v
    case Unreadable => (c, Pending)
    case Occupied => (c.(seenOccupied := true, releases := 0), Pending)
    case Free =>
      if !c.seenOccupied then (c, Pending)
      else (c.(releases := c.releases + 1), if c.releases + 1 >= VRAM_RELEASE_THRESHOLD then VramCrash else Pending)
  }

  predicate LoadedPoll(entry: Option<Entry>) { entry.Some? && IsLoaded(entry.value) }

  /** One turn of the loop. */
  function Turn(c: Counters, p: Poll): (Counters, Verdict) {
    match p
    case Cancelled => (c, ContextGone)
    case Unusable => (c, Pending)
    case Parsed(entry, vram) =>
      var (c1, v1) := Evaluate(c, entry);
      if v1 != Pending then (c1, v1)
      else
        var (c2, v2) := if LoadedPoll(entry) then (c1, Pending) else CheckVram(c1, vram);
        if v2 != Pending then (c2, v2)
        else if entry.None? && c2.seenBefore then (c2, Disappeared)
        else (c2, Pending)
  }

  /** The counters and the verdict after a trace; a verdict ends the wait. */
  function Run(trace: seq<Poll>): (Counters, Verdict) {
    if trace == [] then (START, Pending)
    else
      var (c, v) := Run(trace[..|trace| - 1]);
      if v != Pending then (c, v) else Turn(c, trace[|trace| - 1])
  }

  // ---------------------------------------------------------------------------------------
  // The loop and its helpers
  // ---------------------------------------------------------------------------------------

  method EvaluateModelState(state: PollState, entry: Option<Entry>)
    returns (found: bool, modelLoaded: bool, shouldReturn: bool, err: Verdict)
    modifies state
    ensures found == entry.Some?
    ensures err == Pending && !shouldReturn ==> modelLoaded == LoadedPoll(entry)
    ensures (state.View(), if shouldReturn then Loaded else err) == Evaluate(old(state.View()), entry)
    ensures shouldReturn ==> err == Pending
    ensures err == Failed <==> entry.Some? && (entry.value.failed || entry.value.value == "failed")
    ensures err == Crashed <==>
              entry.Some? && !entry.value.failed && entry.value.value == "unloaded" && entry.value.exitCode != 0
    ensures err in {Pending, Failed, Crashed}
    ensures shouldReturn <==>
              && entry.Some? && !entry.value.failed && (entry.value.value == "loaded" || entry.value.value == "sleeping")
              && old(state.stableCount) >= 1
    ensures state.pollCount == old(state.pollCount)
  {
    found, modelLoaded, shouldReturn, err := false, false, false, Pending;
    if entry.None? { return; }
    var d := entry.value;
    found := true;
    state.modelSeenBefore := true;
    if d.failed {
      return found, false, false, Failed;
    }
    if d.value == "loaded" || d.value == "sleeping" {
      modelLoaded := true;
      state.stableCount := state.stableCount + 1;
      if state.stableCount >= REQUIRED_STABLE_POLLS {
        shouldReturn := true;
      }
    } else if d.value == "failed" {
      err := Failed;
    } else if d.value == "unloaded" {
      if d.exitCode != 0 {
        err := Crashed;
        return;
      }
      if state.stableCount > 0 { state.stableCount := 0; }
    } else {
      if state.stableCount > 0 { state.stableCount := 0; }
    }
  }

  method CheckVramCrash(state: PollState, vram: Vram) returns (crash: Verdict)
    modifies state
    ensures (state.View(), crash) == CheckVram(old(state.View()), vram)
    ensures state.pollCount == old(state.pollCount)
  {
    if vram == Unreadable { return Pending; }
    if vram == Occupied {
      state.vramSeenOccupied := true;
      state.vramReleaseCount := 0;
      return Pending;
    }
    if !state.vramSeenOccupied { return Pending; }
    state.vramReleaseCount := state.vramReleaseCount + 1;
    if state.vramReleaseCount >= VRAM_RELEASE_THRESHOLD { return VramCrash; }
    return Pending;
  }

  method HandleModelNotFound(state: PollState) returns (gone: bool)
    ensures gone == state.modelSeenBefore
  {
    return state.modelSeenBefore;
  }

  /** The trace holds the turns until the deadline; without a verdict by then the wait times out. */
  method WaitForModelLoaded(trace: seq<Poll>) returns (verdict: Verdict)
    ensures verdict == if Run(trace).1 == Pending then TimedOut else Run(trace).1
  {
    var state := new PollState();
    var i := 0;
    while i < |trace|
      invariant 0 <= i <= |trace|
      invariant Run(trace[..i]) == (state.View(), Pending)
    {
      ghost var before := state.View();
      RunStep(trace, i);
      VerdictIsFinal(trace, i + 1);
      hide Run, Evaluate, CheckVram;
      match trace[i] {
        case Cancelled => return ContextGone;
        case Unusable =>
        case Parsed(entry, vram) =>
          state.pollCount := state.pollCount + 1;
          var found, modelLoaded, shouldReturn, err := EvaluateModelState(state, entry);
          if err != Pending { return err; }
          if shouldReturn { return Loaded; }
          if !modelLoaded {
            var crashErr := CheckVramCrash(state, vram);
            if crashErr != Pending { return crashErr; }
          }
          if !found {
            var gone := HandleModelNotFound(state);
            if gone { return Disappeared; }
          }
      }
      i := i + 1;
    }
    assert trace[..|trace|] == trace;
    return TimedOut;
  }

  lemma RunStep(trace: seq<Poll>, i: nat)
    requires i < |trace|
    ensures var (c, v) := Run(trace[..i]);
            Run(trace[..i + 1]) == if v != Pending then (c, v) else Turn(c, trace[i])
  {
    assert trace[..i + 1][..i] == trace[..i];
  }

  lemma {:induction false} VerdictIsFinal(trace: seq<Poll>, i: nat)
    requires i <= |trace|
    ensures Run(trace[..i]).1 != Pending ==> Run(trace) == Run(trace[..i])
    decreases |trace| - i
  {
    if i == |trace| {
      assert trace[..i] == trace;
    } else {
      RunStep(trace, i);
      VerdictIsFinal(trace, i + 1);
    }
  }
}
