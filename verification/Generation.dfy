/**
  The generation slot.  Starting a generation, finishing one and stopping the current one each take
  the service's lock once; calling a cancel function happens later, outside the lock.  A run is any
  interleaving of these steps by any number of callers.
 */
module Generation {
  import opened Options

  /** A cancel function is known by the token of the generation it cancels. */
  type Token = nat

  // ---------------------------------------------------------------------------------------
  // The service's fields and its lock sections
  // ---------------------------------------------------------------------------------------

  datatype Slot = Slot(genToken: Token, currentCancel: Option<Token>, currentConvID: string)

  /** What each lock section does to the slot; the interleavings below are built from these. */
  function AfterBegin(slot: Slot, conv: string): Slot { Slot(slot.genToken + 1, Some(slot.genToken + 1), conv) }

  function AfterCleanup(slot: Slot, token: Token): Slot {
    if slot.genToken == token then Slot(slot.genToken, None, "") else slot
  }

  function AfterStop(slot: Slot): Slot { Slot(slot.genToken, None, "") }

  class Service {
    var genToken: Token
    var currentCancel: Option<Token>
    var currentConvID: string

    ghost function State(): Slot
      reads this
    {
      Slot(genToken, currentCancel, currentConvID)
    }

    constructor ()
      ensures State() == Slot(0, None, "")
    {
      genToken, currentCancel, currentConvID := 0, None, "";
    }

    /** The lock section of `beginGeneration`: the displaced cancel function is the caller's to call. */
    method BeginGeneration(initialConvID: string) returns (token: Token, oldCancel: Option<Token>, oldConvID: string)
      modifies this
      ensures token == old(genToken) + 1
      ensures oldCancel == old(currentCancel)
      ensures oldConvID == if oldCancel.Some? then old(currentConvID) else ""
      ensures State() == AfterBegin(old(State()), initialConvID)
    {
      oldCancel, oldConvID := None, "";
      if currentCancel.Some? {
        oldCancel := currentCancel;
        oldConvID := currentConvID;
      }
      genToken := genToken + 1;
      token := genToken;
      currentCancel := Some(token);
      currentConvID := initialConvID;
    }

    /** The closure returned by `beginGeneration`. */
    method Cleanup(token: Token)
      modifies this
      ensures State() == AfterCleanup(old(State()), token)
    {
      if genToken == token {
        currentCancel := None;
        currentConvID := "";
      }
    }

    /** The lock section of `StopGeneration`. */
    method StopGeneration() returns (convID: string, cancelFn: Option<Token>)
      modifies this
      ensures convID == old(currentConvID) && cancelFn == old(currentCancel)
      ensures State() == AfterStop(old(State()))
    {
      convID, cancelFn := currentConvID, currentCancel;
      currentCancel := None;
      currentConvID := "";
    }

    /** The late write of the conversation id; it does not look at the token. */
    method SetConvID(convID: string)
      modifies this
      ensures State() == old(State()).(currentConvID := convID)
    {
      currentConvID := convID;
    }
  }

  // ---------------------------------------------------------------------------------------
  // Interleavings
  // ---------------------------------------------------------------------------------------

  datatype Step =
    | Begin(convID: string)
    | Finish(token: Token)          // the generation's cleanup
    | Stop
    | CallCancel(token: Token)      // whoever took a cancel function calls it
    | LateConvID(token: Token, convID: string)

  /**
    The slot together with what happened so far: which cancel functions were taken out of the slot and
    not called yet, which were called (and how often), which generations have cleaned up, and which
    generation wrote the conversation id, if it has not been cleared since.
   */
  datatype World = World(
    slot: Slot,
    held: multiset<Token>,
    called: multiset<Token>,
    finished: set<Token>,
    idOwner: Option<Token>)

  const START := World(Slot(0, None, ""), multiset{}, multiset{}, {}, None)

  predicate Enabled(w: World, s: Step) {
    match s
    case Begin(_) => true
    case Finish(t) => 1 <= t <= w.slot.genToken && t !in w.finished
    case Stop => true
    case CallCancel(t) => t in w.held
    case LateConvID(t, _) => 1 <= t <= w.slot.genToken && t !in w.finished
  }

  function Taken(c: Option<Token>): multiset<Token> { if c.Some? then multiset{c.value} else multiset{} }

  function Next(w: World, s: Step): World
    requires Enabled(w, s)
  {
    var slot := w.slot;
    match s
    case Begin(conv) =>
      w.(slot := AfterBegin(slot, conv), held := w.held + Taken(slot.currentCancel), idOwner := Some(slot.genToken + 1))
    case Finish(t) =>
      w.(slot := AfterCleanup(slot, t), finished := w.finished + {t},
         idOwner := if slot.genToken == t then None else w.idOwner)
    case Stop =>
      w.(slot := AfterStop(slot), held := w.held + Taken(slot.currentCancel), idOwner := None)
    case CallCancel(t) =>
      w.(held := w.held - multiset{t}, called := w.called + multiset{t})
    case LateConvID(t, conv) =>
      w.(slot := slot.(currentConvID := conv), idOwner := Some(t))
  }

  ghost predicate IsRun(ws: seq<World>, steps: seq<Step>) {
    && |ws| == |steps| + 1 && ws[0] == START
    && forall i :: 0 <= i < |steps| ==> Enabled(ws[i], steps[i]) && ws[i + 1] == Next(ws[i], steps[i])
  }

  /** A generation that is neither in the slot nor cleaned up was displaced: its cancel function has been
      called, or is in the hands of whoever displaced it; no cancel function is handed out twice. */
  ghost predicate Invariant(w: World) {
    var slot := w.slot;
    && (slot.currentCancel.Some? ==> slot.currentCancel.value == slot.genToken >= 1 && slot.genToken !in w.finished)
    && (forall t: Token :: (w.held + w.called)[t] <= 1)
    && (forall t: Token :: t in w.held + w.called ==> 1 <= t <= slot.genToken && slot.currentCancel != Some(t))
    && (forall t: Token :: t in w.finished ==> 1 <= t <= slot.genToken)
    && (forall t: Token :: 1 <= t <= slot.genToken ==>
          slot.currentCancel == Some(t) || t in w.finished || t in w.held || t in w.called)
  }

  lemma BeginKeepsInvariant(w: World, s: Step)
    requires Invariant(w) && Enabled(w, s) && s.Begin?
    ensures Invariant(Next(w, s))
  {
    var n := Next(w, s);
    assert n.held + n.called == (w.held + w.called) + Taken(w.slot.currentCancel);
  }

  lemma StopKeepsInvariant(w: World, s: Step)
    requires Invariant(w) && Enabled(w, s) && s.Stop?
    ensures Invariant(Next(w, s))
  {
    var n := Next(w, s);
    assert n.held + n.called == (w.held + w.called) + Taken(w.slot.currentCancel);
  }

  lemma CallKeepsInvariant(w: World, s: Step)
    requires Invariant(w) && Enabled(w, s) && s.CallCancel?
    ensures Invariant(Next(w, s))
  {
    var n := Next(w, s);
    assert n.held + n.called == w.held + w.called;
    assert forall u: Token :: u in n.held + n.called <==> u in n.held || u in n.called;
  }

  lemma NextKeepsInvariant(w: World, s: Step)
    requires Invariant(w) && Enabled(w, s)
    ensures Invariant(Next(w, s))
  {
    match s
    case Begin(_) => BeginKeepsInvariant(w, s);
    case Stop => StopKeepsInvariant(w, s);
    case CallCancel(_) => CallKeepsInvariant(w, s);
    case Finish(_) =>
    case LateConvID(_, _) =>
  }

  lemma {:induction false} RunKeepsInvariant(ws: seq<World>, steps: seq<Step>, i: nat)
    requires IsRun(ws, steps) && i < |ws|
    ensures Invariant(ws[i])
  {
    if i == 0 {
    } else {
      RunKeepsInvariant(ws, steps, i - 1);
      NextKeepsInvariant(ws[i - 1], steps[i - 1]);
    }
  }

  /** A cancel function in the slot always belongs to the newest generation, which has not cleaned up. */
  lemma SlotHoldsNewest(ws: seq<World>, steps: seq<Step>, i: nat)
    requires IsRun(ws, steps) && i < |ws| && ws[i].slot.currentCancel.Some?
    ensures ws[i].slot.currentCancel.value == ws[i].slot.genToken
    ensures ws[i].slot.genToken !in ws[i].finished
  {
    RunKeepsInvariant(ws, steps, i);
  }

  /** In every run a cleanup empties an occupied slot exactly when its own generation is in it. */
  lemma CleanupTakesOnlyItsOwn(ws: seq<World>, steps: seq<Step>, i: nat, t: Token)
    requires IsRun(ws, steps) && i < |steps| && steps[i] == Finish(t)
    requires ws[i].slot.currentCancel.Some?
    ensures ws[i].slot.currentCancel != Some(t) ==> ws[i + 1].slot == ws[i].slot
    ensures ws[i].slot.currentCancel == Some(t) ==> ws[i + 1].slot == Slot(ws[i].slot.genToken, None, "")
  {
    RunKeepsInvariant(ws, steps, i);
    assert ws[i + 1] == Next(ws[i], steps[i]);
  }

  /** A displaced generation that is still running has been cancelled, or its canceller is about to. */
  lemma DisplacedIsCancelled(ws: seq<World>, steps: seq<Step>, i: nat, t: Token)
    requires IsRun(ws, steps) && i < |ws|
    requires 1 <= t <= ws[i].slot.genToken && ws[i].slot.currentCancel != Some(t) && t !in ws[i].finished
    ensures t in ws[i].held || t in ws[i].called
  {
    RunKeepsInvariant(ws, steps, i);
  }

  /** No cancel function is called twice. */
  lemma CancelledAtMostOnce(ws: seq<World>, steps: seq<Step>, i: nat, t: Token)
    requires IsRun(ws, steps) && i < |ws|
    ensures ws[i].called[t] <= 1
  {
    RunKeepsInvariant(ws, steps, i);
    assert (ws[i].held + ws[i].called)[t] == ws[i].held[t] + ws[i].called[t];
  }

  /** Once every generation has cleaned up, the slot is empty. */
  lemma AllFinishedSlotEmpty(ws: seq<World>, steps: seq<Step>, i: nat)
    requires IsRun(ws, steps) && i < |ws|
    requires forall t: Token :: 1 <= t <= ws[i].slot.genToken ==> t in ws[i].finished
    ensures ws[i].slot.currentCancel == None
  {
    RunKeepsInvariant(ws, steps, i);
  }

  // ---------------------------------------------------------------------------------------
  // The conversation id does not follow the slot
  // ---------------------------------------------------------------------------------------

  /** The generation that last wrote the id late since the last one began. */
  function LateWriter(steps: seq<Step>): Option<Token> {
    if steps == [] then None
    else
      match steps[|steps| - 1]
      case Begin(_) => None
      case LateConvID(t, _) => Some(t)
      case _ => LateWriter(steps[..|steps| - 1])
  }

  /**
    While the slot is occupied, the id in it is that of its generation exactly when the last late write
    since that generation began, if there is one, was its own.
   */
  lemma {:induction false} IdFollowsSlotIff(ws: seq<World>, steps: seq<Step>, i: nat)
    requires IsRun(ws, steps) && i < |ws| && ws[i].slot.currentCancel.Some?
    ensures ws[i].idOwner == Some(ws[i].slot.genToken) <==>
            LateWriter(steps[..i]).None? || LateWriter(steps[..i]) == Some(ws[i].slot.genToken)
  {
    if i == 0 {
      assert false;
    } else {
      assert steps[..i][..i - 1] == steps[..i - 1];
      var w, s := ws[i - 1], steps[i - 1];
      assert Enabled(w, s) && ws[i] == Next(w, s);
      if !s.Begin? && !s.LateConvID? {
        IdFollowsSlotIff(ws, steps, i - 1);
        RunKeepsInvariant(ws, steps, i - 1);
      }
    }
  }

  /** A late write into an occupied slot by another generation than the one that holds it. */
  predicate WritesOverAnother(w: World, s: Step) {
    s.LateConvID? && w.slot.currentCancel.Some? && s.token != w.slot.genToken
  }

  ghost predicate IdFollowsSlot(ws: seq<World>) {
    forall i :: 0 <= i < |ws| && ws[i].slot.currentCancel.Some? ==> ws[i].idOwner == Some(ws[i].slot.genToken)
  }

  /** Throughout a run the id follows the slot exactly when no generation ever writes over another's. */
  lemma IdAlwaysFollowsIff(ws: seq<World>, steps: seq<Step>)
    requires IsRun(ws, steps)
    ensures IdFollowsSlot(ws) <==> forall k :: 0 <= k < |steps| ==> !WritesOverAnother(ws[k], steps[k])
  {
    if k :| 0 <= k < |steps| && WritesOverAnother(ws[k], steps[k]) {
      assert ws[k + 1] == Next(ws[k], steps[k]);
    } else {
      forall i | 0 <= i < |ws| && ws[i].slot.currentCancel.Some?
        ensures ws[i].idOwner == Some(ws[i].slot.genToken)
      {
        OwnWritesOnly(ws, steps, i);
      }
    }
  }

  lemma {:induction false} OwnWritesOnly(ws: seq<World>, steps: seq<Step>, i: nat)
    requires IsRun(ws, steps) && i < |ws| && ws[i].slot.currentCancel.Some?
    requires forall k :: 0 <= k < |steps| ==> !WritesOverAnother(ws[k], steps[k])
    ensures ws[i].idOwner == Some(ws[i].slot.genToken)
  {
    if i == 0 {
    } else {
      var w, s := ws[i - 1], steps[i - 1];
      assert Enabled(w, s) && ws[i] == Next(w, s) && !WritesOverAnother(w, s);
      if !s.Begin? {
        OwnWritesOnly(ws, steps, i - 1);
        RunKeepsInvariant(ws, steps, i - 1);
      }
    }
  }

  /** A generation whose late write of its conversation comes after a newer one has begun redirects a
      stop: it names the older conversation while taking the newer generation's cancel function. */
  lemma StopNamesWrongConversation(older: string, newer: string)
    ensures var w := Next(Next(Next(START, Begin("")), Begin(newer)), LateConvID(1, older));
            w.slot == Slot(2, Some(2), older) && w.idOwner == Some(1)
  {
  }

  // ---------------------------------------------------------------------------------------
  // An empty slot can still name a conversation
  // ---------------------------------------------------------------------------------------

  /** A late write of a conversation into an empty slot. */
  predicate WritesIntoEmpty(w: World, s: Step) { s.LateConvID? && w.slot.currentCancel == None && s.convID != "" }

  ghost predicate EmptySlotNamesNothing(ws: seq<World>) {
    forall i :: 0 <= i < |ws| && ws[i].slot.currentCancel == None ==> ws[i].slot.currentConvID == ""
  }

  /** Throughout a run an empty slot names no conversation exactly when none is ever written into it. */
  lemma EmptySlotNamesNothingIff(ws: seq<World>, steps: seq<Step>)
    requires IsRun(ws, steps)
    ensures EmptySlotNamesNothing(ws) <==> forall k :: 0 <= k < |steps| ==> !WritesIntoEmpty(ws[k], steps[k])
  {
    if k :| 0 <= k < |steps| && WritesIntoEmpty(ws[k], steps[k]) {
      assert ws[k + 1] == Next(ws[k], steps[k]);
    } else {
      forall i | 0 <= i < |ws| && ws[i].slot.currentCancel == None
        ensures ws[i].slot.currentConvID == ""
      {
        NothingWrittenIntoEmpty(ws, steps, i);
      }
    }
  }

  lemma {:induction false} NothingWrittenIntoEmpty(ws: seq<World>, steps: seq<Step>, i: nat)
    requires IsRun(ws, steps) && i < |ws| && ws[i].slot.currentCancel == None
    requires forall k :: 0 <= k < |steps| ==> !WritesIntoEmpty(ws[k], steps[k])
    ensures ws[i].slot.currentConvID == ""
  {
    if i == 0 {
    } else {
      var w, s := ws[i - 1], steps[i - 1];
      assert Enabled(w, s) && ws[i] == Next(w, s) && !WritesIntoEmpty(w, s);
      if w.slot.currentCancel == None { NothingWrittenIntoEmpty(ws, steps, i - 1); }
    }
  }

  /** A concrete run: a stopped service goes on naming a conversation. */
  lemma LateWriteAfterStop(conv: string)
    requires conv != ""
    ensures var w := Next(Next(Next(START, Begin("")), Stop), LateConvID(1, conv));
            w.slot == Slot(1, None, conv)
  {
  }
}
