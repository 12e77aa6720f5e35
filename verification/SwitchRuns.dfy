/**
  Model switches by any number of callers, interleaved step by step.
 */
module SwitchRuns {
  import opened Options
  import opened ModelSwitch

  datatype Caller = Caller(id: nat)

  /** Where a caller is inside `SwitchModel`. */
  datatype Position =
    | Outside
    | Refused
    | Reserved(target: string)
    | Preparing(target: string, previous: string)    // the previous model has been read
    | Loading(target: string, previous: string)
    | Acting(todo: seq<Action>, outcome: Outcome)
    | Done(outcome: Outcome)

  predicate Owns(p: Position) { p.Reserved? || p.Preparing? || p.Loading? || p.Acting? }

  /** The shared state, every caller's position, and the outcomes of the switches completed so far. */
  datatype World = World(sh: Shared, at: map<Caller, Position>, outcomes: seq<Outcome>, releases: multiset<Caller>)

  function At(w: World, c: Caller): Position { if c in w.at then w.at[c] else Outside }

  datatype Step =
    | Enter(c: Caller, target: string, serverUp: bool)
    | Advance(c: Caller)
    | Loaded(c: Caller, made: seq<Call>, restored: bool)

  predicate Enabled(w: World, s: Step) {
    match s
    case Enter(c, _, _) => At(w, c).Outside?
    case Advance(c) => At(w, c).Reserved? || At(w, c).Preparing? || (At(w, c).Acting? && At(w, c).todo != [])
    case Loaded(c, made, _) => At(w, c).Loading? && LoadProtocol(made)
  }

  function Next(w: World, s: Step): World
    requires Enabled(w, s)
  {
    match s
    case Enter(c, target, up) =>
      if !up || w.sh.session.switching then w.(at := w.at[c := Refused])
      else w.(at := w.at[c := Reserved(target)],
              sh := w.sh.(session := w.sh.session.(switching := true, switchingTo := target)))
    case Loaded(c, made, restored) =>
      var p := At(w, c);
      var o := Decide(p.target, p.previous, LastError(made), restored);
      w.(at := w.at[c := Acting(Plan(o, p.previous), o)])
    case Advance(c) =>
      match At(w, c)
      case Reserved(t) => w.(at := w.at[c := Preparing(t, w.sh.session.currentModel)])
      case Preparing(t, prev) => w.(at := w.at[c := Loading(t, prev)], sh := w.sh.(ready := false))
      case Acting(todo, o) =>
        var w' := w.(sh := Apply(w.sh, todo[0]));
        if todo[0] == Release
        then w'.(at := w.at[c := Done(o)], outcomes := w.outcomes + [o], releases := w.releases + multiset{c})
        else w'.(at := w.at[c := Acting(todo[1..], o)])
  }

  /** The state that the completed switches would have left, run one after another. */
  function Sequential(initial: Shared, outcomes: seq<Outcome>): Shared {
    if outcomes == [] then initial
    else After(Sequential(initial, outcomes[..|outcomes| - 1]), outcomes[|outcomes| - 1])
  }

  predicate Idle(sh: Shared) { !sh.session.switching && sh.session.switchingTo == "" }

  ghost predicate IsRun(initial: Shared, ws: seq<World>, steps: seq<Step>) {
    && |ws| == |steps| + 1 && Idle(initial)
    && ws[0] == World(initial, map[], [], multiset{})
    && forall i :: 0 <= i < |steps| ==> Enabled(ws[i], steps[i]) && ws[i + 1] == Next(ws[i], steps[i])
  }

  // ---------------------------------------------------------------------------------------
  // The invariant
  // ---------------------------------------------------------------------------------------

  /** What the owner at this position still has to do brings the shared state to the sequential one. */
  ghost predicate OnTrack(initial: Shared, w: World, p: Position) {
    var base := Sequential(initial, w.outcomes);
    match p
    case Reserved(t) => w.sh == base.(session := base.session.(switching := true, switchingTo := t))
    case Preparing(t, prev) =>
      w.sh == base.(session := base.session.(switching := true, switchingTo := t)) && prev == base.session.currentModel
    case Loading(t, prev) =>
      && w.sh == base.(session := base.session.(switching := true, switchingTo := t), ready := false)
      && prev == base.session.currentModel
    case Acting(todo, o) =>
      && w.sh.session.switching && EndsInRelease(todo)
      && ApplyAll(w.sh, todo) == After(base, o)
    case _ => true
  }

  predicate EndsInRelease(todo: seq<Action>) {
    todo != [] && todo[|todo| - 1] == Release && forall i :: 0 <= i < |todo| - 1 ==> todo[i] != Release
  }

  ghost predicate Invariant(initial: Shared, w: World) {
    && Idle(Sequential(initial, w.outcomes))
    && (forall c, d: Caller :: Owns(At(w, c)) && Owns(At(w, d)) ==> c == d)
    && (w.sh.session.switching <==> exists c: Caller :: Owns(At(w, c)))
    && (!w.sh.session.switching ==> w.sh == Sequential(initial, w.outcomes))
    && (forall c: Caller :: Owns(At(w, c)) ==> OnTrack(initial, w, At(w, c)))
    && (forall c: Caller :: w.releases[c] == if At(w, c).Done? then 1 else 0)
  }

  lemma SequentialSnoc(initial: Shared, outcomes: seq<Outcome>, o: Outcome)
    ensures Sequential(initial, outcomes + [o]) == After(Sequential(initial, outcomes), o)
  {
    assert (outcomes + [o])[..|outcomes|] == outcomes;
  }

  /** The plan of an outcome leads from the loading state to the state after the whole switch. */
  lemma PlanReachesAfter(base: Shared, target: string, previous: string, err: string, restored: bool)
    requires Idle(base) && previous == base.session.currentModel
    ensures var o := Decide(target, previous, err, restored);
            var loading := base.(session := base.session.(switching := true, switchingTo := target), ready := false);
            EndsInRelease(Plan(o, previous)) && ApplyAll(loading, Plan(o, previous)) == After(base, o)
  {
    var o := Decide(target, previous, err, restored);
    var loading := base.(session := base.session.(switching := true, switchingTo := target), ready := false);
    FourOrFive(loading, Plan(o, previous));
  }

  lemma FourOrFive(sh: Shared, todo: seq<Action>)
    ensures |todo| == 4 ==> ApplyAll(sh, todo) == Apply(Apply(Apply(Apply(sh, todo[0]), todo[1]), todo[2]), todo[3])
    ensures |todo| == 5 ==>
              ApplyAll(sh, todo) == Apply(Apply(Apply(Apply(Apply(sh, todo[0]), todo[1]), todo[2]), todo[3]), todo[4])
  {
    hide Apply, ApplyAll;
    if |todo| == 4 || |todo| == 5 {
      var s1 := Apply(sh, todo[0]);
      var s2 := Apply(s1, todo[1]);
      var s3 := Apply(s2, todo[2]);
      var s4 := Apply(s3, todo[3]);
      assert todo[0..] == todo && todo[|todo|..] == [];
      ApplyFrom(sh, todo, 0);
      ApplyFrom(s1, todo, 1);
      ApplyFrom(s2, todo, 2);
      ApplyFrom(s3, todo, 3);
      if |todo| == 5 { ApplyFrom(s4, todo, 4); }
      NothingToDo(if |todo| == 5 then Apply(s4, todo[4]) else s4);
    }
  }

  lemma ApplyFrom(sh: Shared, todo: seq<Action>, i: nat)
    requires i < |todo|
    ensures ApplyAll(sh, todo[i..]) == ApplyAll(Apply(sh, todo[i]), todo[i + 1..])
  {
    assert todo[i..][1..] == todo[i + 1..];
  }

  lemma NothingToDo(sh: Shared)
    ensures ApplyAll(sh, []) == sh
  {
  }

  lemma EnterKeepsInvariant(initial: Shared, w: World, s: Step)
    requires Invariant(initial, w) && Enabled(w, s) && s.Enter?
    ensures Invariant(initial, Next(w, s))
  {
    hide Sequential, ApplyAll;
    var n := Next(w, s);
    assert forall d: Caller :: d != s.c ==> At(n, d) == At(w, d);
    assert !Owns(At(w, s.c));
    if Owns(At(n, s.c)) {
      assert exists c: Caller :: Owns(At(n, c));
    } else {
      forall c: Caller
        ensures Owns(At(n, c)) == Owns(At(w, c))
      {
      }
      if w.sh.session.switching {
        var c: Caller :| Owns(At(w, c));
        assert Owns(At(n, c));
      }
    }
  }

  /** The owner moves on inside its switch. */
  lemma OwnerKeepsInvariant(initial: Shared, w: World, s: Step)
    requires Invariant(initial, w) && Enabled(w, s) && !s.Enter? && Owns(At(Next(w, s), s.c))
    ensures Invariant(initial, Next(w, s))
  {
    OwnerStaysOnTrack(initial, w, s);
    hide Sequential, OnTrack, Decide, Plan, Apply;
    var n := Next(w, s);
    assert Owns(At(w, s.c));
    forall d: Caller
      ensures d != s.c ==> At(n, d) == At(w, d) && !Owns(At(n, d))
    {
      if Owns(At(w, d)) { assert d == s.c; }
    }
    assert n.releases == w.releases;
  }

  lemma OwnerStaysOnTrack(initial: Shared, w: World, s: Step)
    requires Invariant(initial, w) && Enabled(w, s) && !s.Enter? && Owns(At(Next(w, s), s.c))
    ensures OnTrack(initial, Next(w, s), At(Next(w, s), s.c)) && Next(w, s).sh.session.switching
  {
    hide Sequential, LastError, Decide, Plan, After;
    assert OnTrack(initial, w, At(w, s.c)) && w.sh.session.switching;
    if s.Loaded? {
      var p := At(w, s.c);
      PlanReachesAfter(Sequential(initial, w.outcomes), p.target, p.previous, LastError(s.made), s.restored);
    }
  }

  /** The last action hands the session back. */
  lemma ReleaseKeepsInvariant(initial: Shared, w: World, s: Step)
    requires Invariant(initial, w) && Enabled(w, s) && !s.Enter? && !Owns(At(Next(w, s), s.c))
    ensures Invariant(initial, Next(w, s))
    ensures At(Next(w, s), s.c).Done? && Next(w, s).sh == Sequential(initial, Next(w, s).outcomes)
  {
    hide Sequential, LastError, Decide, Plan;
    var n, p := Next(w, s), At(w, s.c);
    assert forall d: Caller :: d != s.c ==> At(n, d) == At(w, d);
    assert Owns(p) && p.Acting? && p.todo[0] == Release;
    assert |p.todo| == 1;
    assert ApplyAll(w.sh, p.todo) == Apply(w.sh, Release) by { assert p.todo[1..] == []; }
    SequentialSnoc(initial, w.outcomes, p.outcome);
    forall c: Caller
      ensures !Owns(At(n, c))
    {
    }
  }

  lemma NextKeepsInvariant(initial: Shared, w: World, s: Step)
    requires Invariant(initial, w) && Enabled(w, s)
    ensures Invariant(initial, Next(w, s))
  {
    hide Invariant, Next, Enabled;
    if s.Enter? {
      EnterKeepsInvariant(initial, w, s);
    } else if Owns(At(Next(w, s), s.c)) {
      OwnerKeepsInvariant(initial, w, s);
    } else {
      ReleaseKeepsInvariant(initial, w, s);
    }
  }

  lemma {:induction false} RunKeepsInvariant(initial: Shared, ws: seq<World>, steps: seq<Step>, i: nat)
    requires IsRun(initial, ws, steps) && i < |ws|
    ensures Invariant(initial, ws[i])
  {
    if i == 0 {
    } else {
      RunKeepsInvariant(initial, ws, steps, i - 1);
      NextKeepsInvariant(initial, ws[i - 1], steps[i - 1]);
    }
  }

  // ---------------------------------------------------------------------------------------
  // What every run guarantees
  // ---------------------------------------------------------------------------------------

  /** At most one caller is inside a switch, and the session says so. */
  lemma OneOwner(initial: Shared, ws: seq<World>, steps: seq<Step>, i: nat, c: Caller, d: Caller)
    requires IsRun(initial, ws, steps) && i < |ws| && Owns(At(ws[i], c)) && Owns(At(ws[i], d))
    ensures c == d && ws[i].sh.session.switching
  {
    RunKeepsInvariant(initial, ws, steps, i);
  }

  /** A caller is refused exactly when the server is down or another caller is inside its switch, and then leaves no trace. */
  lemma RefusedIffOwned(initial: Shared, ws: seq<World>, steps: seq<Step>, i: nat)
    requires IsRun(initial, ws, steps) && i < |steps| && steps[i].Enter?
    ensures var w, n, s := ws[i], ws[i + 1], steps[i];
            && (At(n, s.c).Refused? <==> !s.serverUp || exists d: Caller :: Owns(At(w, d)))
            && (At(n, s.c).Refused? ==>
                  n.sh == w.sh && n.outcomes == w.outcomes && forall d: Caller :: d != s.c ==> At(n, d) == At(w, d))
            && (!At(n, s.c).Refused? ==> Owns(At(n, s.c)))
  {
    RunKeepsInvariant(initial, ws, steps, i);
    assert Enabled(ws[i], steps[i]) && ws[i + 1] == Next(ws[i], steps[i]);
  }

  /** Every caller that finished has released the session exactly once, every other one not at all. */
  lemma ReleasedExactlyOnce(initial: Shared, ws: seq<World>, steps: seq<Step>, i: nat, c: Caller)
    requires IsRun(initial, ws, steps) && i < |ws|
    ensures ws[i].releases[c] == if At(ws[i], c).Done? then 1 else 0
  {
    RunKeepsInvariant(initial, ws, steps, i);
  }

  /** Whenever nobody is switching, the shared state is what the completed switches leave when run in turn. */
  lemma IdleMeansSequential(initial: Shared, ws: seq<World>, steps: seq<Step>, i: nat)
    requires IsRun(initial, ws, steps) && i < |ws|
    requires forall c: Caller :: !Owns(At(ws[i], c))
    ensures ws[i].sh == Sequential(initial, ws[i].outcomes) && Idle(ws[i].sh)
  {
    RunKeepsInvariant(initial, ws, steps, i);
  }

  /** The target of the last successful switch. */
  function LastTarget(initial: string, outcomes: seq<Outcome>): string {
    if outcomes == [] then initial
    else if outcomes[|outcomes| - 1].Switched? then outcomes[|outcomes| - 1].target
    else LastTarget(initial, outcomes[..|outcomes| - 1])
  }

  /** The last outcome that touched the failure flag; a rollback does not. */
  function StickyFailure(initial: bool, outcomes: seq<Outcome>): bool {
    if outcomes == [] then initial
    else match outcomes[|outcomes| - 1]
      case Switched(_) => false
      case Lost(_) => true
      case RolledBack => StickyFailure(initial, outcomes[..|outcomes| - 1])
  }

  /** Read off the sequential state: the current model is the last successful target; the server is ready
      after success or rollback, and an error is on record otherwise. */
  lemma {:induction false} SequentialMeaning(initial: Shared, outcomes: seq<Outcome>)
    requires Idle(initial)
    ensures var sh := Sequential(initial, outcomes);
            && Idle(sh)
            && sh.session.currentModel == LastTarget(initial.session.currentModel, outcomes)
            && sh.loadFailed == StickyFailure(initial.loadFailed, outcomes)
            && (outcomes != [] ==>
                  match outcomes[|outcomes| - 1]
                  case Switched(_) => sh.ready && !sh.loadFailed && sh.lastError == ""
                  case RolledBack => sh.ready
                  case Lost(e) => !sh.ready && sh.loadFailed && sh.lastError == e)
    decreases |outcomes|
  {
    if outcomes == [] {
    } else {
      SequentialMeaning(initial, outcomes[..|outcomes| - 1]);
    }
  }

  /** What the calls of a load lead to: success exactly when the target is up, a rollback exactly when
      there is another model and it could be restored, and otherwise a loss with the last error. */
  lemma LoadedDecides(w: World, s: Step)
    requires Enabled(w, s) && s.Loaded?
    ensures var p, n := At(w, s.c), At(Next(w, s), s.c);
            && n.Acting?
            && (n.outcome == Switched(p.target) <==> TargetUp(s.made))
            && (n.outcome == RolledBack <==> !TargetUp(s.made) && p.previous != "" && p.previous != p.target && s.restored)
            && (n.outcome.Lost? ==> LastError(s.made) <= n.outcome.error)
  {
    NoErrorIffUp(s.made);
  }

  /** Every error on record is a real message. */
  lemma LostHasMessage(target: string, previous: string, err: string, restored: bool)
    requires Decide(target, previous, err, restored).Lost?
    ensures Decide(target, previous, err, restored).error != ""
  {
  }

  /** After success or rollback the server is ready; the failure flag is down exactly when no failure
      has happened since the last success. */
  lemma {:induction false} ReadyWithoutFailureIff(initial: Shared, outcomes: seq<Outcome>)
    requires Idle(initial) && outcomes != [] && !outcomes[|outcomes| - 1].Lost?
    ensures var sh := Sequential(initial, outcomes);
            sh.ready && (!sh.loadFailed <==> !StickyFailure(initial.loadFailed, outcomes))
  {
    SequentialMeaning(initial, outcomes);
  }

  /** A rollback that works does not clear an earlier failure: ready and failed at the same time. */
  lemma RollbackLeavesFailureFlag(initial: Shared, e: string)
    requires Idle(initial)
    ensures var sh := Sequential(initial, [Lost(e), RolledBack]);
            sh.ready && sh.loadFailed && sh.lastError == e
  {
    var o := [Lost(e), RolledBack];
    assert o[..1] == [Lost(e)] && [Lost(e)][..0] == [];
    assert Sequential(initial, [Lost(e)]) == After(initial, Lost(e));
  }
}
