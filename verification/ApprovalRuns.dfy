/**
  Tool approval under every interleaving of requests, answers, timeouts and cancellations.  Requests
  are numbered in the order in which their calls reach the gate.
 */
module ApprovalRuns {
  import opened Options
  import opened ToolApproval

  datatype Status =
    | Passed                    // the gate asked nobody
    | Asking                    // approval needed, request not registered yet
    | Waiting
    | Leaving(approved: bool)   // the wait is over, the registration not yet removed
    | Finished(approved: bool)

  /** A call at the gate; `allowedThen` is the allow list the gate saw. */
  datatype Entry = Entry(callId: string, tool: string, mode: string, allowedThen: set<string>, status: Status)

  /** A decision handed to a request. */
  datatype Grant = Grant(callId: string, request: Request, decision: Decision)

  datatype World = World(
    perms: map<string, Permission>,
    reg: Registry,
    calls: seq<Entry>,
    grants: seq<Grant>,
    sends: multiset<Request>,       // decisions put into each request's channel
    received: multiset<Request>)

  datatype Step =
    | Gate(callId: string, tool: string, mode: string)
    | Register(request: Request)
    | Answer(callId: string, decision: Decision)     // lock section of ResolveToolApproval
    | Send(grant: nat)                               // its send, after the lock
    | Receive(request: Request)
    | GiveUp(request: Request)                       // timeout or cancelled context
    | Finish(request: Request)

  function Takes(grants: seq<Grant>, r: Request): nat {
    if grants == [] then 0
    else Takes(grants[..|grants| - 1], r) + if grants[|grants| - 1].request == r then 1 else 0
  }

  function DecisionFor(grants: seq<Grant>, r: Request): Option<Decision> {
    if grants == [] then None
    else if grants[|grants| - 1].request == r then Some(grants[|grants| - 1].decision)
    else DecisionFor(grants[..|grants| - 1], r)
  }

  function StatusOf(w: World, r: Request): Status
    requires r < |w.calls|
  {
    w.calls[r].status
  }

  predicate Enabled(w: World, s: Step) {
    match s
    case Gate(_, _, _) => true
    case Register(r) => r < |w.calls| && StatusOf(w, r) == Asking
    case Answer(_, _) => true
    case Send(g) => g < |w.grants| && w.sends[w.grants[g].request] < Takes(w.grants, w.grants[g].request)
    case Receive(r) =>
      r < |w.calls| && StatusOf(w, r) == Waiting && w.received[r] < w.sends[r] && DecisionFor(w.grants, r).Some?
    case GiveUp(r) => r < |w.calls| && StatusOf(w, r) == Waiting
    case Finish(r) => r < |w.calls| && StatusOf(w, r).Leaving?
  }

  function WithStatus(w: World, r: Request, st: Status): World
    requires r < |w.calls|
  {
    w.(calls := w.calls[r := w.calls[r].(status := st)])
  }

  function Next(w: World, s: Step): World
    requires Enabled(w, s)
  {
    match s
    case Gate(id, tool, mode) =>
      var need := NeedsApproval(w.perms, w.reg.allowed, tool, mode).0;
      w.(calls := w.calls + [Entry(id, tool, mode, w.reg.allowed, if need then Asking else Passed)])
    case Register(r) =>
      WithStatus(w, r, Waiting).(reg := AfterRegister(w.reg, w.calls[r].callId, w.calls[r].tool, r))
    case Answer(id, d) =>
      w.(reg := AfterTake(w.reg, id, d),
         grants := if id in w.reg.pending then w.grants + [Grant(id, w.reg.pending[id].request, d)] else w.grants)
    case Send(g) => w.(sends := w.sends + multiset{w.grants[g].request})
    case Receive(r) =>
      WithStatus(w, r, Leaving(DecisionFor(w.grants, r).value.approved)).(received := w.received + multiset{r})
    case GiveUp(r) => WithStatus(w, r, Leaving(false))
    case Finish(r) =>
      WithStatus(w, r, Finished(StatusOf(w, r).approved)).(reg := AfterDelete(w.reg, w.calls[r].callId))
  }

  ghost predicate IsRun(perms: map<string, Permission>, ws: seq<World>, steps: seq<Step>) {
    && |ws| == |steps| + 1
    && ws[0] == World(perms, Registry(map[], {}), [], [], multiset{}, multiset{})
    && forall i :: 0 <= i < |steps| ==> Enabled(ws[i], steps[i]) && ws[i + 1] == Next(ws[i], steps[i])
  }

  // ---------------------------------------------------------------------------------------
  // The invariant
  // ---------------------------------------------------------------------------------------

  /** A registration belongs to a registered request of that call id that has not been answered. */
  ghost predicate PendingSound(w: World) {
    forall id :: id in w.reg.pending ==>
      var p := w.reg.pending[id];
      && p.request < |w.calls|
      && w.calls[p.request].callId == id && w.calls[p.request].tool == p.tool
      && StatusOf(w, p.request) != Asking && StatusOf(w, p.request) != Passed
      && Takes(w.grants, p.request) == 0
  }

  ghost predicate GrantsSound(w: World) {
    && (forall g :: 0 <= g < |w.grants| ==>
          && w.grants[g].request < |w.calls| && w.calls[w.grants[g].request].callId == w.grants[g].callId
          && StatusOf(w, w.grants[g].request) != Asking && StatusOf(w, w.grants[g].request) != Passed)
    && (forall r: Request :: Takes(w.grants, r) <= 1)
  }

  ghost predicate ChannelsSound(w: World) {
    forall r: Request :: w.received[r] <= w.sends[r] <= Takes(w.grants, r)
  }

  /** An approval for this very request is on record. */
  ghost predicate ApprovalGiven(w: World, r: Request)
    requires r < |w.calls|
  {
    exists g :: 0 <= g < |w.grants| &&
      w.grants[g].request == r && w.grants[g].callId == w.calls[r].callId && w.grants[g].decision.approved
  }

  ghost predicate CallJustified(w: World, r: Request)
    requires r < |w.calls|
  {
    match StatusOf(w, r)
    case Passed =>
      !NeedsApproval(w.perms, w.calls[r].allowedThen, w.calls[r].tool, w.calls[r].mode).0
    case Leaving(true) => ApprovalGiven(w, r)
    case Finished(true) => ApprovalGiven(w, r)
    case _ => true
  }

  /** The tool was allowed for the session by an answer that approved and asked to remember. */
  ghost predicate Remembered(w: World, tool: string) {
    exists g :: 0 <= g < |w.grants| &&
      w.grants[g].decision.approved && w.grants[g].decision.remember &&
      w.grants[g].request < |w.calls| && w.calls[w.grants[g].request].tool == tool
  }

  ghost predicate AllowListSound(w: World) {
    && (forall t :: t in w.reg.allowed ==> Remembered(w, t))
    && (forall r :: 0 <= r < |w.calls| ==> w.calls[r].allowedThen <= w.reg.allowed)
  }

  ghost predicate Invariant(w: World) {
    && PendingSound(w) && GrantsSound(w) && ChannelsSound(w) && AllowListSound(w)
    && (forall r: Request :: r < |w.calls| ==> CallJustified(w, r))
  }

  lemma TakesSnoc(grants: seq<Grant>, g: Grant, r: Request)
    ensures Takes(grants + [g], r) == Takes(grants, r) + if g.request == r then 1 else 0
    ensures DecisionFor(grants + [g], r) == if g.request == r then Some(g.decision) else DecisionFor(grants, r)
  {
    assert (grants + [g])[..|grants|] == grants;
  }

  lemma {:induction false} DecisionIsGranted(grants: seq<Grant>, r: Request) returns (g: nat)
    requires DecisionFor(grants, r).Some?
    ensures g < |grants| && grants[g].request == r && grants[g].decision == DecisionFor(grants, r).value
  {
    if grants[|grants| - 1].request == r {
      g := |grants| - 1;
    } else {
      g := DecisionIsGranted(grants[..|grants| - 1], r);
    }
  }

  lemma GateKeepsInvariant(w: World, s: Step)
    requires Invariant(w) && Enabled(w, s) && s.Gate?
    ensures Invariant(Next(w, s))
  {
    hide NeedsApproval, Takes;
    var n := Next(w, s);
    forall r: Request | r < |n.calls|
      ensures CallJustified(n, r)
    {
      if r < |w.calls| { assert CallJustified(w, r); }
    }
    forall t | t in n.reg.allowed
      ensures Remembered(n, t)
    {
      assert Remembered(w, t);
    }
  }

  predicate MovesOn(s: Step) { s.Register? || s.GiveUp? || s.Finish? || s.Receive? }

  /** Steps that only move one request on: what was justified stays so. */
  lemma JustifiedAfterMove(w: World, s: Step)
    requires Invariant(w) && Enabled(w, s) && MovesOn(s)
    ensures forall r: Request :: r < |Next(w, s).calls| ==> CallJustified(Next(w, s), r)
    ensures AllowListSound(Next(w, s))
  {
    hide NeedsApproval, Takes, DecisionFor, PendingSound, GrantsSound, ChannelsSound;
    var n := Next(w, s);
    if s.Receive? {
      var g := DecisionIsGranted(w.grants, s.request);
      assert ApprovalGiven(n, s.request) || !w.grants[g].decision.approved by { assert GrantsSound(w); GrantOwnId(w, g); }
    }
    forall r: Request | r < |n.calls|
      ensures CallJustified(n, r)
    {
      assert CallJustified(w, r);
      if ApprovalGiven(w, r) {
        var g :| 0 <= g < |w.grants| && w.grants[g].request == r && w.grants[g].callId == w.calls[r].callId && w.grants[g].decision.approved;
        assert n.grants[g] == w.grants[g];
        assert ApprovalGiven(n, r);
      }
    }
    forall t | t in n.reg.allowed
      ensures Remembered(n, t)
    {
      assert Remembered(w, t);
    }
  }

  lemma GrantOwnId(w: World, g: nat)
    requires GrantsSound(w) && g < |w.grants|
    ensures w.grants[g].request < |w.calls| && w.calls[w.grants[g].request].callId == w.grants[g].callId
  {
  }

  lemma RegisterKeepsInvariant(w: World, s: Step)
    requires Invariant(w) && Enabled(w, s) && s.Register?
    ensures Invariant(Next(w, s))
  {
    hide NeedsApproval, Takes, CallJustified, AllowListSound;
    AskingUnanswered(w, s.request);
    JustifiedAfterMove(w, s);
  }

  lemma MoveKeepsInvariant(w: World, s: Step)
    requires Invariant(w) && Enabled(w, s) && (s.GiveUp? || s.Finish? || s.Receive?)
    ensures Invariant(Next(w, s))
  {
    hide NeedsApproval, Takes, DecisionFor, CallJustified, AllowListSound;
    JustifiedAfterMove(w, s);
  }

  lemma AskingUnanswered(w: World, r: Request)
    requires GrantsSound(w) && r < |w.calls| && StatusOf(w, r) == Asking
    ensures Takes(w.grants, r) == 0
  {
    hide StatusOf;
    if Takes(w.grants, r) > 0 {
      var g := TakenByGrant(w.grants, r);
      assert false;
    }
  }

  lemma {:induction false} TakenByGrant(grants: seq<Grant>, r: Request) returns (g: nat)
    requires Takes(grants, r) > 0
    ensures g < |grants| && grants[g].request == r
  {
    if grants[|grants| - 1].request == r {
      g := |grants| - 1;
    } else {
      g := TakenByGrant(grants[..|grants| - 1], r);
    }
  }

  lemma AnswerKeepsInvariant(w: World, s: Step)
    requires Invariant(w) && Enabled(w, s) && s.Answer?
    ensures Invariant(Next(w, s))
  {
    hide NeedsApproval, Takes;
    if s.callId in w.reg.pending {
      AnswerPending(w, s);
    } else {
      assert Next(w, s) == w;
    }
  }

  lemma AnswerPending(w: World, s: Step)
    requires Invariant(w) && Enabled(w, s) && s.Answer? && s.callId in w.reg.pending
    ensures Invariant(Next(w, s))
  {
    hide NeedsApproval, Takes, DecisionFor;
    var n := Next(w, s);
    var p := w.reg.pending[s.callId];
    var grant := Grant(s.callId, p.request, s.decision);
    assert n.grants == w.grants + [grant];
    forall r: Request
      ensures Takes(n.grants, r) == Takes(w.grants, r) + if p.request == r then 1 else 0
    {
      TakesSnoc(w.grants, grant, r);
    }
    forall r: Request | r < |n.calls|
      ensures CallJustified(n, r)
    {
      assert CallJustified(w, r);
      if ApprovalGiven(w, r) {
        var g :| 0 <= g < |w.grants| && w.grants[g].request == r && w.grants[g].callId == w.calls[r].callId && w.grants[g].decision.approved;
        assert n.grants[g] == w.grants[g];
      }
    }
    forall t | t in n.reg.allowed
      ensures Remembered(n, t)
    {
      if t in w.reg.allowed {
        assert Remembered(w, t);
        var g :| 0 <= g < |w.grants| && w.grants[g].decision.approved && w.grants[g].decision.remember &&
                 w.grants[g].request < |w.calls| && w.calls[w.grants[g].request].tool == t;
        assert n.grants[g] == w.grants[g];
      } else {
        assert n.grants[|w.grants|] == grant;
      }
    }
  }

  lemma SendKeepsInvariant(w: World, s: Step)
    requires Invariant(w) && Enabled(w, s) && s.Send?
    ensures Invariant(Next(w, s))
  {
    hide NeedsApproval, Takes, DecisionFor;
    var n := Next(w, s);
    forall r: Request | r < |n.calls|
      ensures CallJustified(n, r)
    {
      assert CallJustified(w, r);
      assert ApprovalGiven(w, r) == ApprovalGiven(n, r);
    }
    forall t | t in n.reg.allowed
      ensures Remembered(n, t)
    {
      assert Remembered(w, t);
    }
  }

  lemma NextKeepsInvariant(w: World, s: Step)
    requires Invariant(w) && Enabled(w, s)
    ensures Invariant(Next(w, s))
  {
    hide Invariant, Enabled, Next;
    match s
    case Gate(_, _, _) => GateKeepsInvariant(w, s);
    case Answer(_, _) => AnswerKeepsInvariant(w, s);
    case Send(_) => SendKeepsInvariant(w, s);
    case Register(_) => RegisterKeepsInvariant(w, s);
    case Receive(_) => MoveKeepsInvariant(w, s);
    case GiveUp(_) => MoveKeepsInvariant(w, s);
    case Finish(_) => MoveKeepsInvariant(w, s);
  }

  lemma {:induction false} RunKeepsInvariant(perms: map<string, Permission>, ws: seq<World>, steps: seq<Step>, i: nat)
    requires IsRun(perms, ws, steps) && i < |ws|
    ensures Invariant(ws[i])
  {
    hide Invariant, Next, Enabled;
    if i == 0 {
      StartInvariant(ws[0]);
    } else {
      RunKeepsInvariant(perms, ws, steps, i - 1);
      NextKeepsInvariant(ws[i - 1], steps[i - 1]);
    }
  }

  lemma StartInvariant(w: World)
    requires w == World(w.perms, Registry(map[], {}), [], [], multiset{}, multiset{})
    ensures Invariant(w)
  {
  }

  // ---------------------------------------------------------------------------------------
  // What every run guarantees
  // ---------------------------------------------------------------------------------------

  predicate Dispatched(w: World, r: Request)
    requires r < |w.calls|
  {
    StatusOf(w, r) == Passed || StatusOf(w, r) == Finished(true)
  }

  /** A call is dispatched only if mode and risk ask for no approval, its tool had been allowed for the
      session by an answer to that effect, or an approval for this very request was given. */
  lemma DispatchIsJustified(perms: map<string, Permission>, ws: seq<World>, steps: seq<Step>, i: nat, r: Request)
    requires IsRun(perms, ws, steps) && i < |ws| && r < |ws[i].calls| && Dispatched(ws[i], r)
    ensures var w, c := ws[i], ws[i].calls[r];
            || ApprovalGiven(w, r)
            || Remembered(w, c.tool)
            || !NeedsApproval(w.perms, {}, c.tool, c.mode).0
  {
    RunKeepsInvariant(perms, ws, steps, i);
    var w, c := ws[i], ws[i].calls[r];
    assert CallJustified(w, r);
    if StatusOf(w, r) == Passed && c.tool in c.allowedThen {
      assert c.tool in w.reg.allowed;
    }
  }

  /** The allow list contains only tools that some answer approved and asked to remember. */
  lemma AllowListOnlyRemembered(perms: map<string, Permission>, ws: seq<World>, steps: seq<Step>, i: nat, tool: string)
    requires IsRun(perms, ws, steps) && i < |ws| && tool in ws[i].reg.allowed
    ensures Remembered(ws[i], tool)
  {
    RunKeepsInvariant(perms, ws, steps, i);
  }

  /** Step by step: the allow list grows exactly when a pending request is approved with "remember". */
  lemma AllowListGrowsIff(w: World, s: Step, tool: string)
    requires Enabled(w, s) && tool !in w.reg.allowed
    ensures tool in Next(w, s).reg.allowed <==>
            s.Answer? && s.callId in w.reg.pending && w.reg.pending[s.callId].tool == tool
            && s.decision.approved && s.decision.remember
  {
  }

  /** Each request is handed at most one decision, and the send of it finds an empty channel. */
  lemma OneDecisionAndNoBlocking(perms: map<string, Permission>, ws: seq<World>, steps: seq<Step>, i: nat)
    requires IsRun(perms, ws, steps) && i < |ws|
    ensures forall r: Request :: Takes(ws[i].grants, r) <= 1
    ensures forall g: nat :: Enabled(ws[i], Send(g)) ==> ws[i].sends[ws[i].grants[g].request] == 0
  {
    RunKeepsInvariant(perms, ws, steps, i);
  }

  // ---------------------------------------------------------------------------------------
  // Call ids
  // ---------------------------------------------------------------------------------------

  predicate DistinctIds(calls: seq<Entry>) {
    forall i, j :: 0 <= i < j < |calls| ==> calls[i].callId != calls[j].callId
  }

  /** Every waiting request that has not been answered can still be answered. */
  ghost predicate Reachable(w: World) {
    forall r: Request :: r < |w.calls| && StatusOf(w, r) == Waiting && Takes(w.grants, r) == 0 ==>
      w.calls[r].callId in w.reg.pending && w.reg.pending[w.calls[r].callId].request == r
  }

  lemma NextKeepsReachable(w: World, s: Step)
    requires Invariant(w) && Reachable(w) && Enabled(w, s) && DistinctIds(Next(w, s).calls)
    ensures Reachable(Next(w, s))
  {
    hide NeedsApproval, DecisionFor, Takes, ChannelsSound, AllowListSound, CallJustified;
    var n := Next(w, s);
    forall r: Request | r < |n.calls| && StatusOf(n, r) == Waiting && Takes(n.grants, r) == 0
      ensures n.calls[r].callId in n.reg.pending && n.reg.pending[n.calls[r].callId].request == r
    {
      if s.Answer? && s.callId in w.reg.pending {
        TakesSnoc(w.grants, Grant(s.callId, w.reg.pending[s.callId].request, s.decision), r);
      }
      if r < |w.calls| && !(s.Register? && s.request == r) {
        assert StatusOf(w, r) == Waiting;
        assert (s.Register? || s.Finish?) ==> n.calls[s.request].callId != n.calls[r].callId;
      }
    }
  }

  ghost predicate Answerable(w: World, r: Request)
    requires r < |w.calls|
  {
    w.calls[r].callId in w.reg.pending && w.reg.pending[w.calls[r].callId].request == r
  }

  predicate Open(w: World, r: Request)
    requires r < |w.calls|
  {
    StatusOf(w, r) == Waiting && Takes(w.grants, r) == 0
  }

  /** Another request under the same id registers, or takes the registration with it when it ends. */
  predicate Disturbs(w: World, s: Step, r: Request)
    requires r < |w.calls|
  {
    && (s.Register? || s.Finish?) && s.request != r
    && s.request < |w.calls| && w.calls[s.request].callId == w.calls[r].callId
  }

  lemma StepDisturbs(w: World, s: Step, r: Request)
    requires Enabled(w, s) && r < |w.calls| && StatusOf(w, r) != Asking && StatusOf(w, r) != Passed
    ensures var n := Next(w, s);
            && r < |n.calls| && StatusOf(n, r) != Asking && StatusOf(n, r) != Passed
            && (Open(n, r) ==> Open(w, r) && (Answerable(n, r) <==> Answerable(w, r) && !Disturbs(w, s, r)))
  {
    hide NeedsApproval, DecisionFor, Takes;
    if s.Answer? && s.callId in w.reg.pending {
      TakesSnoc(w.grants, Grant(s.callId, w.reg.pending[s.callId].request, s.decision), r);
    }
  }

  /**
    A request that waits unanswered can still be answered exactly when, since it registered, no other
    request under the same id has registered or ended.
   */
  lemma {:induction false} AnswerableIff(perms: map<string, Permission>, ws: seq<World>, steps: seq<Step>,
                                         k: nat, i: nat, r: Request)
    requires IsRun(perms, ws, steps) && k < i < |ws| && steps[k] == Register(r)
    ensures r < |ws[i].calls| && StatusOf(ws[i], r) != Asking && StatusOf(ws[i], r) != Passed
    ensures forall j :: k < j < i ==> r < |ws[j].calls|
    ensures Open(ws[i], r) ==>
              (Answerable(ws[i], r) <==> forall j :: k < j < i ==> !Disturbs(ws[j], steps[j], r))
    decreases i
  {
    hide Enabled, Next, Open, Answerable, Disturbs;
    assert Enabled(ws[i - 1], steps[i - 1]) && ws[i] == Next(ws[i - 1], steps[i - 1]);
    if i == k + 1 {
      JustRegistered(ws[k], r);
    } else {
      AnswerableIff(perms, ws, steps, k, i - 1, r);
      StepDisturbs(ws[i - 1], steps[i - 1], r);
    }
  }

  lemma JustRegistered(w: World, r: Request)
    requires Enabled(w, Register(r))
    ensures var n := Next(w, Register(r)); r < |n.calls| && StatusOf(n, r) == Waiting && Answerable(n, r)
  {
  }

  /** In particular distinct call ids keep every open request answerable until it is answered or given up. */
  lemma {:induction false} OpenRequestsAnswerable(perms: map<string, Permission>, ws: seq<World>, steps: seq<Step>, i: nat)
    requires IsRun(perms, ws, steps) && i < |ws| && DistinctIds(ws[i].calls)
    ensures Reachable(ws[i])
  {
    hide Next, Enabled, Invariant;
    if i == 0 {
    } else {
      CallsGrow(ws[i - 1], steps[i - 1]);
      OpenRequestsAnswerable(perms, ws, steps, i - 1);
      RunKeepsInvariant(perms, ws, steps, i - 1);
      NextKeepsReachable(ws[i - 1], steps[i - 1]);
    }
  }

  lemma CallsGrow(w: World, s: Step)
    requires Enabled(w, s) && DistinctIds(Next(w, s).calls)
    ensures DistinctIds(w.calls)
  {
    var n := Next(w, s);
    assert forall i :: 0 <= i < |w.calls| ==> n.calls[i].callId == w.calls[i].callId;
  }

  /** With a repeated id the first request can no longer be answered once the second has registered. */
  lemma RepeatedIdHidesFirst(perms: map<string, Permission>, id: string)
    requires "write_file" in perms && perms["write_file"] == Permission(true, true)
    ensures var w0 := World(perms, Registry(map[], {}), [], [], multiset{}, multiset{});
            var call := Gate(id, "write_file", "auto");
            var w := Next(Next(Next(Next(w0, call), call), Register(0)), Register(1));
            StatusOf(w, 0) == Waiting && Takes(w.grants, 0) == 0 && w.reg.pending[id].request == 1
  {
  }
}
