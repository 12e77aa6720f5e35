/**
  The approval gate for tool calls: deciding whether a call needs an answer, and the registry through
  which answers reach waiting calls.  Each request has its own one-place channel, known by a number.
 */
module ToolApproval {
  import opened Options

  datatype Risk = Safe | Write | Unknown | AllTools

  datatype Permission = Permission(write: bool, known: bool)

  type Request = nat

  datatype Pending = Pending(tool: string, request: Request)

  datatype Decision = Decision(approved: bool, remember: bool)

  // ---------------------------------------------------------------------------------------
  // Does a call need approval?
  // ---------------------------------------------------------------------------------------

  function PermissionFor(perms: map<string, Permission>, name: string): Permission {
    if name in perms then perms[name] else Permission(false, false)
  }

  function ClassifyRisk(perms: map<string, Permission>, name: string): Risk {
    if name == "search" then Safe
    else if !PermissionFor(perms, name).known then Unknown
    else if PermissionFor(perms, name).write then Write
    else Safe
  }

  function NeedsApproval(perms: map<string, Permission>, allowed: set<string>, name: string, mode: string): (bool, Risk) {
    var risk := ClassifyRisk(perms, name);
    if name in allowed then (false, risk)
    else if mode == "never" then (false, risk)
    else if mode == "always" then (true, AllTools)
    else (risk != Safe, risk)
  }

  /** In the default mode only calls known to be read-only pass unasked; strictness grows with the mode. */
  lemma NeedsApprovalMeaning(perms: map<string, Permission>, allowed: set<string>, name: string, mode: string)
    ensures !NeedsApproval(perms, allowed, name, mode).0 <==>
            || name in allowed
            || mode == "never"
            || (mode != "always" && (name == "search" || (name in perms && perms[name].known && !perms[name].write)))
    ensures NeedsApproval(perms, allowed, name, mode).1 ==
            if name !in allowed && mode == "always" then AllTools
            else if name == "search" || (name in perms && perms[name].known && !perms[name].write) then Safe
            else if name in perms && perms[name].known then Write
            else Unknown
  {
  }

  // ---------------------------------------------------------------------------------------
  // The registry and its lock sections
  // ---------------------------------------------------------------------------------------

  datatype Registry = Registry(pending: map<string, Pending>, allowed: set<string>)

  function AfterRegister(r: Registry, callId: string, tool: string, request: Request): Registry {
    r.(pending := r.pending[callId := Pending(tool, request)])
  }

  function AfterTake(r: Registry, callId: string, d: Decision): Registry {
    if callId !in r.pending then r
    else Registry(r.pending - {callId},
                  if d.approved && d.remember then r.allowed + {r.pending[callId].tool} else r.allowed)
  }

  function AfterDelete(r: Registry, callId: string): Registry { r.(pending := r.pending - {callId}) }

  class Service {
    var toolPerms: map<string, Permission>
    var pendingApprovals: map<string, Pending>
    var sessionAllowedTools: set<string>
    var requests: nat

    ghost function State(): Registry
      reads this
    {
      Registry(pendingApprovals, sessionAllowedTools)
    }

    constructor (perms: map<string, Permission>)
      ensures State() == Registry(map[], {}) && toolPerms == perms && requests == 0
    {
      toolPerms, pendingApprovals, sessionAllowedTools, requests := perms, map[], {}, 0;
    }

    method ToolNeedsApproval(name: string, mode: string) returns (need: bool, risk: Risk)
      ensures (need, risk) == NeedsApproval(toolPerms, sessionAllowedTools, name, mode)
    {
      risk := ClassifyRisk(toolPerms, name);
      if name in sessionAllowedTools { return false, risk; }
      if mode == "never" { return false, risk; }
      if mode == "always" { return true, AllTools; }
      return risk != Safe, risk;
    }

    /** First lock section of `requestToolApproval`: a fresh channel under the call's id. */
    method Register(callId: string, tool: string) returns (request: Request)
      modifies this
      ensures request == old(requests) && requests == old(requests) + 1 && toolPerms == old(toolPerms)
      ensures State() == AfterRegister(old(State()), callId, tool, request)
    {
      request := requests;
      requests := requests + 1;
      pendingApprovals := pendingApprovals[callId := Pending(tool, request)];
    }

    /** Lock section of `ResolveToolApproval`: whom the decision is for, if anyone still waits. */
    method Take(callId: string, d: Decision) returns (target: Option<Request>)
      modifies `pendingApprovals, `sessionAllowedTools
      ensures target == if callId in old(pendingApprovals) then Some(old(pendingApprovals)[callId].request) else None
      ensures State() == AfterTake(old(State()), callId, d)
    {
      if callId !in pendingApprovals { return None; }
      var pending := pendingApprovals[callId];
      pendingApprovals := pendingApprovals - {callId};
      if d.approved && d.remember {
        sessionAllowedTools := sessionAllowedTools + {pending.tool};
      }
      return Some(pending.request);
    }

    /** Deferred lock section of `requestToolApproval`. */
    method Delete(callId: string)
      modifies `pendingApprovals
      ensures State() == AfterDelete(old(State()), callId)
    {
      pendingApprovals := pendingApprovals - {callId};
    }
  }

  // ---------------------------------------------------------------------------------------
  // Executing the calls of one round
  // ---------------------------------------------------------------------------------------

  datatype Call = Call(id: string, name: string, arguments: string)

  /** A slot of the result slice; the zero value stands for a call to an unknown tool. */
  datatype CallResult = Empty | Denied(call: Call, reason: string) | Executed(call: Call, content: string)

  /** What gate and tool answer for the call at a position; `denied` holds the reason, if any. */
  datatype Answer = Answer(known: bool, denied: Option<string>, content: string)

  /** Nothing for an unknown tool, the refusal for a denied call, and otherwise the call's own content. */
  predicate BelongsTo(r: CallResult, call: Call, a: Answer) {
    && (!a.known ==> r == Empty)
    && (a.known && a.denied.Some? ==> r == Denied(call, a.denied.value))
    && (a.known && a.denied.None? ==> r == Executed(call, a.content))
  }

  /**
    Calls are gated in order and executed concurrently; `early` decides at each turn whether a running
    call finishes before the next one is gated.  Whatever it decides, result i belongs to call i.
   */
  method ExecuteToolCallsConcurrently(calls: seq<Call>, answers: seq<Answer>, early: (int, set<int>) -> bool)
    returns (results: array<CallResult>)
    requires |answers| == |calls|
    ensures fresh(results) && results.Length == |calls|
    ensures forall i :: 0 <= i < |calls| ==> BelongsTo(results[i], calls[i], answers[i])
  {
    results := new CallResult[|calls|](_ => Empty);
    var idx: int, running: set<int> := 0, {};
    while idx < |calls| || running != {}
      invariant 0 <= idx <= |calls|
      invariant forall i :: i in running ==> 0 <= i < idx && answers[i].known && answers[i].denied.None?
      invariant forall i :: 0 <= i < idx && i !in running ==> BelongsTo(results[i], calls[i], answers[i])
      invariant forall i :: idx <= i < |calls| ==> results[i] == Empty
      decreases 2 * (|calls| - idx) + |running|
    {
      if running != {} && (idx == |calls| || early(idx, running)) {
        var k := AnyOf(running);
        results[k] := Executed(calls[k], answers[k].content);
        running := running - {k};
      } else {
        var a := answers[idx];
        if !a.known {
          idx := idx + 1;
          continue;
        }
        if a.denied.Some? {
          results[idx] := Denied(calls[idx], a.denied.value);
          idx := idx + 1;
          continue;
        }
        running := running + {idx};
        idx := idx + 1;
      }
    }
  }
}
