/**
  Switching the model: the session that one caller at a time may own, the steps the owner takes, and
  every interleaving of any number of callers.
 */
module ModelSwitch {
  import opened Options

  // ---------------------------------------------------------------------------------------
  // The session
  // ---------------------------------------------------------------------------------------

  datatype Snapshot = Snapshot(currentModel: string, switching: bool, switchingTo: string)

  class Session {
    var currentModel: string
    var switching: bool
    var switchingTo: string

    ghost function View(): Snapshot
      reads this
    {
      Snapshot(currentModel, switching, switchingTo)
    }

    constructor ()
      ensures View() == Snapshot("", false, "")
    {
      currentModel, switching, switchingTo := "", false, "";
    }

    method SetCurrentModel(model: string)
      modifies this
      ensures View() == old(View()).(currentModel := model)
    {
      currentModel := model;
    }

    /** Reserves the session, or changes nothing. */
    method BeginSwitch(target: string) returns (ok: bool)
      modifies this
      ensures ok == !old(switching)
      ensures View() == if ok then old(View()).(switching := true, switchingTo := target) else old(View())
    {
      if switching { return false; }
      switching := true;
      switchingTo := target;
      return true;
    }

    method ClearTarget()
      modifies this
      ensures View() == old(View()).(switchingTo := "")
    {
      switchingTo := "";
    }

    method EndSwitch()
      modifies this
      ensures View() == old(View()).(switching := false, switchingTo := "")
    {
      switching := false;
      switchingTo := "";
    }

    method TakeSnapshot() returns (s: Snapshot)
      ensures s == View()
    {
      s := Snapshot(currentModel, switching, switchingTo);
    }
  }

  // ---------------------------------------------------------------------------------------
  // The steps of a switch
  // ---------------------------------------------------------------------------------------

  /** The session together with the flags the switch maintains beside it. */
  datatype Shared = Shared(session: Snapshot, ready: bool, loadFailed: bool, lastError: string)

  /** One atomic write of the owner. */
  datatype Action =
    | SetModel(model: string)
    | HideTarget
    | SetReady
    | SetError(msg: string)
    | SetFailed(failed: bool)
    | Release

  function Apply(sh: Shared, a: Action): Shared {
    match a
    case SetModel(m) => sh.(session := sh.session.(currentModel := m))
    case HideTarget => sh.(session := sh.session.(switchingTo := ""))
    case SetReady => sh.(ready := true)
    case SetError(e) => sh.(lastError := e)
    case SetFailed(f) => sh.(loadFailed := f)
    case Release => sh.(session := sh.session.(switching := false, switchingTo := ""))
  }

  function ApplyAll(sh: Shared, todo: seq<Action>): Shared
    decreases |todo|
  {
    if todo == [] then sh else ApplyAll(Apply(sh, todo[0]), todo[1..])
  }

  // ---------------------------------------------------------------------------------------
  // The model server
  // ---------------------------------------------------------------------------------------

  /** What a load reports: whether the model was up already, and an error or "". */
  datatype LoadAnswer = LoadAnswer(alreadyRunning: bool, error: string)

  /** A call made to the server, with its answer. */
  datatype Call =
    | Load(answer: LoadAnswer)
    | Reload(ok: bool)          // the preset without its multimodal projector
    | WaitReady(error: string)
    | Restore(ok: bool)         // loading the previous model again

  /** The server's answers: the n-th load and the n-th wait, the reload and the restoring load. */
  datatype Script = Script(loads: nat -> LoadAnswer, reload: bool, waits: nat -> string, restored: bool)

  class Host {
    const script: Script
    var calls: seq<Call>
    var loads: nat
    var waits: nat

    constructor (script: Script)
      ensures this.script == script && calls == [] && loads == 0 && waits == 0
    {
      this.script, calls, loads, waits := script, [], 0, 0;
    }

    method LoadModel() returns (answer: LoadAnswer)
      modifies this
      ensures answer == script.loads(old(loads)) && calls == old(calls) + [Load(answer)]
      ensures loads == old(loads) + 1 && waits == old(waits)
    {
      answer := script.loads(loads);
      calls, loads := calls + [Load(answer)], loads + 1;
    }

    method ReloadPreset() returns (ok: bool)
      modifies this
      ensures ok == script.reload && calls == old(calls) + [Reload(ok)]
      ensures loads == old(loads) && waits == old(waits)
    {
      ok := script.reload;
      calls := calls + [Reload(ok)];
    }

    method WaitUntilReady() returns (error: string)
      modifies this
      ensures error == script.waits(old(waits)) && calls == old(calls) + [WaitReady(error)]
      ensures loads == old(loads) && waits == old(waits) + 1
    {
      error := script.waits(waits);
      calls, waits := calls + [WaitReady(error)], waits + 1;
    }

    method RestoreModel() returns (ok: bool)
      modifies this
      ensures ok == script.restored && calls == old(calls) + [Restore(ok)]
      ensures loads == old(loads) && waits == old(waits)
    {
      ok := script.restored;
      calls := calls + [Restore(ok)];
    }
  }

  /** The error of the last load or wait that was made. */
  function LastError(calls: seq<Call>): string {
    if calls == [] then ""
    else
      match calls[|calls| - 1]
      case Load(a) => a.error
      case WaitReady(e) => e
      case _ => LastError(calls[..|calls| - 1])
  }

  /**
    How a load goes: a load without error is followed by a wait unless the model was running already; after
    a load with an error the preset is reloaded, and a second load is made exactly when that worked.
   */
  predicate LoadProtocol(calls: seq<Call>) {
    && calls != [] && calls[0].Load?
    && if calls[0].answer.error == "" then Settled(calls)
       else
         && |calls| > 1 && calls[1].Reload?
         && (!calls[1].ok ==> |calls| == 2)
         && (calls[1].ok ==>
               && |calls| > 2 && calls[2].Load?
               && if calls[2].answer.error == "" then Settled(calls[2..]) else |calls| == 3)
  }

  predicate Settled(calls: seq<Call>)
    requires calls != [] && calls[0].Load?
  {
    if calls[0].answer.alreadyRunning then |calls| == 1 else |calls| == 2 && calls[1].WaitReady?
  }

  /** The target is up: the last load reported no error, and the model was running already or came up in time. */
  predicate TargetUp(calls: seq<Call>) {
    exists i :: 0 <= i < |calls| && IsLastLoad(calls, i) && calls[i].answer.error == "" &&
      (calls[i].answer.alreadyRunning || (i + 1 < |calls| && calls[i + 1] == WaitReady("")))
  }

  predicate IsLastLoad(calls: seq<Call>, i: nat)
    requires i < |calls|
  {
    calls[i].Load? && forall j :: i < j < |calls| ==> !calls[j].Load?
  }

  /** Under the protocol the last error is empty exactly when the target is up. */
  lemma NoErrorIffUp(calls: seq<Call>)
    requires LoadProtocol(calls)
    ensures LastError(calls) == "" <==> TargetUp(calls)
  {
    var n := |calls|;
    if calls[0].answer.error == "" {
      assert IsLastLoad(calls, 0);
      if n == 2 { assert calls[1].WaitReady?; }
    } else if n == 2 {
      assert calls[..1][0] == calls[0];
      assert IsLastLoad(calls, 0);
    } else {
      assert IsLastLoad(calls, 2);
      if n == 4 { assert calls[2..][1] == calls[3]; }
    }
  }

  datatype Outcome = Switched(target: string) | RolledBack | Lost(error: string)

  const RESTORE_FAILED := "，恢复旧模型也失败"

  predicate CanRestore(target: string, previous: string) { previous != "" && previous != target }

  function Decide(target: string, previous: string, err: string, restored: bool): Outcome {
    if err == "" then Switched(target)
    else if !CanRestore(target, previous) then Lost(err)
    else if restored then RolledBack
    else Lost(err + RESTORE_FAILED)
  }

  /** What is left to do once the load has been decided. */
  function Plan(o: Outcome, previous: string): seq<Action> {
    match o
    case Switched(t) => [SetModel(t), SetError(""), SetFailed(false), SetReady, Release]
    case RolledBack => [HideTarget, SetModel(previous), SetReady, Release]
    case Lost(e) => [HideTarget, SetError(e), SetFailed(true), Release]
  }

  /** The effect of one whole switch on an idle system. */
  function After(sh: Shared, o: Outcome): Shared {
    match o
    case Switched(t) => Shared(Snapshot(t, false, ""), true, false, "")
    case RolledBack => sh.(ready := true)
    case Lost(e) => sh.(ready := false, loadFailed := true, lastError := e)
  }

  /** The host object, run by one caller without interference. */
  class App {
    const session: Session
    var serverUp: bool
    var serverReady: bool
    var serverLoadFailed: bool
    var lastServerError: string

    ghost function View(): Shared
      reads this, session
    {
      Shared(session.View(), serverReady, serverLoadFailed, lastServerError)
    }

    constructor (serverUp: bool)
      ensures fresh(session) && this.serverUp == serverUp
      ensures View() == Shared(Snapshot("", false, ""), false, false, "")
    {
      session := new Session();
      this.serverUp, serverReady, serverLoadFailed, lastServerError := serverUp, false, false, "";
    }

    method EmitErrorStatus(msg: string)
      modifies this
      ensures View() == old(View()).(lastError := msg, loadFailed := true) && serverUp == old(serverUp)
    {
      lastServerError := msg;
      serverLoadFailed := true;
    }

    method ClearServerLoadFailure()
      modifies this
      ensures View() == old(View()).(lastError := "", loadFailed := false) && serverUp == old(serverUp)
    {
      lastServerError := "";
      serverLoadFailed := false;
    }

    method SwitchPreCheck(target: string) returns (ok: bool)
      modifies session
      ensures ok <==> serverUp && !old(session.switching)
      ensures View() == if ok then old(View()).(session := old(session.View()).(switching := true, switchingTo := target))
                        else old(View())
    {
      if !serverUp { return false; }
      ok := session.BeginSwitch(target);
    }

    method SwitchPrepare(target: string) returns (previous: string)
      modifies this
      ensures previous == session.currentModel
      ensures View() == old(View()).(ready := false) && serverUp == old(serverUp)
    {
      previous := session.currentModel;
      serverReady := false;
    }

    method SwitchFinalize(target: string)
      modifies this, session
      ensures View() == Shared(Snapshot(target, false, ""), true, false, "")
    {
      session.SetCurrentModel(target);
      ClearServerLoadFailure();
      serverReady := true;
      session.EndSwitch();
    }

    /** Loading the target, with the text-only retry; the calls made are on the host's record. */
    method LoadTarget(host: Host) returns (err: string, ghost made: seq<Call>)
      requires host.loads == 0 && host.waits == 0
      modifies host
      ensures host.calls == old(host.calls) + made
      ensures LoadProtocol(made) && err == LastError(made)
    {
      ghost var before := host.calls;
      var first := host.LoadModel();
      made := [Load(first)];
      if first.error != "" {
        var reloaded := host.ReloadPreset();
        made := [Load(first), Reload(reloaded)];
        assert made[..1] == [Load(first)];
        if !reloaded { return first.error, made; }
        var second := host.LoadModel();
        made := [Load(first), Reload(true), Load(second)];
        if second.error != "" { return second.error, made; }
        assert made[2..] == [Load(second)];
        if second.alreadyRunning { return "", made; }
        err := host.WaitUntilReady();
        made := [Load(first), Reload(true), Load(second), WaitReady(err)];
        assert made[2..] == [Load(second), WaitReady(err)];
        return;
      }
      if first.alreadyRunning { return "", made; }
      err := host.WaitUntilReady();
      made := [Load(first), WaitReady(err)];
    }

    method HandleSwitchFailure(host: Host, target: string, previous: string, err: string) returns (rolledBack: bool)
      modifies this, session, host
      ensures rolledBack <==> previous != "" && previous != target && host.script.restored
      ensures host.calls == old(host.calls) + if previous != "" && previous != target then [Restore(host.script.restored)] else []
      ensures View().session == Snapshot(if rolledBack then previous else old(session.currentModel), false, "")
      ensures rolledBack ==> serverReady && serverLoadFailed == old(serverLoadFailed) && lastServerError == old(lastServerError)
      ensures !rolledBack ==> serverReady == old(serverReady) && serverLoadFailed &&
                              lastServerError == if previous != "" && previous != target then err + RESTORE_FAILED else err
    {
      session.ClearTarget();
      rolledBack := false;
      if previous != "" && previous != target {
        var restored := host.RestoreModel();
        if restored {
          session.SetCurrentModel(previous);
          serverReady := true;
          rolledBack := true;
        } else {
          EmitErrorStatus(err + RESTORE_FAILED);
        }
      } else {
        assert host.calls + [] == host.calls;
        EmitErrorStatus(err);
      }
      session.EndSwitch();
    }

    /** The owner's part of a switch, up to the release of the session. */
    method CompleteSwitch(host: Host, target: string, previous: string) returns (outcome: Outcome, ghost made: seq<Call>)
      requires host.loads == 0 && host.waits == 0 && host.calls == []
      requires previous == session.currentModel
      modifies this, session, host
      ensures LoadProtocol(made)
      ensures outcome == Decide(target, previous, LastError(made), host.script.restored)
      ensures View() == match outcome
                        case Switched(_) => Shared(Snapshot(target, false, ""), true, false, "")
                        case RolledBack => Shared(Snapshot(previous, false, ""), true, old(serverLoadFailed), old(lastServerError))
                        case Lost(e) => Shared(Snapshot(previous, false, ""), old(serverReady), true, e)
      ensures host.calls == made + if LastError(made) != "" && previous != "" && previous != target
                                   then [Restore(host.script.restored)] else []
    {
      var err;
      err, made := LoadTarget(host);
      assert [] + made == made && made + [] == made;
      if err == "" {
        SwitchFinalize(target);
        return Switched(target), made;
      }
      var rolledBack := HandleSwitchFailure(host, target, previous, err);
      outcome := if rolledBack then RolledBack else Lost(lastServerError);
    }

    /**
      A whole switch: refused without effect and without a call, or exactly one of the three outcomes.
      `made` are the calls of the load; they decide between success and failure.
     */
    method SwitchModel(host: Host, target: string) returns (done: Option<Outcome>, ghost made: seq<Call>)
      requires host.loads == 0 && host.waits == 0 && host.calls == []
      modifies this, session, host
      ensures done.None? <==> !old(serverUp) || old(session.switching)
      ensures done.None? ==> View() == old(View()) && host.calls == []
      ensures done.Some? ==>
                && LoadProtocol(made)
                && (done.value == Switched(target) <==> TargetUp(made))
                && (done.value == RolledBack <==>
                      && !TargetUp(made) && old(session.currentModel) != "" && old(session.currentModel) != target
                      && host.script.restored)
                && host.calls == made + if !TargetUp(made) && old(session.currentModel) != "" && old(session.currentModel) != target
                                        then [Restore(host.script.restored)] else []
      ensures done.Some? && done.value.Lost? ==>
                done.value.error == LastError(made) +
                  if old(session.currentModel) != "" && old(session.currentModel) != target then RESTORE_FAILED else ""
      ensures done.Some? ==>
                View() == match done.value
                          case Switched(_) => Shared(Snapshot(target, false, ""), true, false, "")
                          case RolledBack =>
                            Shared(Snapshot(old(session.currentModel), false, ""), true, old(serverLoadFailed), old(lastServerError))
                          case Lost(e) => Shared(Snapshot(old(session.currentModel), false, ""), false, true, e)
    {
      made := [];
      var ok := SwitchPreCheck(target);
      if !ok { return None, made; }
      var previous := SwitchPrepare(target);
      hide LoadProtocol, TargetUp, LastError;
      var outcome;
      outcome, made := CompleteSwitch(host, target, previous);
      NoErrorIffUp(made);
      assert LastError(made) + "" == LastError(made);
      done := Some(outcome);
    }
  }

  /** The outcome of a switch and the state it leaves, as the interleavings below use them. */
  lemma AfterMeaning(sh: Shared, o: Outcome)
    requires !sh.session.switching && sh.session.switchingTo == ""
    ensures After(sh, o) == match o
                            case Switched(t) => Shared(Snapshot(t, false, ""), true, false, "")
                            case RolledBack => Shared(Snapshot(sh.session.currentModel, false, ""), true, sh.loadFailed, sh.lastError)
                            case Lost(e) => Shared(Snapshot(sh.session.currentModel, false, ""), false, true, e)
  {
  }
}
