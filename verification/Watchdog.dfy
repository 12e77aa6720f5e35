/**
  The crash watchdog.  One `Poll` holds everything a turn of its loop learns from outside; a run is
  any sequence of polls.  Durations are milliseconds.
 */
module Watchdog {
  import opened Numbers

  const MAX_BACKOFF := 60_000
  const DEFAULT_BACKOFF := 2_000
  const FAST_RESTART := 1_000
  const EARLY_CRASH := 120_000
  const DEFAULT_ATTEMPTS := 10

  datatype Readiness = Ready | NotReady | ContextGone

  datatype Poll = Poll(
    ctxDone: bool,             // cancelled before this turn
    running: bool,
    ranForSpec: int,           // running time read for the speculative-decoding check
    ranForDegrade: int,        // running time read for the degrade chain
    oom: bool,
    cancelledWaiting: bool,
    startOk: bool,
    ready: Readiness,
    cancelledAfter: bool)

  /** What happened, in order. */
  datatype Event = Attempt(wait: int, fast: bool) | Restarted | GaveUp

  datatype Config = Config(initialBackoff: int, maxAttempts: int, specType: string)

  function InitialBackoff(cfg: Config): int { if cfg.initialBackoff == 0 then DEFAULT_BACKOFF else cfg.initialBackoff }

  function MaxAttempts(cfg: Config): (n: int)
    ensures n >= 1
  {
    if cfg.maxAttempts <= 0 then DEFAULT_ATTEMPTS else cfg.maxAttempts
  }

  /** The watchdog's variables; `active` turns false when the loop has returned. */
  datatype State = State(
    active: bool,
    restartCount: nat,
    backoff: int,
    level: int,
    specOff: bool,
    permanent: bool,
    log: seq<Event>)

  function Start(cfg: Config, level: int, specOff: bool, permanent: bool): State {
    State(true, 0, InitialBackoff(cfg), level, specOff, permanent, [])
  }

  // ---------------------------------------------------------------------------------------
  // One turn
  // ---------------------------------------------------------------------------------------

  predicate DisablesSpec(cfg: Config, s: State, p: Poll) {
    !s.specOff && cfg.specType != "" && p.ranForSpec < EARLY_CRASH
  }

  /** The degrade chain: out of memory jumps to level 2, other early crashes climb one level. */
  function NextLevel(s: State, p: Poll): int {
    if p.ranForDegrade >= EARLY_CRASH then s.level
    else if s.level < 2 && p.oom then 2
    else if s.level < 1 && !p.oom then 1
    else if s.level < 2 && !p.oom then 2
    else s.level
  }

  /** A crash was seen and an attempt is due: the state with the attempt on record. */
  function Crashed(cfg: Config, s: State, p: Poll): State {
    var fast := DisablesSpec(cfg, s, p) || NextLevel(s, p) != s.level;
    s.(restartCount := s.restartCount + 1,
       backoff := Min(s.backoff * 2, MAX_BACKOFF),
       specOff := s.specOff || DisablesSpec(cfg, s, p),
       level := NextLevel(s, p),
       log := s.log + [Attempt(if fast then FAST_RESTART else s.backoff, fast)])
  }

  function Recovered(cfg: Config, s: State): State {
    s.(restartCount := 0, backoff := InitialBackoff(cfg), level := if s.level > 0 then 0 else s.level,
       log := s.log + [Restarted])
  }

  function Pause(s: State, p: Poll): State { if p.cancelledAfter then s.(active := false) else s }

  function Turn(cfg: Config, s: State, p: Poll): State {
    if !s.active then s
    else if p.ctxDone then s.(active := false)
    else if p.running then Pause(s, p)
    else if s.restartCount >= MaxAttempts(cfg) then s.(active := false, permanent := true, log := s.log + [GaveUp])
    else
      var c := Crashed(cfg, s, p);
      if p.cancelledWaiting then c.(active := false)
      else if !p.startOk then c
      else match p.ready
        case ContextGone => c.(active := false)
        case NotReady => c
        case Ready => Pause(Recovered(cfg, c), p)
  }

  function Run(cfg: Config, s: State, polls: seq<Poll>): State {
    if polls == [] then s else Turn(cfg, Run(cfg, s, polls[..|polls| - 1]), polls[|polls| - 1])
  }

  // ---------------------------------------------------------------------------------------
  // The loop
  // ---------------------------------------------------------------------------------------

  class Server {
    const config: Config
    var permanentFailure: bool
    var mtpFallbackDisabled: bool
    var crashDegradeLevel: int

    constructor (config: Config)
      ensures this.config == config && !permanentFailure && !mtpFallbackDisabled && crashDegradeLevel == 0
    {
      this.config, permanentFailure, mtpFallbackDisabled, crashDegradeLevel := config, false, false, 0;
    }

    function IsPermanentFailure(): bool
      reads this
    {
      permanentFailure
    }

    function GetSpecType(): string
      reads this
    {
      if mtpFallbackDisabled then "" else config.specType
    }

    /** The two fallbacks for an early crash, and the wait they leave before the restart. */
    method Degrade(p: Poll, currentBackoff: int, ghost s: State) returns (backoff: int, fast: bool)
      requires s.specOff == mtpFallbackDisabled && s.level == crashDegradeLevel && s.backoff == currentBackoff
      modifies `mtpFallbackDisabled, `crashDegradeLevel
      ensures Crashed(config, s, p) ==
              s.(restartCount := s.restartCount + 1, backoff := Min(s.backoff * 2, MAX_BACKOFF),
                 specOff := mtpFallbackDisabled, level := crashDegradeLevel,
                 log := s.log + [Attempt(backoff, fast)])
    {
      backoff, fast := currentBackoff, false;
      if !mtpFallbackDisabled && config.specType != "" {
        if p.ranForSpec < EARLY_CRASH {
          mtpFallbackDisabled := true;
          backoff, fast := FAST_RESTART, true;
        }
      }
      var currentLevel := crashDegradeLevel;
      if p.ranForDegrade < EARLY_CRASH {
        if currentLevel < 2 && p.oom {
          crashDegradeLevel := 2;
          backoff, fast := FAST_RESTART, true;
        } else if currentLevel < 1 && !p.oom {
          crashDegradeLevel := 1;
          backoff, fast := FAST_RESTART, true;
        } else if currentLevel < 2 && !p.oom {
          crashDegradeLevel := 2;
          backoff, fast := FAST_RESTART, true;
        }
      }
    }

    /** One turn of the loop, with the loop's variables passed in and out. */
    method Attend(p: Poll, restarts: nat, currentBackoff: int, events: seq<Event>, ghost s: State)
      returns (active: bool, restartCount: nat, nextBackoff: int, log: seq<Event>)
      requires s == State(true, restarts, currentBackoff, crashDegradeLevel, mtpFallbackDisabled, permanentFailure, events)
      modifies this
      ensures Turn(config, s, p) ==
              State(active, restartCount, nextBackoff, crashDegradeLevel, mtpFallbackDisabled, permanentFailure, log)
    {
      hide Crashed;
      active, restartCount, nextBackoff, log := true, restarts, currentBackoff, events;
      if p.ctxDone { active := false; return; }
      if !p.running {
        if restartCount >= MaxAttempts(config) {
          permanentFailure := true;
          log := log + [GaveUp];
          active := false;
          return;
        }
        restartCount := restartCount + 1;
        var backoff, fast := Degrade(p, currentBackoff, s);
        nextBackoff := Min(currentBackoff * 2, MAX_BACKOFF);
        log := log + [Attempt(backoff, fast)];
        if p.cancelledWaiting { active := false; return; }
        if !p.startOk { return; }
        if p.ready != Ready {
          active := p.ready != ContextGone;
          return;
        }
        restartCount := 0;
        nextBackoff := InitialBackoff(config);
        if crashDegradeLevel > 0 { crashDegradeLevel := 0; }
        log := log + [Restarted];
      }
      active := !p.cancelledAfter;
    }

    /** The loop follows the turns one by one; the fields and the events are those of the run. */
    method WatchWithCallback(polls: seq<Poll>) returns (log: seq<Event>)
      modifies this
      ensures var end := Run(config, Start(config, old(crashDegradeLevel), old(mtpFallbackDisabled), old(permanentFailure)), polls);
              && log == end.log
              && IsPermanentFailure() == end.permanent
              && mtpFallbackDisabled == end.specOff
              && GetSpecType() == (if end.specOff then "" else config.specType)
              && crashDegradeLevel == end.level
    {
      hide Turn;
      ghost var start := Start(config, crashDegradeLevel, mtpFallbackDisabled, permanentFailure);
      var restartCount: nat, active := 0, true;
      var currentBackoff := InitialBackoff(config);
      log := [];
      var i := 0;
      while i < |polls| && active
        invariant 0 <= i <= |polls|
        invariant State(active, restartCount, currentBackoff, crashDegradeLevel, mtpFallbackDisabled, permanentFailure, log)
                  == Run(config, start, polls[..i])
      {
        RunStep(config, start, polls, i);
        active, restartCount, currentBackoff, log :=
          Attend(polls[i], restartCount, currentBackoff, log, Run(config, start, polls[..i]));
        i := i + 1;
      }
      StoppedStays(config, start, polls, i);
    }
  }

  lemma RunStep(cfg: Config, s: State, polls: seq<Poll>, i: nat)
    requires i < |polls|
    ensures Run(cfg, s, polls[..i + 1]) == Turn(cfg, Run(cfg, s, polls[..i]), polls[i])
  {
    assert polls[..i + 1][..i] == polls[..i];
  }

  /** Once the loop has returned, later polls have no effect. */
  lemma {:induction false} StoppedStays(cfg: Config, s: State, polls: seq<Poll>, i: nat)
    requires i <= |polls| && (i < |polls| ==> !Run(cfg, s, polls[..i]).active)
    ensures Run(cfg, s, polls) == Run(cfg, s, polls[..i])
    decreases |polls|
  {
    if i == |polls| {
      assert polls[..i] == polls;
    } else {
      var init := polls[..|polls| - 1];
      assert init[..i] == polls[..i];
      StoppedStays(cfg, s, init, i);
    }
  }
}
