/**
  Properties of every run of the watchdog, read off its event log.
 */
module WatchdogLaws {
  import opened Numbers
  import opened Watchdog

  /** Attempts since the last successful restart. */
  function Streak(log: seq<Event>): nat {
    if log == [] then 0
    else match log[|log| - 1]
      case Attempt(_, _) => Streak(log[..|log| - 1]) + 1
      case Restarted => 0
      case GaveUp => Streak(log[..|log| - 1])
  }

  /** Shortened waits since the last successful restart. */
  function FastInStreak(log: seq<Event>): nat {
    if log == [] then 0
    else match log[|log| - 1]
      case Attempt(_, fast) => FastInStreak(log[..|log| - 1]) + if fast then 1 else 0
      case Restarted => 0
      case GaveUp => FastInStreak(log[..|log| - 1])
  }

  function Pow2(n: nat): nat { if n == 0 then 1 else 2 * Pow2(n - 1) }

  /** The wait planned before the `k`-th attempt of a streak: doubling up to a minute. */
  function Planned(cfg: Config, k: nat): int
    requires k >= 1
  {
    if k == 1 then InitialBackoff(cfg) else Min(InitialBackoff(cfg) * Pow2(k - 1), MAX_BACKOFF)
  }

  /** Every attempt in the log waits as planned for its place in the streak, or is a fast restart. */
  ghost predicate WaitsAsPlanned(cfg: Config, log: seq<Event>) {
    forall i :: 0 <= i < |log| ==> WaitAsPlanned(cfg, log[..i], log[i])
  }

  predicate WaitAsPlanned(cfg: Config, before: seq<Event>, e: Event) {
    e.Attempt? ==> e.wait == if e.fast then FAST_RESTART else Planned(cfg, Streak(before) + 1)
  }

  /** At most `max` attempts and at most three shortened waits in every streak of the log. */
  ghost predicate StreaksBounded(cfg: Config, log: seq<Event>) {
    forall i :: 0 <= i <= |log| ==> Streak(log[..i]) <= MaxAttempts(cfg) && FastInStreak(log[..i]) <= 3
  }

  /** Giving up happens at most once, last, and only after a full streak of failures. */
  ghost predicate GivesUpProperly(cfg: Config, log: seq<Event>) {
    forall i :: 0 <= i < |log| && log[i].GaveUp? ==> i == |log| - 1 && Streak(log[..i]) == MaxAttempts(cfg)
  }

  ghost predicate Invariant(cfg: Config, s: State) {
    && s.restartCount == Streak(s.log) <= MaxAttempts(cfg)
    && s.backoff == Planned(cfg, s.restartCount + 1)
    && 0 <= s.level <= 2
    && FastInStreak(s.log) <= s.level + (if s.specOff then 1 else 0)
    && (s.active ==> forall i :: 0 <= i < |s.log| ==> !s.log[i].GaveUp?)
    && WaitsAsPlanned(cfg, s.log) && StreaksBounded(cfg, s.log) && GivesUpProperly(cfg, s.log)
  }

  lemma LogSnoc(log: seq<Event>, e: Event)
    ensures (log + [e])[..|log|] == log
    ensures Streak(log + [e]) == match e case Attempt(_, _) => Streak(log) + 1 case Restarted => 0 case GaveUp => Streak(log)
    ensures FastInStreak(log + [e]) ==
            match e case Attempt(_, fast) => FastInStreak(log) + (if fast then 1 else 0)
                    case Restarted => 0
                    case GaveUp => FastInStreak(log)
  {
    assert (log + [e])[..|log|] == log;
  }

  lemma {:induction false} PlannedNext(cfg: Config, k: nat)
    requires k >= 1
    ensures Planned(cfg, k + 1) == Min(Planned(cfg, k) * 2, MAX_BACKOFF)
  {
    var init, p := InitialBackoff(cfg), Pow2(k - 1);
    assert Pow2(k) == 2 * p;
    assert init * Pow2(k) == 2 * (init * p);
    if k == 1 { assert init * Pow2(1) == init * 2; }
  }

  lemma PrefixesStay(log: seq<Event>, e: Event, i: nat)
    requires i <= |log|
    ensures (log + [e])[..i] == log[..i]
  {
  }

  lemma WaitsExtend(cfg: Config, log: seq<Event>, e: Event)
    requires WaitsAsPlanned(cfg, log)
    requires e.Attempt? ==> e.wait == if e.fast then FAST_RESTART else Planned(cfg, Streak(log) + 1)
    ensures WaitsAsPlanned(cfg, log + [e])
  {
    assert WaitAsPlanned(cfg, log, e);
    hide WaitAsPlanned;
    var all := log + [e];
    forall i | 0 <= i < |all|
      ensures WaitAsPlanned(cfg, all[..i], all[i])
    {
      PrefixesStay(log, e, i);
      if i == |log| { assert all[..i] == log; }
    }
  }

  lemma StreaksExtend(cfg: Config, log: seq<Event>, e: Event)
    requires StreaksBounded(cfg, log)
    requires Streak(log + [e]) <= MaxAttempts(cfg) && FastInStreak(log + [e]) <= 3
    ensures StreaksBounded(cfg, log + [e])
  {
    hide Streak, FastInStreak;
    var all := log + [e];
    forall i | 0 <= i <= |all|
      ensures Streak(all[..i]) <= MaxAttempts(cfg) && FastInStreak(all[..i]) <= 3
    {
      if i <= |log| { PrefixesStay(log, e, i); } else { assert all[..i] == all; }
    }
  }

  lemma LogsExtend(cfg: Config, log: seq<Event>, e: Event)
    requires WaitsAsPlanned(cfg, log) && StreaksBounded(cfg, log) && GivesUpProperly(cfg, log)
    requires forall i :: 0 <= i < |log| ==> !log[i].GaveUp?
    requires e.Attempt? ==> e.wait == if e.fast then FAST_RESTART else Planned(cfg, Streak(log) + 1)
    requires e.GaveUp? ==> Streak(log) == MaxAttempts(cfg)
    requires Streak(log + [e]) <= MaxAttempts(cfg) && FastInStreak(log + [e]) <= 3
    ensures WaitsAsPlanned(cfg, log + [e]) && StreaksBounded(cfg, log + [e]) && GivesUpProperly(cfg, log + [e])
  {
    hide Streak, FastInStreak, Planned, WaitsAsPlanned, StreaksBounded;
    WaitsExtend(cfg, log, e);
    StreaksExtend(cfg, log, e);
    assert (log + [e])[..|log|] == log;
  }

  lemma CrashedKeepsInvariant(cfg: Config, s: State, p: Poll)
    requires Invariant(cfg, s) && s.active && s.restartCount < MaxAttempts(cfg)
    ensures Invariant(cfg, Crashed(cfg, s, p))
  {
    hide WaitsAsPlanned, StreaksBounded, GivesUpProperly, Streak, FastInStreak, Planned;
    var c := Crashed(cfg, s, p);
    var e := c.log[|s.log|];
    assert c.log == s.log + [e];
    LogSnoc(s.log, e);
    PlannedNext(cfg, s.restartCount + 1);
    LogsExtend(cfg, s.log, e);
  }

  lemma RecoveredKeepsInvariant(cfg: Config, s: State)
    requires Invariant(cfg, s) && s.active
    ensures Invariant(cfg, Recovered(cfg, s))
  {
    hide WaitsAsPlanned, StreaksBounded, GivesUpProperly, Streak, FastInStreak;
    LogSnoc(s.log, Restarted);
    LogsExtend(cfg, s.log, Restarted);
  }

  lemma {:induction false} TurnKeepsInvariant(cfg: Config, s: State, p: Poll)
    requires Invariant(cfg, s)
    ensures Invariant(cfg, Turn(cfg, s, p))
  {
    hide WaitsAsPlanned, StreaksBounded, GivesUpProperly, Streak, FastInStreak, Planned, Crashed, Recovered;
    if s.active && !p.ctxDone && !p.running {
      if s.restartCount >= MaxAttempts(cfg) {
        LogSnoc(s.log, GaveUp);
        LogsExtend(cfg, s.log, GaveUp);
      } else {
        CrashedKeepsInvariant(cfg, s, p);
        var c := Crashed(cfg, s, p);
        assert c.active by { CrashedStaysActive(cfg, s, p); }
        RecoveredKeepsInvariant(cfg, c);
      }
    }
  }

  lemma CrashedStaysActive(cfg: Config, s: State, p: Poll)
    ensures Crashed(cfg, s, p).active == s.active && Crashed(cfg, s, p).permanent == s.permanent
  {
  }

  /** All of it holds in every run, from any degrade level and fallback state a server may be in. */
  lemma {:induction false} RunInvariant(cfg: Config, level: int, specOff: bool, permanent: bool, polls: seq<Poll>)
    requires 0 <= level <= 2
    ensures Invariant(cfg, Run(cfg, Start(cfg, level, specOff, permanent), polls))
    decreases |polls|
  {
    hide Invariant, Turn;
    if polls == [] {
      StartInvariant(cfg, level, specOff, permanent);
    } else {
      var init := polls[..|polls| - 1];
      RunInvariant(cfg, level, specOff, permanent, init);
      TurnKeepsInvariant(cfg, Run(cfg, Start(cfg, level, specOff, permanent), init), polls[|polls| - 1]);
    }
  }

  lemma StartInvariant(cfg: Config, level: int, specOff: bool, permanent: bool)
    requires 0 <= level <= 2
    ensures Invariant(cfg, Start(cfg, level, specOff, permanent))
  {
  }

  // ---------------------------------------------------------------------------------------
  // Degrading and giving up
  // ---------------------------------------------------------------------------------------

  /** One turn either records a successful restart, or never lowers the level; the fallback is final. */
  lemma TurnDegrades(cfg: Config, s: State, p: Poll)
    ensures var t := Turn(cfg, s, p);
            && (s.specOff ==> t.specOff)
            && (t.level >= s.level || (t.log != [] && t.log[|t.log| - 1] == Restarted && t.level == 0 && |t.log| > |s.log|))
  {
  }

  /** Speculative decoding, once disabled, stays disabled through any further polls. */
  lemma {:induction false} SpecStaysOff(cfg: Config, s: State, polls: seq<Poll>)
    requires s.specOff
    ensures Run(cfg, s, polls).specOff
    decreases |polls|
  {
    if polls == [] {
    } else {
      SpecStaysOff(cfg, s, polls[..|polls| - 1]);
      TurnDegrades(cfg, Run(cfg, s, polls[..|polls| - 1]), polls[|polls| - 1]);
    }
  }

  /** The poll at `i` finds the server down after a full streak of failed attempts. */
  ghost predicate GivesUpAt(cfg: Config, start: State, polls: seq<Poll>, i: nat)
    requires i < |polls|
  {
    var s := Run(cfg, start, polls[..i]);
    s.active && !polls[i].ctxDone && !polls[i].running && Streak(s.log) == MaxAttempts(cfg)
  }

  lemma GivesUpStep(cfg: Config, s: State, p: Poll)
    requires Invariant(cfg, s)
    ensures Turn(cfg, s, p).permanent <==>
            s.permanent || (s.active && !p.ctxDone && !p.running && Streak(s.log) == MaxAttempts(cfg))
  {
    hide WaitsAsPlanned, StreaksBounded, GivesUpProperly, Streak, FastInStreak, Planned;
  }

  /** Permanent failure is declared exactly when some poll finds the server down after `max`
      consecutive failures. */
  lemma {:induction false} PermanentIff(cfg: Config, level: int, specOff: bool, polls: seq<Poll>)
    requires 0 <= level <= 2
    ensures var start := Start(cfg, level, specOff, false);
            Run(cfg, start, polls).permanent <==> exists i :: 0 <= i < |polls| && GivesUpAt(cfg, start, polls, i)
    decreases |polls|
  {
    hide Invariant, Turn;
    var start := Start(cfg, level, specOff, false);
    if polls == [] {
    } else {
      var n := |polls| - 1;
      var init := polls[..n];
      PermanentIff(cfg, level, specOff, init);
      RunInvariant(cfg, level, specOff, false, init);
      GivesUpStep(cfg, Run(cfg, start, init), polls[n]);
      forall i | 0 <= i < n
        ensures GivesUpAt(cfg, start, polls, i) == GivesUpAt(cfg, start, init, i)
      {
        assert init[..i] == polls[..i];
      }
      if exists i :: 0 <= i < n && GivesUpAt(cfg, start, init, i) {
        var i :| 0 <= i < n && GivesUpAt(cfg, start, init, i);
        assert GivesUpAt(cfg, start, polls, i);
      }
      if GivesUpAt(cfg, start, polls, n) { assert Run(cfg, start, polls).permanent; }
    }
  }

  predicate FailingPoll(p: Poll) {
    !p.ctxDone && !p.running && !p.cancelledWaiting && (!p.startOk || p.ready == NotReady)
  }

  /** A server that never comes back is given up after `max` attempts, on the poll after the last. */
  lemma {:induction false} DeadServerIsGivenUp(cfg: Config, s: State, polls: seq<Poll>)
    requires s.active && s.restartCount == 0 && !s.permanent
    requires forall i :: 0 <= i < |polls| ==> FailingPoll(polls[i])
    ensures var t := Run(cfg, s, polls);
            var limit := if cfg.maxAttempts <= 0 then 10 else cfg.maxAttempts;
            && (|polls| <= limit ==> t.active && !t.permanent && t.restartCount == |polls|)
            && (|polls| > limit ==> !t.active && t.permanent)
    decreases |polls|
  {
    if polls == [] {
    } else {
      var init := polls[..|polls| - 1];
      DeadServerIsGivenUp(cfg, s, init);
      assert FailingPoll(polls[|polls| - 1]);
    }
  }

  predicate FlappingPoll(p: Poll) {
    !p.ctxDone && !p.running && !p.cancelledWaiting && p.startOk && p.ready == Ready && !p.cancelledAfter
  }

  /** But a server that comes up and crashes again is restarted without end: no number of crashes gives up. */
  lemma {:induction false} FlappingServerIsNeverGivenUp(cfg: Config, s: State, polls: seq<Poll>)
    requires s.active && s.restartCount == 0 && !s.permanent
    requires forall i :: 0 <= i < |polls| ==> FlappingPoll(polls[i])
    ensures var t := Run(cfg, s, polls);
            t.active && !t.permanent && t.restartCount == 0 && |t.log| == |s.log| + 2 * |polls|
    decreases |polls|
  {
    if polls == [] {
    } else {
      FlappingServerIsNeverGivenUp(cfg, s, polls[..|polls| - 1]);
      assert FlappingPoll(polls[|polls| - 1]);
    }
  }
}
