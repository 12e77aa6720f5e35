/**
  Which crash has which consequence: early crashes disable speculative decoding, climb the degrade chain
  and shorten the wait; late ones do none of it.  Durations are milliseconds.
 */
module WatchdogCrashes {
  import opened Watchdog
  import opened WatchdogLaws

  /** Between two states an attempt was put on record. */
  predicate Attended(s: State, t: State) { |s.log| < |t.log| && t.log[|s.log|].Attempt? }

  /** The attempt was followed by a successful restart in the same turn. */
  predicate RestartedAt(s: State, t: State) { |t.log| == |s.log| + 2 && t.log[|s.log| + 1] == Restarted }

  /**
    One crash that is attended to.  Within two minutes of the start it switches speculative decoding off
    where configured, and takes a level below 2 to 2 when out of memory and one up otherwise; the wait is one
    second exactly when one of the two happened.  A later crash does neither.
   */
  lemma CrashConsequences(cfg: Config, s: State, p: Poll)
    requires 0 <= s.level <= 2 && Attended(s, Turn(cfg, s, p))
    ensures var t, e := Turn(cfg, s, p), Turn(cfg, s, p).log[|s.log|];
            var specHit := cfg.specType != "" && !s.specOff && p.ranForSpec < 120_000;
            var levelHit := s.level < 2 && p.ranForDegrade < 120_000;
            && (t.specOff <==> s.specOff || specHit)
            && (!RestartedAt(s, t) ==> t.level == if !levelHit then s.level else if p.oom then 2 else s.level + 1)
            && (RestartedAt(s, t) ==> t.level == 0)
            && (e.fast <==> specHit || levelHit)
            && e.wait == (if specHit || levelHit then 1_000 else s.backoff)
  {
  }

  /** A turn that attends to no crash changes neither the level nor speculative decoding. */
  lemma NoCrashNoConsequence(cfg: Config, s: State, p: Poll)
    requires !Attended(s, Turn(cfg, s, p))
    ensures var t := Turn(cfg, s, p); t.specOff == s.specOff && t.level == s.level && t.backoff == s.backoff
    ensures forall e :: e in Turn(cfg, s, p).log ==> e in s.log || e == GaveUp
  {
  }

  /** What happens on a turn of a loop that is still running. */
  lemma TurnEvents(cfg: Config, s: State, p: Poll)
    requires s.active
    ensures var t := Turn(cfg, s, p);
            var limit := if cfg.maxAttempts <= 0 then 10 else cfg.maxAttempts;
            && (Attended(s, t) <==> !p.ctxDone && !p.running && s.restartCount < limit)
            && (RestartedAt(s, t) <==> Attended(s, t) && !p.cancelledWaiting && p.startOk && p.ready == Ready)
            && (RestartedAt(s, t) ==>
                  t.restartCount == 0 && t.backoff == if cfg.initialBackoff == 0 then 2_000 else cfg.initialBackoff)
            && (t.log == s.log + [GaveUp] <==> !p.ctxDone && !p.running && s.restartCount >= limit)
            && (t.active <==>
                  && !p.ctxDone && t.log != s.log + [GaveUp]
                  && (Attended(s, t) ==> !p.cancelledWaiting && (p.startOk ==> p.ready != ContextGone))
                  && (RestartedAt(s, t) || p.running ==> !p.cancelledAfter))
  {
    var t := Turn(cfg, s, p);
    if |t.log| == |s.log| { assert t.log == s.log; }
  }

  ghost predicate AttendedAt(cfg: Config, s: State, polls: seq<Poll>, i: nat)
    requires i < |polls|
  {
    Attended(Run(cfg, s, polls[..i]), Run(cfg, s, polls[..i + 1]))
  }

  /** An attended crash came within two minutes. */
  ghost predicate EarlyCrash(cfg: Config, s: State, polls: seq<Poll>) {
    exists i :: 0 <= i < |polls| && AttendedAt(cfg, s, polls, i) && polls[i].ranForSpec < 120_000
  }

  lemma {:induction false} AttendedInPrefix(cfg: Config, s: State, polls: seq<Poll>, n: nat, i: nat)
    requires i < n <= |polls|
    ensures AttendedAt(cfg, s, polls, i) == AttendedAt(cfg, s, polls[..n], i) && polls[..n][i] == polls[i]
  {
    hide Run, Attended;
    assert polls[..n][..i] == polls[..i] && polls[..n][..i + 1] == polls[..i + 1];
  }

  lemma {:induction false} AttendedLast(cfg: Config, s: State, polls: seq<Poll>)
    requires polls != []
    ensures AttendedAt(cfg, s, polls, |polls| - 1) == Attended(Run(cfg, s, polls[..|polls| - 1]), Run(cfg, s, polls))
  {
    hide Run, Attended;
    assert polls[..|polls| - 1 + 1] == polls;
  }

  lemma {:induction false} EarlyCrashSnoc(cfg: Config, s: State, polls: seq<Poll>)
    requires polls != []
    ensures var n := |polls| - 1;
            EarlyCrash(cfg, s, polls) <==>
            EarlyCrash(cfg, s, polls[..n]) ||
            (Attended(Run(cfg, s, polls[..n]), Run(cfg, s, polls)) && polls[n].ranForSpec < 120_000)
  {
    var n := |polls| - 1;
    var init := polls[..n];
    hide AttendedAt, Run, Attended;
    AttendedLast(cfg, s, polls);
    if EarlyCrash(cfg, s, init) {
      var i :| 0 <= i < n && AttendedAt(cfg, s, init, i) && init[i].ranForSpec < 120_000;
      AttendedInPrefix(cfg, s, polls, n, i);
    }
    if EarlyCrash(cfg, s, polls) {
      var i :| 0 <= i < |polls| && AttendedAt(cfg, s, polls, i) && polls[i].ranForSpec < 120_000;
      if i < n { AttendedInPrefix(cfg, s, polls, n, i); }
    }
  }

  lemma {:induction false} LevelInRange(cfg: Config, s: State, polls: seq<Poll>)
    requires 0 <= s.level <= 2
    ensures 0 <= Run(cfg, s, polls).level <= 2
  {
    if polls == [] {
    } else {
      LevelInRange(cfg, s, polls[..|polls| - 1]);
    }
  }

  /** A run has speculative decoding off exactly when it started so, or when it was configured and an
      attended crash came within two minutes. */
  lemma {:induction false} SpecOffIff(cfg: Config, s: State, polls: seq<Poll>)
    requires 0 <= s.level <= 2
    ensures Run(cfg, s, polls).specOff <==> s.specOff || (cfg.specType != "" && EarlyCrash(cfg, s, polls))
  {
    if polls == [] {
    } else {
      hide Turn, EarlyCrash, Attended;
      var n := |polls| - 1;
      var before, p := Run(cfg, s, polls[..n]), polls[n];
      SpecOffIff(cfg, s, polls[..n]);
      EarlyCrashSnoc(cfg, s, polls);
      LevelInRange(cfg, s, polls[..n]);
      if Attended(before, Turn(cfg, before, p)) {
        CrashConsequences(cfg, before, p);
      } else {
        NoCrashNoConsequence(cfg, before, p);
      }
    }
  }

  /** When every crash comes late, nothing is given up: no wait is shortened and no level climbed. */
  lemma {:induction false} LateCrashesWaitAsPlanned(cfg: Config, level: int, specOff: bool, polls: seq<Poll>)
    requires 0 <= level <= 2
    requires forall i :: 0 <= i < |polls| ==> polls[i].ranForSpec >= 120_000 && polls[i].ranForDegrade >= 120_000
    ensures var t := Run(cfg, Start(cfg, level, specOff, false), polls);
            && t.specOff == specOff && t.level <= level
            && forall i :: 0 <= i < |t.log| && t.log[i].Attempt? ==>
                 !t.log[i].fast && t.log[i].wait == Planned(cfg, Streak(t.log[..i]) + 1)
  {
    var start := Start(cfg, level, specOff, false);
    RunInvariant(cfg, level, specOff, false, polls);
    LateNeverFast(cfg, start, polls);
    var t := Run(cfg, start, polls);
    forall i | 0 <= i < |t.log| && t.log[i].Attempt?
      ensures !t.log[i].fast && t.log[i].wait == Planned(cfg, Streak(t.log[..i]) + 1)
    {
      assert t.log[i] in t.log;
      assert WaitAsPlanned(cfg, t.log[..i], t.log[i]);
    }
  }

  lemma {:induction false} LateNeverFast(cfg: Config, s: State, polls: seq<Poll>)
    requires 0 <= s.level <= 2 && forall e :: e in s.log && e.Attempt? ==> !e.fast
    requires forall i :: 0 <= i < |polls| ==> polls[i].ranForSpec >= 120_000 && polls[i].ranForDegrade >= 120_000
    ensures var t := Run(cfg, s, polls);
            t.specOff == s.specOff && 0 <= t.level <= s.level && forall e :: e in t.log && e.Attempt? ==> !e.fast
  {
    if polls == [] {
    } else {
      LateNeverFast(cfg, s, polls[..|polls| - 1]);
    }
  }

  /** The planned waits in numbers: twice as long each time, from the configured or two seconds up to a minute. */
  lemma PlannedInMilliseconds(cfg: Config, k: nat)
    requires k >= 1
    ensures var first := if cfg.initialBackoff == 0 then 2_000 else cfg.initialBackoff;
            && Planned(cfg, 1) == first
            && (first <= 60_000 ==>
                  Planned(cfg, k) == if first * Pow2(k - 1) <= 60_000 then first * Pow2(k - 1) else 60_000)
  {
  }
}
