/**
  `TrimMessagesToFit`: cutting a request down to the context size.
 */
module Trimming {
  import opened Numbers
  import opened Options
  import opened Subsequences
  import opened Messages
  import opened PairCleaning

  const MIN_EFFECTIVE_TOKENS := 100

  // ---------------------------------------------------------------------------------------
  // Which messages are chosen
  // ---------------------------------------------------------------------------------------

  function PlainTokens(ms: seq<Message>): nat {
    if ms == [] then 0
    else (if MustKeep(ms[0]) then 0 else Estimate(ms[0])) + PlainTokens(ms[1..])
  }

  /** Walking back from the end, the index at which the first unprotected message no longer fits. */
  function CutPoint(ms: seq<Message>, budget: int): (k: nat)
    ensures k <= |ms|
  {
    if ms == [] then 0
    else
      var init, last := ms[..|ms| - 1], ms[|ms| - 1];
      if MustKeep(last) then CutPoint(init, budget)
      else if Estimate(last) > budget then |ms|
      else CutPoint(init, budget - Estimate(last))
  }

  function KeepFlags(ms: seq<Message>, k: nat): seq<bool> {
    seq(|ms|, i requires 0 <= i < |ms| => MustKeep(ms[i]) || i >= k)
  }

  function Chosen(ms: seq<Message>, budget: int): seq<Message> {
    Select(ms, KeepFlags(ms, CutPoint(ms, budget)))
  }

  /** A split point: the unprotected messages from `k` on fit, and one more would not. */
  ghost predicate IsLongestFittingSuffix(ms: seq<Message>, budget: int, k: nat) {
    && k <= |ms|
    && PlainTokens(ms[k..]) <= Max(budget, 0)
    && (k > 0 ==> !MustKeep(ms[k - 1]) && PlainTokens(ms[k - 1..]) > budget)
  }

  lemma {:induction false} PlainTokensAppend(a: seq<Message>, b: seq<Message>)
    ensures PlainTokens(a + b) == PlainTokens(a) + PlainTokens(b)
  {
    if a == [] {
      assert a + b == b;
    } else {
      PlainTokensAppend(a[1..], b);
      assert (a + b)[1..] == a[1..] + b;
    }
  }

  function PlainCost(m: Message): nat { if MustKeep(m) then 0 else Estimate(m) }

  lemma PlainTokensSnoc(ms: seq<Message>, k: nat)
    requires ms != [] && k < |ms|
    ensures PlainTokens(ms[k..]) == PlainTokens(ms[..|ms| - 1][k..]) + PlainCost(ms[|ms| - 1])
  {
    var last := ms[|ms| - 1];
    assert ms[k..] == ms[..|ms| - 1][k..] + [last];
    PlainTokensAppend(ms[..|ms| - 1][k..], [last]);
    assert PlainTokens([last]) == PlainCost(last) + PlainTokens([last][1..]);
  }

  lemma {:induction false} CutPointIsLongestSuffix(ms: seq<Message>, budget: int)
    ensures IsLongestFittingSuffix(ms, budget, CutPoint(ms, budget))
    decreases |ms|
  {
    hide MustKeep, Estimate, PlainTokens;
    if ms == [] {
      NothingPlain();
    } else {
      var init, last := ms[..|ms| - 1], ms[|ms| - 1];
      var k := CutPoint(ms, budget);
      if !MustKeep(last) && Estimate(last) > budget {
        assert ms[k..] == [];
        NothingPlain();
        PlainTokensSnoc(ms, k - 1);
      } else {
        CutPointIsLongestSuffix(init, budget - PlainCost(last));
        PlainTokensSnoc(ms, k);
        if k > 0 { PlainTokensSnoc(ms, k - 1); }
      }
    }
  }

  lemma NothingPlain()
    ensures PlainTokens([]) == 0
  {
  }

  lemma PlainTokensShrink(ms: seq<Message>, i: nat, j: nat)
    requires i <= j <= |ms|
    ensures PlainTokens(ms[j..]) <= PlainTokens(ms[i..])
  {
    assert ms[i..] == ms[i..j] + ms[j..];
    PlainTokensAppend(ms[i..j], ms[j..]);
  }

  /** The split point is unique, so the property above describes the choice completely. */
  lemma LongestSuffixUnique(ms: seq<Message>, budget: int, j: nat, k: nat)
    requires IsLongestFittingSuffix(ms, budget, j) && IsLongestFittingSuffix(ms, budget, k)
    ensures j == k
  {
    if j < k { NoLaterSplit(ms, budget, j, k); }
    if k < j { NoLaterSplit(ms, budget, k, j); }
  }

  /** An unprotected message costs something, so the suffix from it on no longer fits any budget a later one fits. */
  lemma NoLaterSplit(ms: seq<Message>, budget: int, j: nat, k: nat)
    requires IsLongestFittingSuffix(ms, budget, j) && j < k <= |ms|
    ensures !IsLongestFittingSuffix(ms, budget, k)
  {
    hide MustKeep;
    PlainTokensShrink(ms, j, k - 1);
    assert ms[k - 1..][0] == ms[k - 1];
  }

  lemma KeepFlagsTail(ms: seq<Message>, k: nat)
    requires ms != []
    ensures KeepFlags(ms, k)[1..] == KeepFlags(ms[1..], if k == 0 then 0 else k - 1)
  {
  }

  lemma {:induction false} ChosenTokens(ms: seq<Message>, k: nat)
    requires k <= |ms|
    ensures Tokens(Select(ms, KeepFlags(ms, k))) == MustKeepTokens(ms) + PlainTokens(ms[k..])
  {
    if ms == [] {
    } else {
      var k' := if k == 0 then 0 else k - 1;
      var rest := Select(ms[1..], KeepFlags(ms[1..], k'));
      KeepFlagsTail(ms, k);
      ChosenTokens(ms[1..], k');
      if k > 0 { assert ms[1..][k'..] == ms[k..]; } else { assert ms[0..] == ms && ms[1..][0..] == ms[1..]; }
      assert ([ms[0]] + rest)[1..] == rest && [] + rest == rest;
    }
  }

  /** The chosen messages cost at most the budget on top of the protected ones. */
  lemma ChosenWithinBudget(ms: seq<Message>, budget: int)
    ensures Tokens(Chosen(ms, budget)) <= MustKeepTokens(ms) + Max(budget, 0)
  {
    CutPointIsLongestSuffix(ms, budget);
    ChosenTokens(ms, CutPoint(ms, budget));
  }

  // ---------------------------------------------------------------------------------------
  // The loops
  // ---------------------------------------------------------------------------------------

  /** The protected messages: their indices, ascending, and their total cost. */
  method ComputeMustKeepBudget(ms: seq<Message>) returns (indices: seq<nat>, tokens: int)
    ensures forall i :: 0 <= i < |indices| ==> indices[i] < |ms| && MustKeep(ms[indices[i]])
    ensures forall i :: 0 <= i < |ms| && MustKeep(ms[i]) ==> i in indices
    ensures forall i, j :: 0 <= i < j < |indices| ==> indices[i] < indices[j]
    ensures tokens == MustKeepTokens(ms)
  {
    indices, tokens := [], 0;
    for i := 0 to |ms|
      invariant forall j :: 0 <= j < |indices| ==> indices[j] < i && MustKeep(ms[indices[j]])
      invariant forall j :: 0 <= j < i && MustKeep(ms[j]) ==> j in indices
      invariant forall j, k :: 0 <= j < k < |indices| ==> indices[j] < indices[k]
      invariant tokens + MustKeepTokens(ms[i..]) == MustKeepTokens(ms)
    {
      assert ms[i..][1..] == ms[i + 1..];
      var score := ScoreChatMessage(ms[i]);
      if IsMustKeep(score) {
        indices := indices + [i];
        tokens := tokens + Estimate(ms[i]);
      }
    }
    assert ms[|ms|..] == [];
  }

  method MarkMustKeep(rest: seq<Message>) returns (keep: array<bool>, mustKeepTokens: int)
    ensures fresh(keep) && keep.Length == |rest|
    ensures forall i :: 0 <= i < |rest| ==> (keep[i] <==> MustKeep(rest[i]))
    ensures mustKeepTokens == MustKeepTokens(rest)
  {
    var indices;
    indices, mustKeepTokens := ComputeMustKeepBudget(rest);
    hide MustKeep, MustKeepTokens;
    keep := new bool[|rest|](_ => false);
    for n := 0 to |indices|
      invariant forall i :: 0 <= i < |rest| ==> (keep[i] <==> i in indices[..n])
    {
      keep[indices[n]] := true;
      assert indices[..n + 1] == indices[..n] + [indices[n]];
    }
    assert indices[..|indices|] == indices;
  }

  /** The `keepDecision` array of the source. */
  method DecideKept(rest: seq<Message>, remaining: int) returns (keep: array<bool>)
    ensures fresh(keep) && keep.Length == |rest|
    ensures keep[..] == KeepFlags(rest, CutPoint(rest, remaining - MustKeepTokens(rest)))
  {
    var mustKeepTokens;
    keep, mustKeepTokens := MarkMustKeep(rest);
    hide MustKeep, MustKeepTokens, Estimate;
    var budget := remaining - mustKeepTokens;
    var acc := 0;
    var i := |rest| - 1;
    assert rest[..i + 1] == rest;
    ghost var cut := CutPoint(rest, budget);
    while i >= 0
      invariant -1 <= i < |rest|
      invariant CutPoint(rest[..i + 1], budget - acc) == cut
      invariant forall j :: 0 <= j <= i ==> (keep[j] <==> MustKeep(rest[j]))
      invariant forall j :: i < j < |rest| ==> keep[j]
      decreases i
    {
      assert rest[..i + 1][..i] == rest[..i];
      if keep[i] {
        i := i - 1;
        continue;
      }
      var t := Estimate(rest[i]);
      if acc + t > budget {
        break;
      }
      keep[i] := true;
      acc := acc + t;
      i := i - 1;
    }
    assert cut == i + 1;
  }

  method KeptInOrder(rest: seq<Message>, keep: array<bool>) returns (kept: seq<Message>)
    requires keep.Length == |rest|
    ensures kept == Select(rest, keep[..])
  {
    kept := [];
    for i := 0 to |rest|
      invariant kept == Select(rest[..i], keep[..i])
    {
      assert rest[..i + 1] == rest[..i] + [rest[i]] && keep[..i + 1] == keep[..i] + [keep[i]];
      SelectAppend(rest[..i], keep[..i], [rest[i]], [keep[i]]);
      assert Select([rest[i]], [keep[i]]) == if keep[i] then [rest[i]] else [];
      if keep[i] {
        kept := kept + [rest[i]];
      }
    }
    assert rest[..|rest|] == rest && keep[..|rest|] == keep[..];
  }

  method SumTokens(ms: seq<Message>) returns (total: int)
    ensures total == Tokens(ms)
  {
    total := 0;
    for i := 0 to |ms|
      invariant total + Tokens(ms[i..]) == Tokens(ms)
    {
      assert ms[i..][1..] == ms[i + 1..];
      total := total + Estimate(ms[i]);
    }
    assert ms[|ms|..] == [];
  }

  function LastUser(ms: seq<Message>): (r: Option<Message>)
    ensures r.Some? <==> HasUser(ms)
    ensures r.Some? ==> r.value in ms && r.value.role == User
  {
    if ms == [] then None
    else if ms[|ms| - 1].role == User then Some(ms[|ms| - 1])
    else
      assert HasUser(ms) ==> HasUser(ms[..|ms| - 1]) by {
        if HasUser(ms) {
          var i :| 0 <= i < |ms| && ms[i].role == User;
          assert ms[..|ms| - 1][i].role == User;
        }
      }
      LastUser(ms[..|ms| - 1])
  }

  /** The latest user message stands at `i`. */
  predicate LastUserAt(ms: seq<Message>, i: nat) {
    i < |ms| && ms[i].role == User && forall j :: i < j < |ms| ==> ms[j].role != User
  }

  method FindLastUser(ms: seq<Message>) returns (r: Option<Message>)
    ensures r == LastUser(ms)
    ensures r.Some? ==> exists i: nat :: LastUserAt(ms, i) && r.value == ms[i]
    ensures r.None? ==> forall i :: 0 <= i < |ms| ==> ms[i].role != User
  {
    var i := |ms| - 1;
    assert ms[..i + 1] == ms;
    while i >= 0
      invariant -1 <= i < |ms| && LastUser(ms[..i + 1]) == LastUser(ms)
      invariant forall j :: i < j < |ms| ==> ms[j].role != User
    {
      assert ms[..i + 1][..i] == ms[..i];
      if ms[i].role == User {
        assert LastUserAt(ms, i);
        return Some(ms[i]);
      }
      i := i - 1;
    }
    return None;
  }

  // ---------------------------------------------------------------------------------------
  // The whole function
  // ---------------------------------------------------------------------------------------

  function EffectiveMax(maxTokens: int, reserve: int): int { Max(maxTokens - reserve, MIN_EFFECTIVE_TOKENS) }

  predicate Untouched(ms: seq<Message>, limit: int) { |ms| <= 2 || Tokens(ms) <= limit }

  /** The leading system message, if any. */
  function Head(ms: seq<Message>): seq<Message> {
    if ms != [] && ms[0].role == System then [ms[0]] else []
  }

  function Middle(ms: seq<Message>): seq<Message>
    requires |ms| > 2
  {
    ms[|Head(ms)|..|ms| - 1]
  }

  function Last(ms: seq<Message>): Message
    requires ms != []
  {
    ms[|ms| - 1]
  }

  function Remaining(ms: seq<Message>, limit: int): int
    requires ms != []
  {
    limit - Tokens(Head(ms)) - Estimate(Last(ms))
  }

  function Kept(ms: seq<Message>, limit: int): seq<Message>
    requires |ms| > 2
  {
    var rest := Middle(ms);
    SkipToStart(CleanPairs(Chosen(rest, Remaining(ms, limit) - MustKeepTokens(rest))))
  }

  /** The user message that is put back when none survived. */
  function Reinserted(ms: seq<Message>, limit: int): seq<Message>
    requires |ms| > 2
  {
    if HasUser(Head(ms) + Kept(ms, limit) + [Last(ms)]) || LastUser(ms).None? then []
    else [LastUser(ms).value]
  }

  function Trimmed(ms: seq<Message>, limit: int): seq<Message> {
    if Untouched(ms, limit) then ms
    else if Remaining(ms, limit) < 0 then Head(ms) + [Last(ms)]
    else Head(ms) + Kept(ms, limit) + Reinserted(ms, limit) + [Last(ms)]
  }

  method SplitEnds(ms: seq<Message>) returns (system: seq<Message>, rest: seq<Message>, lastMsg: Message)
    requires |ms| > 2
    ensures system == Head(ms) && rest == Middle(ms) && lastMsg == Last(ms)
  {
    var startIdx := 0;
    system := [];
    if ms[0].role == System {
      system, startIdx := [ms[0]], 1;
    }
    rest := ms[startIdx..];
    lastMsg := rest[|rest| - 1];
    rest := rest[..|rest| - 1];
  }

  method PutBackLastUser(ms: seq<Message>, front: seq<Message>, lastMsg: Message) returns (result: seq<Message>)
    ensures result == front + (if HasUser(front + [lastMsg]) || LastUser(ms).None? then [] else [LastUser(ms).value]) + [lastMsg]
  {
    hide HasUser, LastUser;
    result := front + [lastMsg];
    if !HasUser(result) {
      var lastUserMsg := FindLastUser(ms);
      if lastUserMsg.Some? {
        result := result[..|result| - 1] + [lastUserMsg.value, result[|result| - 1]];
        return;
      }
    }
    assert front + [] == front;
  }

  method TrimMessagesToFit(ms: seq<Message>, maxTokens: int, reserve: int) returns (result: seq<Message>)
    ensures result == Trimmed(ms, EffectiveMax(maxTokens, reserve))
    ensures |ms| <= 2 || Tokens(ms) + reserve <= maxTokens || Tokens(ms) <= 100 ==> result == ms
  {
    hide Tokens, CutPoint, KeepFlags, Select, CleanPairs, SkipToStart, MustKeepTokens, HasUser, LastUser, Estimate,
         Head, Middle;
    if |ms| <= 2 { return ms; }
    var effectiveMax := Max(maxTokens - reserve, MIN_EFFECTIVE_TOKENS);
    var total := SumTokens(ms);
    if total <= effectiveMax { return ms; }
    var system, rest, lastMsg := SplitEnds(ms);
    var systemTokens := SumTokens(system);
    var remaining := effectiveMax - systemTokens - Estimate(lastMsg);
    if remaining < 0 {
      return system + [lastMsg];
    }
    var keep := DecideKept(rest, remaining);
    var kept := KeptInOrder(rest, keep);
    kept := CleanToolCallPairs(kept);
    kept := EnsureStartsWithUserOrSystem(kept);
    result := PutBackLastUser(ms, system + kept, lastMsg);
  }
}
