/**
  The synchronous part of `CompressContext`: a sliding window plus the most valuable older messages.
 */
module Compression {
  import opened Numbers
  import opened Options
  import opened Subsequences
  import opened Messages
  import opened PairCleaning
  import opened Survival
  import opened Trimming

  const IMPORTANT_BUDGET_RATIO := 5
  const MAX_IMPORTANT_BUDGET := 1000
  const MIN_IMPORTANT_BUDGET := 200

  // ---------------------------------------------------------------------------------------
  // Ordering the candidates
  // ---------------------------------------------------------------------------------------

  /** Higher score first; among equals the older message first. */
  predicate Precedes(ms: seq<Message>, i: nat, j: nat)
    requires i < |ms| && j < |ms|
  {
    Score(ms[i]) > Score(ms[j]) || (Score(ms[i]) == Score(ms[j]) && i < j)
  }

  predicate InRange(ms: seq<Message>, idx: seq<nat>) { forall k :: 0 <= k < |idx| ==> idx[k] < |ms| }

  predicate ByScore(ms: seq<Message>, idx: seq<nat>)
    requires InRange(ms, idx)
  {
    forall j, k :: 0 <= j < k < |idx| ==> Precedes(ms, idx[j], idx[k])
  }

  function Insert(ms: seq<Message>, x: nat, idx: seq<nat>): (r: seq<nat>)
    requires x < |ms| && InRange(ms, idx)
    ensures InRange(ms, r)
    ensures multiset(r) == multiset(idx) + multiset{x}
  {
    if idx == [] then [x]
    else if Precedes(ms, x, idx[0]) then assert [x] + idx == [x] + idx; [x] + idx
    else
      var r := [idx[0]] + Insert(ms, x, idx[1..]);
      assert idx == [idx[0]] + idx[1..];
      r
  }

  function SortByScore(ms: seq<Message>, idx: seq<nat>): (r: seq<nat>)
    requires InRange(ms, idx)
    ensures InRange(ms, r)
    ensures multiset(r) == multiset(idx)
  {
    if idx == [] then []
    else
      assert idx == [idx[0]] + idx[1..];
      Insert(ms, idx[0], SortByScore(ms, idx[1..]))
  }

  lemma {:induction false} InsertSorted(ms: seq<Message>, x: nat, idx: seq<nat>)
    requires x < |ms| && InRange(ms, idx) && ByScore(ms, idx) && x !in idx
    ensures ByScore(ms, Insert(ms, x, idx))
  {
    if idx != [] && !Precedes(ms, x, idx[0]) {
      InsertSorted(ms, x, idx[1..]);
      var tail := Insert(ms, x, idx[1..]);
      forall k | 0 <= k < |tail|
        ensures Precedes(ms, idx[0], tail[k])
      {
        assert tail[k] in multiset(tail);
        assert tail[k] == x || tail[k] in idx[1..];
      }
    }
  }

  lemma {:induction false} SortByScoreSorted(ms: seq<Message>, idx: seq<nat>)
    requires InRange(ms, idx) && Distinct(idx)
    ensures ByScore(ms, SortByScore(ms, idx))
  {
    if idx == [] {
    } else {
      var tail := SortByScore(ms, idx[1..]);
      SortByScoreSorted(ms, idx[1..]);
      forall k | 0 <= k < |tail|
        ensures tail[k] != idx[0]
      {
        assert tail[k] in multiset(tail);
        assert tail[k] in idx[1..];
      }
      InsertSorted(ms, idx[0], tail);
    }
  }

  // ---------------------------------------------------------------------------------------
  // Filling the budget
  // ---------------------------------------------------------------------------------------

  /** One pass over the candidates; whatever still fits is taken. */
  function Fill(ms: seq<Message>, order: seq<nat>, flags: seq<bool>, acc: int, budget: int): (r: (seq<bool>, int))
    requires InRange(ms, order) && |flags| == |ms|
    ensures |r.0| == |ms|
  {
    if order == [] then (flags, acc)
    else if acc + Estimate(ms[order[0]]) > budget then Fill(ms, order[1..], flags, acc, budget)
    else Fill(ms, order[1..], flags[order[0] := true], acc + Estimate(ms[order[0]]), budget)
  }

  lemma SetFlagTokens(ms: seq<Message>, flags: seq<bool>, i: nat)
    requires |flags| == |ms| && i < |ms| && !flags[i]
    ensures Tokens(Select(ms, flags[i := true])) == Tokens(Select(ms, flags)) + Estimate(ms[i])
  {
    var f, g := flags[..i], flags[i + 1..];
    var a, b := ms[..i], ms[i + 1..];
    assert ms == a + ([ms[i]] + b) && flags == f + ([false] + g) && flags[i := true] == f + ([true] + g);
    SelectAppend(a, f, [ms[i]] + b, [false] + g);
    SelectAppend(a, f, [ms[i]] + b, [true] + g);
    OneFlag(ms[i], b, g);
    TokensAppend(Select(a, f), Select([ms[i]] + b, [false] + g));
    TokensAppend(Select(a, f), Select([ms[i]] + b, [true] + g));
  }

  lemma OneFlag(m: Message, b: seq<Message>, g: seq<bool>)
    requires |b| == |g|
    ensures Tokens(Select([m] + b, [true] + g)) == Estimate(m) + Tokens(Select(b, g))
    ensures Select([m] + b, [false] + g) == Select(b, g)
  {
    assert ([m] + b)[1..] == b && ([true] + g)[1..] == g && ([false] + g)[1..] == g;
    var r := Select(b, g);
    assert Select([m] + b, [true] + g) == [m] + r;
    assert ([m] + r)[1..] == r && [] + r == r;
  }

  /** Whatever the order: the cost is accounted for, the budget holds, nothing that fits is left out. */
  lemma {:induction false} FillLaws(ms: seq<Message>, order: seq<nat>, flags: seq<bool>, acc: int, budget: int)
    requires InRange(ms, order) && |flags| == |ms| && Distinct(order)
    requires forall k :: 0 <= k < |order| ==> !flags[order[k]]
    ensures var (f, total) := Fill(ms, order, flags, acc, budget);
            && acc <= total <= Max(budget, acc)
            && Tokens(Select(ms, f)) - total == Tokens(Select(ms, flags)) - acc
            && (forall i :: 0 <= i < |ms| && flags[i] ==> f[i])
            && (forall i :: 0 <= i < |ms| && f[i] ==> flags[i] || i in order)
            && (forall k :: 0 <= k < |order| && !f[order[k]] ==> total + Estimate(ms[order[k]]) > budget)
  {
    hide Estimate, Tokens, Select;
    if order == [] {
    } else {
      var i := order[0];
      if acc + Estimate(ms[i]) > budget {
        FillLaws(ms, order[1..], flags, acc, budget);
      } else {
        SetFlagTokens(ms, flags, i);
        FillLaws(ms, order[1..], flags[i := true], acc + Estimate(ms[i]), budget);
      }
    }
  }

  /** A candidate is taken exactly when it fits next to what the candidates before it took. */
  lemma {:induction false} FillDecision(ms: seq<Message>, order: seq<nat>, flags: seq<bool>, acc: int, budget: int, p: nat)
    requires InRange(ms, order) && |flags| == |ms| && Distinct(order) && p < |order|
    requires forall k :: 0 <= k < |order| ==> !flags[order[k]]
    ensures Fill(ms, order, flags, acc, budget).0[order[p]] <==>
            Fill(ms, order[..p], flags, acc, budget).1 + Estimate(ms[order[p]]) <= budget
  {
    hide Estimate;
    var i := order[0];
    var fits := acc + Estimate(ms[i]) <= budget;
    var flags', acc' := if fits then flags[i := true] else flags, if fits then acc + Estimate(ms[i]) else acc;
    if p == 0 {
      FillLaws(ms, order[1..], flags', acc', budget);
    } else {
      FillDecision(ms, order[1..], flags', acc', budget, p - 1);
      assert order[..p][1..] == order[1..][..p - 1];
    }
  }

  // ---------------------------------------------------------------------------------------
  // selectImportantMessages
  // ---------------------------------------------------------------------------------------

  function MustFlags(ms: seq<Message>): seq<bool> { seq(|ms|, i requires 0 <= i < |ms| => MustKeep(ms[i])) }

  /** Indices of the unprotected messages below `n`, ascending. */
  function PlainIndices(ms: seq<Message>, n: nat): (idx: seq<nat>)
    requires n <= |ms|
    ensures forall k :: 0 <= k < |idx| ==> idx[k] < n && !MustKeep(ms[idx[k]])
    ensures forall i :: 0 <= i < n && !MustKeep(ms[i]) ==> i in idx
    ensures forall j, k :: 0 <= j < k < |idx| ==> idx[j] < idx[k]
  {
    if n == 0 then []
    else PlainIndices(ms, n - 1) + if MustKeep(ms[n - 1]) then [] else [n - 1]
  }

  function Order(ms: seq<Message>): (r: seq<nat>)
    ensures InRange(ms, r)
  {
    SortByScore(ms, PlainIndices(ms, |ms|))
  }

  function ImportantFlags(ms: seq<Message>, budget: int): (f: seq<bool>)
    ensures |f| == |ms|
  {
    var left := budget - MustKeepTokens(ms);
    if left > 0 then Fill(ms, Order(ms), MustFlags(ms), 0, left).0 else MustFlags(ms)
  }

  function Important(ms: seq<Message>, budget: int): seq<Message> {
    if ms == [] || budget <= 0 then [] else Select(ms, ImportantFlags(ms, budget))
  }

  method PlainMessages(ms: seq<Message>) returns (idx: seq<nat>)
    ensures idx == PlainIndices(ms, |ms|)
  {
    idx := [];
    for i := 0 to |ms|
      invariant idx == PlainIndices(ms, i)
    {
      var score := ScoreChatMessage(ms[i]);
      if !IsMustKeep(score) {
        idx := idx + [i];
      }
    }
  }

  method SelectImportantMessages(ms: seq<Message>, budget: int) returns (result: seq<Message>)
    ensures result == Important(ms, budget)
    ensures budget <= 0 ==> result == []
  {
    if |ms| == 0 || budget <= 0 { return []; }
    var selected, mustKeepTokens := MarkMustKeep(ms);
    assert selected[..] == MustFlags(ms);
    hide MustKeep, Estimate, MustKeepTokens, MustFlags, PlainIndices, SortByScore, Select;
    var remainingBudget := budget - mustKeepTokens;
    if remainingBudget > 0 {
      var idx := PlainMessages(ms);
      var sorted := SortByScore(ms, idx);
      var acc := 0;
      for n := 0 to |sorted|
        invariant Fill(ms, sorted[n..], selected[..], acc, remainingBudget) ==
                  Fill(ms, Order(ms), MustFlags(ms), 0, remainingBudget)
      {
        assert sorted[n..][0] == sorted[n] && sorted[n..][1..] == sorted[n + 1..];
        var t := Estimate(ms[sorted[n]]);
        if acc + t > remainingBudget {
          continue;
        }
        ghost var before := selected[..];
        selected[sorted[n]] := true;
        assert selected[..] == before[sorted[n] := true];
        acc := acc + t;
      }
      assert sorted[|sorted|..] == [];
    }
    result := KeptInOrder(ms, selected);
  }

  lemma OrderIsPermutation(ms: seq<Message>)
    ensures Distinct(Order(ms)) && ByScore(ms, Order(ms))
    ensures forall j, k :: 0 <= j < k < |Order(ms)| ==>
              || Score(ms[Order(ms)[j]]) > Score(ms[Order(ms)[k]])
              || (Score(ms[Order(ms)[j]]) == Score(ms[Order(ms)[k]]) && Order(ms)[j] < Order(ms)[k])
    ensures forall i: nat :: i in Order(ms) <==> i < |ms| && !MustKeep(ms[i])
  {
    var idx := PlainIndices(ms, |ms|);
    SortByScoreSorted(ms, idx);
    forall i: nat
      ensures i in Order(ms) <==> i in idx
    {
      assert i in multiset(Order(ms)) <==> i in multiset(idx);
    }
    assert forall j, k :: 0 <= j < k < |Order(ms)| ==> Precedes(ms, Order(ms)[j], Order(ms)[k]);
  }

  lemma {:induction false} MustFlagTokens(ms: seq<Message>)
    ensures Tokens(Select(ms, MustFlags(ms))) == MustKeepTokens(ms)
  {
    if ms == [] {
    } else {
      MustFlagTokens(ms[1..]);
      assert MustFlags(ms) == [MustKeep(ms[0])] + MustFlags(ms[1..]);
      assert ms == [ms[0]] + ms[1..];
      OneFlag(ms[0], ms[1..], MustFlags(ms[1..]));
    }
  }

  /**
    The recovered messages contain every protected one, cost at most the budget or the protected ones
    alone, and no other message could be added without exceeding the budget.
   */
  lemma {:induction false} ImportantLaws(ms: seq<Message>, budget: int)
    requires budget > 0
    ensures var f := ImportantFlags(ms, budget);
            && Important(ms, budget) == Select(ms, f)
            && IsSubseq(Important(ms, budget), ms)
            && Tokens(Important(ms, budget)) <= Max(budget, MustKeepTokens(ms))
            && (forall i :: 0 <= i < |ms| && MustKeep(ms[i]) ==> f[i])
            && (forall i :: 0 <= i < |ms| && !f[i] ==> Tokens(Important(ms, budget)) + Estimate(ms[i]) > budget)
  {
    hide MustKeep, Score, Estimate, Tokens, Order, IsSubseq;
    var f := ImportantFlags(ms, budget);
    SelectIsSubseq(ms, f);
    MustFlagTokens(ms);
    OrderIsPermutation(ms);
    var left := budget - MustKeepTokens(ms);
    EstimatePositive(ms);
    if left == 0 {
    } else {
      FillLaws(ms, Order(ms), MustFlags(ms), 0, left);
      forall i | 0 <= i < |ms| && !f[i]
        ensures i in Order(ms)
      {
        assert !MustFlags(ms)[i];
      }
    }
  }

  lemma EstimatePositive(ms: seq<Message>)
    ensures forall i :: 0 <= i < |ms| ==> Estimate(ms[i]) > 0
  {
  }

  /** What the candidates before place `p` take, going by the marks. */
  function TakenBefore(ms: seq<Message>, order: seq<nat>, flags: seq<bool>, p: nat): nat
    requires InRange(ms, order) && |flags| == |ms| && p <= |order|
  {
    if p == 0 then 0
    else TakenBefore(ms, order, flags, p - 1) + if flags[order[p - 1]] then Estimate(ms[order[p - 1]]) else 0
  }

  lemma {:induction false} FillSnoc(ms: seq<Message>, order: seq<nat>, flags: seq<bool>, acc: int, budget: int, p: nat)
    requires InRange(ms, order) && |flags| == |ms| && p < |order|
    ensures var before := Fill(ms, order[..p], flags, acc, budget).1;
            Fill(ms, order[..p + 1], flags, acc, budget).1 ==
            if before + Estimate(ms[order[p]]) <= budget then before + Estimate(ms[order[p]]) else before
  {
    hide Estimate;
    if p == 0 {
      assert order[..1][1..] == [] && order[..0] == [];
    } else {
      var fits := acc + Estimate(ms[order[0]]) <= budget;
      FillSnoc(ms, order[1..], if fits then flags[order[0] := true] else flags,
               if fits then acc + Estimate(ms[order[0]]) else acc, budget, p - 1);
      assert order[..p][1..] == order[1..][..p - 1] && order[..p + 1][1..] == order[1..][..p];
    }
  }

  lemma {:induction false} FillIsTaken(ms: seq<Message>, order: seq<nat>, flags: seq<bool>, budget: int, p: nat)
    requires InRange(ms, order) && |flags| == |ms| && Distinct(order) && p <= |order|
    requires forall k :: 0 <= k < |order| ==> !flags[order[k]]
    ensures Fill(ms, order[..p], flags, 0, budget).1 == TakenBefore(ms, order, Fill(ms, order, flags, 0, budget).0, p)
  {
    hide Estimate, Fill;
    if p == 0 {
      NothingToFill(ms, flags, budget);
      assert order[..0] == [];
    } else {
      FillIsTaken(ms, order, flags, budget, p - 1);
      FillDecision(ms, order, flags, 0, budget, p - 1);
      FillSnoc(ms, order, flags, 0, budget, p - 1);
    }
  }

  lemma NothingToFill(ms: seq<Message>, flags: seq<bool>, budget: int)
    requires |flags| == |ms|
    ensures Fill(ms, [], flags, 0, budget) == (flags, 0)
  {
  }

  /** A candidate is recovered exactly when it fits beside the protected messages and the candidates recovered
      before it; those before it score higher, or the same and are older. */
  lemma ImportantByPriority(ms: seq<Message>, budget: int, p: nat)
    requires budget > MustKeepTokens(ms) && p < |Order(ms)|
    ensures var order, f := Order(ms), ImportantFlags(ms, budget);
            && (f[order[p]] <==> MustKeepTokens(ms) + TakenBefore(ms, order, f, p) + Estimate(ms[order[p]]) <= budget)
            && forall q :: 0 <= q < p ==>
                 || Score(ms[order[q]]) > Score(ms[order[p]])
                 || (Score(ms[order[q]]) == Score(ms[order[p]]) && order[q] < order[p])
  {
    hide Order, Estimate, MustKeep, Score, Fill, TakenBefore;
    OrderIsPermutation(ms);
    FillDecision(ms, Order(ms), MustFlags(ms), 0, budget - MustKeepTokens(ms), p);
    FillIsTaken(ms, Order(ms), MustFlags(ms), budget - MustKeepTokens(ms), p);
  }

  // ---------------------------------------------------------------------------------------
  // CompressContext
  // ---------------------------------------------------------------------------------------

  function CalcSlidingWindowSize(contextSize: int): (n: nat)
    ensures n == 6 || n == 12 || n == 20
    ensures n == 6 <==> contextSize <= 8192
    ensures n == 20 <==> contextSize >= 32768
  {
    var size := if contextSize <= 0 then 4096 else contextSize;
    if size <= 8192 then 6 else if size < 32768 then 12 else 20
  }

  /** Larger contexts never get a smaller window. */
  lemma WindowSizeMonotone(a: int, b: int)
    requires 0 < a <= b
    ensures CalcSlidingWindowSize(a) <= CalcSlidingWindowSize(b)
  {
  }

  /** Go's division truncates; the difference is invisible behind the lower bound of 200. */
  function ImportantBudget(contextSize: int): int {
    Max(Min(contextSize / IMPORTANT_BUDGET_RATIO, MAX_IMPORTANT_BUDGET), MIN_IMPORTANT_BUDGET)
  }

  /** A fifth of the context, but never less than 200 nor more than 1000 tokens. */
  lemma BudgetInTokens(contextSize: int)
    ensures var b := ImportantBudget(contextSize);
            && (contextSize <= 1000 ==> b == 200) && (contextSize >= 5000 ==> b == 1000)
            && (1000 < contextSize < 5000 ==> 5 * b <= contextSize < 5 * b + 5)
  {
  }

  datatype Result = Result(messages: seq<Message>, trimmedCount: nat, summaryInserted: bool)

  /** Summaries as stored: the caller's, and the short and long one of the database if it answers. */
  datatype Summaries = Summaries(existing: string, stored: Option<(string, string)>)

  function ShortSummary(s: Summaries): string {
    if s.existing == "" && s.stored.Some? then s.stored.value.0 else s.existing
  }

  function LongSummary(s: Summaries): string { if s.stored.Some? then s.stored.value.1 else "" }

  /** The text of the inserted message; the labels and the joining are left to the caller. */
  function SummaryMessage(s: Summaries, render: (string, string) -> Message): seq<Message> {
    if ShortSummary(s) == "" && LongSummary(s) == "" then []
    else [render(ShortSummary(s), LongSummary(s)).(role := System)]
  }

  function Rest(ms: seq<Message>): seq<Message> { ms[|Head(ms)|..] }

  function WindowStart(ms: seq<Message>, contextSize: int): (k: nat)
    ensures k <= |Rest(ms)|
  {
    |Rest(ms)| - Min(CalcSlidingWindowSize(contextSize), |Rest(ms)|)
  }

  function Older(ms: seq<Message>, contextSize: int): seq<Message> { Rest(ms)[..WindowStart(ms, contextSize)] }

  function Window(ms: seq<Message>, contextSize: int): seq<Message> { Rest(ms)[WindowStart(ms, contextSize)..] }

  function Assembled(ms: seq<Message>, contextSize: int, summary: seq<Message>): seq<Message> {
    Head(ms) + summary + Important(Older(ms, contextSize), ImportantBudget(contextSize)) + Window(ms, contextSize)
  }

  function Compressed(ms: seq<Message>, contextSize: int, summary: seq<Message>): seq<Message> {
    SkipToStart(CleanPairs(Assembled(ms, contextSize, summary)))
  }

  method CompressContext(ms: seq<Message>, contextSize: int, s: Summaries, render: (string, string) -> Message)
    returns (r: Result)
    ensures r.messages == Compressed(ms, contextSize, SummaryMessage(s, render))
    ensures r.trimmedCount == |Older(ms, contextSize)|
    ensures r.summaryInserted <==> s.existing != "" || (s.stored.Some? && s.stored.value.0 != "")
  {
    hide Important, CleanPairs, SkipToStart;
    var result: seq<Message>, rest := [], ms;
    if |rest| > 0 && rest[0].role == System {
      result := [rest[0]];
      rest := rest[1..];
    }
    assert result == Head(ms) && rest == Rest(ms);
    var windowSize := Min(CalcSlidingWindowSize(contextSize), |rest|);
    var windowStart := |rest| - windowSize;
    var kept, trimmed := rest[windowStart..], rest[..windowStart];
    var importantMsgs := SelectImportantMessages(trimmed, ImportantBudget(contextSize));
    var existingSummary, existingLongSummary := s.existing, "";
    if s.stored.Some? {
      if existingSummary == "" { existingSummary := s.stored.value.0; }
      existingLongSummary := s.stored.value.1;
    }
    var summary := [];
    if existingLongSummary != "" || existingSummary != "" {
      summary := [render(existingSummary, existingLongSummary).(role := System)];
    }
    result := result + summary + importantMsgs + kept;
    result := CleanToolCallPairs(result);
    result := EnsureStartsWithUserOrSystem(result);
    r := Result(result, |trimmed|, existingSummary != "");
  }

  lemma MiddleSubseq(front: seq<Message>, a: seq<Message>, b: seq<Message>, back: seq<Message>)
    requires IsSubseq(a, b)
    ensures IsSubseq(front + a + back, front + b + back)
  {
    hide IsSubseq;
    SubseqRefl(front);
    SubseqRefl(back);
    SubseqAppend(front, front, a, b);
    SubseqAppend(front + a, front + b, back, back);
  }

  lemma RestSplit(ms: seq<Message>, contextSize: int, front: seq<Message>)
    ensures front + Older(ms, contextSize) + Window(ms, contextSize) == front + Rest(ms)
  {
    hide Rest;
    assert Rest(ms) == Older(ms, contextSize) + Window(ms, contextSize);
  }

  /** The window: everything behind a system message if there are few messages, else the last 6, 12 or 20. */
  lemma WindowMeaning(ms: seq<Message>, contextSize: int)
    ensures var n := if contextSize <= 8192 then 6 else if contextSize < 32768 then 12 else 20;
            var rest := if ms != [] && ms[0].role == System then ms[1..] else ms;
            && Older(ms, contextSize) + Window(ms, contextSize) == rest
            && |Window(ms, contextSize)| == if |rest| <= n then |rest| else n
  {
  }

  /** A summary is inserted exactly when the caller or the store has one; the caller's short one comes first. */
  lemma SummaryMeaning(s: Summaries, render: (string, string) -> Message)
    ensures var long := if s.stored.Some? then s.stored.value.1 else "";
            var short := if s.existing != "" || s.stored.None? then s.existing else s.stored.value.0;
            && (SummaryMessage(s, render) == [] <==> short == "" && long == "")
            && (short != "" || long != "" ==> SummaryMessage(s, render) == [render(short, long).(role := System)])
  {
  }

  /** Apart from the inserted summary, the result keeps the order of the request and its shape is sound. */
  lemma {:induction false} CompressedShape(ms: seq<Message>, contextSize: int, summary: seq<Message>)
    ensures var r := Compressed(ms, contextSize, summary);
            && IsSubseq(r, Head(ms) + summary + Rest(ms))
            && WellPaired(r)
            && (r != [] ==> StartsConversation(r[0]))
  {
    hide IsSubseq, CleanPairs, SkipToStart, Important, WellPaired, Head, Rest, Older, Window;
    var older, front := Older(ms, contextSize), Head(ms) + summary;
    ImportantLaws(older, ImportantBudget(contextSize));
    MiddleSubseq(front, Important(older, ImportantBudget(contextSize)), older, Window(ms, contextSize));
    RestSplit(ms, contextSize, front);
    CleanedShape(Assembled(ms, contextSize, summary));
    SubseqTrans(Compressed(ms, contextSize, summary), Assembled(ms, contextSize, summary), front + Rest(ms));
  }

  /** What the compressed request costs at most. */
  lemma CompressedBudget(ms: seq<Message>, contextSize: int, summary: seq<Message>)
    ensures Tokens(Compressed(ms, contextSize, summary)) <=
            Tokens(Head(ms)) + Tokens(summary) + Tokens(Window(ms, contextSize)) +
            Max(ImportantBudget(contextSize), MustKeepTokens(Older(ms, contextSize)))
  {
    hide IsSubseq, CleanPairs, SkipToStart, Important, WellPaired, Head, Rest, Older, Window, MustKeepTokens;
    var older, front := Older(ms, contextSize), Head(ms) + summary;
    var important := Important(older, ImportantBudget(contextSize));
    ImportantLaws(older, ImportantBudget(contextSize));
    CleanedShape(Assembled(ms, contextSize, summary));
    SubseqTokens(Compressed(ms, contextSize, summary), Assembled(ms, contextSize, summary));
    TokensAppend(front + important, Window(ms, contextSize));
    TokensAppend(front, important);
    TokensAppend(Head(ms), summary);
  }

  lemma SystemOnly(front: seq<Message>)
    requires forall m :: m in front ==> m.role == System
    ensures Users(front) == []
  {
    NoUsers(front);
  }

  /** Every user message of the window survives, and so does every recovered one. */
  lemma CompressedKeepsUsers(ms: seq<Message>, contextSize: int, summary: seq<Message>)
    requires forall m :: m in summary ==> m.role == System
    ensures Users(Compressed(ms, contextSize, summary)) ==
            Users(Important(Older(ms, contextSize), ImportantBudget(contextSize))) + Users(Window(ms, contextSize))
  {
    hide CleanPairs, SkipToStart, Important, Users, Older, Window;
    var front := Head(ms) + summary;
    SystemOnly(front);
    hide Head;
    var important := Important(Older(ms, contextSize), ImportantBudget(contextSize));
    CleaningKeepsUsers(Assembled(ms, contextSize, summary));
    UsersAppend(front + important, Window(ms, contextSize));
    UsersAppend(front, important);
    assert [] + Users(important) == Users(important);
  }

  lemma CleanKeepsSystemHead(first: Message, rest: seq<Message>)
    requires first.role == System
    ensures var r := SkipToStart(CleanPairs([first] + rest)); r != [] && r[0] == first
  {
    var all := [first] + rest;
    assert all[0] == first && all[1..] == rest;
    assert CleanPairs(all) == [first] + DropOrphans(rest);
  }

  /** With a system message or a summary in front, nothing is skipped at the start. */
  lemma CompressedKeepsHead(ms: seq<Message>, contextSize: int, summary: seq<Message>)
    requires forall m :: m in summary ==> m.role == System
    requires Head(ms) + summary != []
    ensures var r := Compressed(ms, contextSize, summary); r != [] && r[0] == (Head(ms) + summary)[0]
  {
    var front := Head(ms) + summary;
    assert front[0] in front && front[0].role == System;
    hide Important, CleanPairs, SkipToStart, Head, Older, Window;
    var all := Assembled(ms, contextSize, summary);
    CleanKeepsSystemHead(front[0], all[1..]);
    assert all == [front[0]] + all[1..];
  }

  /** The marks of what goes into the cleaning: all of the front and the window, the selection of the older messages. */
  function PickedForWindow(ms: seq<Message>, contextSize: int, summary: seq<Message>): (f: seq<bool>)
    ensures |f| == |Head(ms) + summary + Older(ms, contextSize) + Window(ms, contextSize)|
  {
    AllMarked(|Head(ms) + summary|) + ImportantFlags(Older(ms, contextSize), ImportantBudget(contextSize)) +
    AllMarked(|Window(ms, contextSize)|)
  }

  lemma AssembledIsSelection(ms: seq<Message>, contextSize: int, summary: seq<Message>)
    ensures Assembled(ms, contextSize, summary) ==
            Select(Head(ms) + summary + Older(ms, contextSize) + Window(ms, contextSize), PickedForWindow(ms, contextSize, summary))
  {
    hide Select, ImportantFlags, Head, Older, Window;
    var front, older, window := Head(ms) + summary, Older(ms, contextSize), Window(ms, contextSize);
    var f := ImportantFlags(older, ImportantBudget(contextSize));
    SelectAppend(front + older, AllMarked(|front|) + f, window, AllMarked(|window|));
    SelectAppend(front, AllMarked(|front|), older, f);
    SelectAll(front);
    SelectAll(window);
    if older == [] { NothingSelected(older, f); }
  }

  /** The compressed request holds exactly the messages that survive the cleaning of what was assembled. */
  lemma CompressedExactly(ms: seq<Message>, contextSize: int, summary: seq<Message>) returns (flags: seq<bool>)
    ensures var all := Head(ms) + summary + Older(ms, contextSize) + Window(ms, contextSize);
            && |flags| == |all| && Compressed(ms, contextSize, summary) == Select(all, flags)
            && forall i :: 0 <= i < |all| ==> (flags[i] <==> Survives(all, PickedForWindow(ms, contextSize, summary), i))
  {
    hide Select, Survives, CleanPairs, SkipToStart, Head, Older, Window, PickedForWindow, Assembled;
    AssembledIsSelection(ms, contextSize, summary);
    flags := CleanedSelection(Head(ms) + summary + Older(ms, contextSize) + Window(ms, contextSize),
                              PickedForWindow(ms, contextSize, summary));
  }

  /** A stored long summary is inserted without being reported. */
  lemma LongSummaryUnreported(render: (string, string) -> Message)
    ensures var s := Summaries("", Some(("", "long")));
            |SummaryMessage(s, render)| == 1 && ShortSummary(s) == ""
  {
  }

  /** The reported flag speaks of the short summary only: a stored long summary is inserted silently. */
  lemma SummaryFlagExact(s: Summaries, render: (string, string) -> Message)
    ensures (SummaryMessage(s, render) != [] <==> ShortSummary(s) != "") <==>
            (LongSummary(s) == "" || ShortSummary(s) != "")
  {
  }
}
