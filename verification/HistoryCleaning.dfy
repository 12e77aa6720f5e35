/**
  `cleanHistoryMessages`: repairing a stored conversation that was cut at an arbitrary point.
 */
module HistoryCleaning {
  import opened Options
  import opened Subsequences
  import opened Messages
  import opened PairCleaning

  // ---------------------------------------------------------------------------------------
  // Specification of the three steps
  // ---------------------------------------------------------------------------------------

  predicate Answers(m: Message, id: string) { m.role == Tool && id != "" && m.toolId == id }

  /** Position of the first tool message that answers `id`, or the length when there is none. */
  function FirstAnswer(h: seq<Message>, id: string): (k: nat)
    ensures k <= |h|
    ensures k < |h| ==> Answers(h[k], id)
    ensures forall i :: 0 <= i < k ==> !Answers(h[i], id)
  {
    if h == [] then 0 else if Answers(h[0], id) then 0 else 1 + FirstAnswer(h[1..], id)
  }

  /** The caller at `i` has a call whose first answer comes later. */
  predicate Answered(h: seq<Message>, i: nat)
    requires i < |h|
  {
    exists c :: 0 <= c < |h[i].calls| && i < FirstAnswer(h, h[i].calls[c]) < |h|
  }

  predicate EndsWithCaller(ms: seq<Message>) { ms != [] && IsCaller(ms[|ms| - 1]) }

  predicate KeptInSweep(h: seq<Message>, cleaned: seq<Message>, i: nat)
    requires i < |h|
  {
    if h[i].role == Tool then EndsWithCaller(cleaned)
    else IsCaller(h[i]) ==> Answered(h, i)
  }

  /** Step 2 after the first `n` messages. */
  function Sweep(h: seq<Message>, n: nat): seq<Message>
    requires n <= |h|
  {
    if n == 0 then []
    else
      var cleaned := Sweep(h, n - 1);
      if KeptInSweep(h, cleaned, n - 1) then cleaned + [h[n - 1]] else cleaned
  }

  /** Step 3: of adjacent assistant messages the last one stays. */
  function Merge(ms: seq<Message>): seq<Message> {
    if ms == [] then []
    else
      var merged, m := Merge(ms[..|ms| - 1]), ms[|ms| - 1];
      if merged != [] && merged[|merged| - 1].role == Assistant && m.role == Assistant
      then merged[..|merged| - 1] + [m]
      else merged + [m]
  }

  function CleanHistory(ms: seq<Message>): seq<Message> {
    var h := SkipToStart(ms);
    Merge(Sweep(h, |h|))
  }

  // ---------------------------------------------------------------------------------------
  // The loops
  // ---------------------------------------------------------------------------------------

  method IndexToolMessages(h: seq<Message>) returns (index: map<string, nat>)
    ensures forall id :: id in index <==> FirstAnswer(h, id) < |h|
    ensures forall id :: id in index ==> index[id] == FirstAnswer(h, id)
  {
    index := map[];
    for i := 0 to |h|
      invariant forall id :: id in index ==> index[id] < i && Answers(h[index[id]], id)
      invariant forall id, j :: 0 <= j < i && Answers(h[j], id) ==> id in index && index[id] <= j
    {
      var m := h[i];
      if m.role == Tool && m.toolId != "" {
        if m.toolId !in index {
          index := index[m.toolId := i];
        }
      }
    }
  }

  method HasLaterAnswer(h: seq<Message>, i: nat, index: map<string, nat>) returns (found: bool)
    requires i < |h|
    requires forall id :: id in index <==> FirstAnswer(h, id) < |h|
    requires forall id :: id in index ==> index[id] == FirstAnswer(h, id)
    ensures found == Answered(h, i)
  {
    hide FirstAnswer;
    for c := 0 to |h[i].calls|
      invariant forall d :: 0 <= d < c ==> !(i < FirstAnswer(h, h[i].calls[d]) < |h|)
    {
      var id := h[i].calls[c];
      if id in index && index[id] > i { return true; }
    }
    return false;
  }

  method SweepHistory(h: seq<Message>) returns (cleaned: seq<Message>)
    ensures cleaned == Sweep(h, |h|)
  {
    var index := IndexToolMessages(h);
    hide FirstAnswer, Answered;
    cleaned := [];
    for i := 0 to |h|
      invariant cleaned == Sweep(h, i)
    {
      var msg := h[i];
      if msg.role == Tool {
        if |cleaned| > 0 && cleaned[|cleaned| - 1].role == Assistant && |cleaned[|cleaned| - 1].calls| > 0 {
          cleaned := cleaned + [msg];
        }
        continue;
      }
      if msg.role == Assistant && |msg.calls| > 0 {
        var hasFollowingTool := HasLaterAnswer(h, i, index);
        if hasFollowingTool {
          cleaned := cleaned + [msg];
        }
        continue;
      }
      cleaned := cleaned + [msg];
    }
  }

  method MergeAssistants(ms: seq<Message>) returns (merged: seq<Message>)
    ensures merged == Merge(ms)
  {
    merged := [];
    for i := 0 to |ms|
      invariant merged == Merge(ms[..i])
    {
      assert ms[..i + 1][..i] == ms[..i];
      if |merged| > 0 && merged[|merged| - 1].role == Assistant && ms[i].role == Assistant {
        merged := merged[|merged| - 1 := ms[i]];
      } else {
        merged := merged + [ms[i]];
      }
    }
    assert ms[..|ms|] == ms;
  }

  method CleanHistoryMessages(history: seq<Message>) returns (r: seq<Message>)
    ensures r == CleanHistory(history)
  {
    var h := EnsureStartsWithUserOrSystem(history);
    var cleaned := SweepHistory(h);
    r := MergeAssistants(cleaned);
  }

  // ---------------------------------------------------------------------------------------
  // Shape of the result, for every input
  // ---------------------------------------------------------------------------------------

  predicate ToolsFollowCallers(ms: seq<Message>) {
    forall i :: 0 <= i < |ms| && ms[i].role == Tool ==> i > 0 && IsCaller(ms[i - 1])
  }

  predicate NoAdjacentAssistants(ms: seq<Message>) {
    forall i :: 0 < i < |ms| ==> !(ms[i - 1].role == Assistant && ms[i].role == Assistant)
  }

  lemma {:induction false} SweepShape(h: seq<Message>, n: nat)
    requires n <= |h| && (h != [] ==> StartsConversation(h[0]))
    ensures var c := Sweep(h, n);
            && ToolsFollowCallers(c) && IsSubseq(c, h[..n])
            && (n > 0 ==> c != [] && c[0] == h[0])
  {
    hide Answered, IsSubseq;
    if n == 0 {
      SubseqRefl(h[..0]);
      assert h[..0] == [];
    } else {
      SweepShape(h, n - 1);
      var c := Sweep(h, n - 1);
      var m := h[n - 1];
      assert h[..n] == h[..n - 1] + [m];
      SubseqSnoc(c, h[..n - 1], m);
    }
  }

  lemma SubseqSnoc<T>(a: seq<T>, b: seq<T>, x: T)
    requires IsSubseq(a, b)
    ensures IsSubseq(a, b + [x]) && IsSubseq(a + [x], b + [x])
  {
    hide IsSubseq;
    SubseqRefl([x]);
    SubseqAppend(a, b, [x], [x]);
    EmptySubseq([x]);
    SubseqAppend(a, b, [], [x]);
    assert a + [] == a;
  }

  lemma {:induction false} SubseqInit<T>(a: seq<T>, b: seq<T>)
    requires a != [] && IsSubseq(a, b)
    ensures IsSubseq(a[..|a| - 1], b)
    decreases |b|
  {
    if |a| > 1 {
      if a[0] == b[0] && IsSubseq(a[1..], b[1..]) {
        SubseqInit(a[1..], b[1..]);
        assert a[1..][..|a| - 2] == a[..|a| - 1][1..];
      } else {
        SubseqInit(a, b[1..]);
      }
    }
  }

  lemma {:induction false} MergeEnds(ms: seq<Message>)
    requires ms != []
    ensures Merge(ms) != [] && Merge(ms)[|Merge(ms)| - 1] == ms[|ms| - 1]
    ensures ms[0].role != Assistant ==> Merge(ms)[0] == ms[0]
  {
    if |ms| > 1 { MergeEnds(ms[..|ms| - 1]); }
  }

  lemma {:induction false} MergeIsSubseq(ms: seq<Message>)
    ensures IsSubseq(Merge(ms), ms)
  {
    hide IsSubseq;
    if ms == [] {
      EmptySubseq(ms);
    } else {
      var init, m := ms[..|ms| - 1], ms[|ms| - 1];
      var merged := Merge(init);
      MergeIsSubseq(init);
      assert ms == init + [m];
      SubseqSnoc(merged, init, m);
      if merged != [] {
        SubseqInit(merged, init);
        SubseqSnoc(merged[..|merged| - 1], init, m);
      }
    }
  }

  lemma {:induction false} MergeNoAdjacent(ms: seq<Message>)
    ensures NoAdjacentAssistants(Merge(ms))
  {
    if ms == [] {
    } else {
      MergeNoAdjacent(ms[..|ms| - 1]);
    }
  }

  lemma {:induction false} MergeTools(ms: seq<Message>)
    requires ToolsFollowCallers(ms)
    ensures ToolsFollowCallers(Merge(ms))
  {
    if ms == [] {
    } else {
      var init, m := ms[..|ms| - 1], ms[|ms| - 1];
      MergeTools(init);
      if init != [] { MergeEnds(init); }
      LastKeepsTools(Merge(init), m);
    }
  }

  lemma LastKeepsTools(merged: seq<Message>, m: Message)
    requires ToolsFollowCallers(merged)
    requires m.role == Tool ==> merged != [] && IsCaller(merged[|merged| - 1])
    ensures ToolsFollowCallers(merged + [m])
    ensures merged != [] && m.role == Assistant ==> ToolsFollowCallers(merged[..|merged| - 1] + [m])
  {
  }

  /** For every input: an order-preserving selection that starts a conversation, has no two assistant
      messages in a row, and whose tool messages directly follow a tool call. */
  lemma CleanHistoryShape(ms: seq<Message>)
    ensures var r := CleanHistory(ms);
            && IsSubseq(r, ms)
            && (r != [] ==> StartsConversation(r[0]))
            && NoAdjacentAssistants(r)
            && ToolsFollowCallers(r)
  {
    hide IsSubseq, Sweep, Merge, ToolsFollowCallers, NoAdjacentAssistants;
    var k := SkipToStartIsSuffix(ms);
    var h := ms[k..];
    var c := Sweep(h, |h|);
    SweepShape(h, |h|);
    assert h[..|h|] == h;
    MergeTools(c);
    MergeNoAdjacent(c);
    MergeIsSubseq(c);
    SubseqTrans(Merge(c), c, h);
    SuffixIsSubseq(ms, k);
    SubseqTrans(Merge(c), h, ms);
    if h == [] { SubseqLength(Merge(c), h); } else { MergeEnds(c); }
  }

  // ---------------------------------------------------------------------------------------
  // Which histories are left alone
  // ---------------------------------------------------------------------------------------

  predicate AllAnswered(ms: seq<Message>) {
    forall i :: 0 <= i < |ms| && IsCaller(ms[i]) ==> Answered(ms, i)
  }

  predicate Tidy(ms: seq<Message>) {
    && (ms != [] ==> StartsConversation(ms[0]))
    && ToolsFollowCallers(ms) && NoAdjacentAssistants(ms) && AllAnswered(ms)
  }

  lemma {:induction false} SweepIdentity(h: seq<Message>, n: nat)
    requires n <= |h| && ToolsFollowCallers(h) && AllAnswered(h)
    ensures Sweep(h, n) == h[..n]
  {
    hide Answered;
    if n == 0 {
    } else {
      SweepIdentity(h, n - 1);
      assert h[..n] == h[..n - 1] + [h[n - 1]];
    }
  }

  lemma {:induction false} MergeIdentity(ms: seq<Message>)
    requires NoAdjacentAssistants(ms)
    ensures Merge(ms) == ms
  {
    if ms == [] {
    } else {
      MergeIdentity(ms[..|ms| - 1]);
      assert ms == ms[..|ms| - 1] + [ms[|ms| - 1]];
    }
  }

  lemma {:induction false} SweepLength(h: seq<Message>, n: nat)
    requires n <= |h|
    ensures |Sweep(h, n)| <= n
    ensures |Sweep(h, n)| == n ==> forall i :: 0 <= i < n && IsCaller(h[i]) ==> Answered(h, i)
  {
    hide Answered;
    if n == 0 {
    } else {
      SweepLength(h, n - 1);
    }
  }

  lemma {:induction false} MergeLength(ms: seq<Message>)
    ensures |Merge(ms)| <= |ms|
  {
    if ms == [] {
    } else {
      MergeLength(ms[..|ms| - 1]);
    }
  }

  /** A history is left unchanged exactly when it is tidy. */
  lemma CleanHistoryIdentityIff(ms: seq<Message>)
    ensures CleanHistory(ms) == ms <==> Tidy(ms)
  {
    hide Sweep, Merge, Answered, ToolsFollowCallers, NoAdjacentAssistants, IsSubseq;
    CleanHistoryShape(ms);
    var k := SkipToStartIsSuffix(ms);
    var h := ms[k..];
    SweepLength(h, |h|);
    MergeLength(Sweep(h, |h|));
    if CleanHistory(ms) == ms {
      assert k == 0 && h == ms;
    }
    if Tidy(ms) {
      assert SkipToStart(ms) == ms;
      SweepIdentity(h, |h|);
      assert h[..|h|] == h;
      MergeIdentity(h);
    }
  }

  /** A cleaned history fails to be tidy only by a call that lost its answer. */
  lemma CleanHistoryFixedIff(ms: seq<Message>)
    ensures CleanHistory(CleanHistory(ms)) == CleanHistory(ms) <==> AllAnswered(CleanHistory(ms))
  {
    hide CleanHistory, Answered, IsSubseq;
    CleanHistoryShape(ms);
    CleanHistoryIdentityIff(CleanHistory(ms));
  }

  lemma SweepStep(h: seq<Message>, n: nat)
    requires n < |h|
    ensures Sweep(h, n + 1) == if KeptInSweep(h, Sweep(h, n), n) then Sweep(h, n) + [h[n]] else Sweep(h, n)
  {
  }

  lemma FirstPass(u: Message, c: Message, t: Message)
    requires u.role == User && c.role == Assistant && t.role == Tool
    requires c.calls == ["x"] && t.toolId == "x"
    ensures CleanHistory([u, c, u, t]) == [u, c, u]
  {
    var h := [u, c, u, t];
    assert Answers(h[3], "x") && !Answers(h[0], "x") && !Answers(h[1], "x") && !Answers(h[2], "x");
    assert FirstAnswer(h, "x") == 3;
    assert h[1].calls[0] == "x" && Answered(h, 1);
    hide FirstAnswer, Answered, Sweep;
    EmptySweep(h);
    SweepStep(h, 0);
    assert Sweep(h, 1) == [u];
    SweepStep(h, 1);
    assert Sweep(h, 2) == [u, c];
    SweepStep(h, 2);
    assert Sweep(h, 3) == [u, c, u];
    SweepStep(h, 3);
    assert SkipToStart(h) == h;
    MergeIdentity([u, c, u]);
  }

  lemma SecondPass(u: Message, c: Message)
    requires u.role == User && c.role == Assistant && c.calls == ["x"]
    ensures CleanHistory([u, c, u]) == [u, u]
  {
    var g := [u, c, u];
    assert !Answers(g[0], "x") && !Answers(g[1], "x") && !Answers(g[2], "x");
    assert FirstAnswer(g, "x") == 3;
    assert !Answered(g, 1);
    hide FirstAnswer, Answered, Sweep;
    EmptySweep(g);
    SweepStep(g, 0);
    SweepStep(g, 1);
    SweepStep(g, 2);
    MergeIdentity([u, u]);
  }

  /** It is not idempotent in general: a call whose answer was dropped stays for one more round. */
  lemma CleanHistoryNotIdempotent(u: Message, c: Message, t: Message)
    requires u.role == User && c.role == Assistant && t.role == Tool
    requires c.calls == ["x"] && t.toolId == "x"
    ensures CleanHistory([u, c, u, t]) == [u, c, u] && CleanHistory([u, c, u]) == [u, u]
  {
    hide CleanHistory;
    FirstPass(u, c, t);
    SecondPass(u, c);
  }

  lemma EmptySweep(h: seq<Message>)
    ensures Sweep(h, 0) == []
  {
  }
}
