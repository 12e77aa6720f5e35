/**
  When cleaning a history a second time changes nothing, in terms of the history before the cleaning.
 */
module HistoryIdempotence {
  import opened Subsequences
  import opened Messages
  import opened PairCleaning
  import opened HistoryCleaning

  // ---------------------------------------------------------------------------------------
  // What each step keeps, by position
  // ---------------------------------------------------------------------------------------

  /** Only unanswered calls, which are dropped, stand between an answered call at `i` and position `n`. */
  predicate OpenedBy(h: seq<Message>, i: nat, n: nat)
    requires i < n <= |h|
  {
    && IsCaller(h[i]) && Answered(h, i)
    && forall l :: i < l < n ==> IsCaller(h[l]) && !Answered(h, l)
  }

  predicate CallOpen(h: seq<Message>, n: nat)
    requires n <= |h|
  {
    exists i :: 0 <= i < n && OpenedBy(h, i, n)
  }

  /** Whether the sweep keeps position `j`. */
  predicate Swept(h: seq<Message>, j: nat)
    requires j < |h|
  {
    if h[j].role == Tool then CallOpen(h, j) else IsCaller(h[j]) ==> Answered(h, j)
  }

  predicate NextSwept(h: seq<Message>, j: nat, k: nat)
    requires j < k < |h|
  {
    Swept(h, k) && forall l :: j < l < k ==> !Swept(h, l)
  }

  /** An assistant message gives way to the assistant message that follows it after the sweep. */
  predicate MergedAway(h: seq<Message>, j: nat)
    requires j < |h|
  {
    h[j].role == Assistant && exists k :: j < k < |h| && NextSwept(h, j, k) && h[k].role == Assistant
  }

  predicate KeptTool(h: seq<Message>, j: nat, id: string)
    requires j < |h|
  {
    Answers(h[j], id) && CallOpen(h, j)
  }

  /** The first kept answer to `id` lies at `j`. */
  predicate FirstKeptAnswer(h: seq<Message>, id: string, j: nat)
    requires j < |h|
  {
    KeptTool(h, j, id) && forall l :: 0 <= l < j ==> !KeptTool(h, l, id)
  }

  /** One of the calls at `i` has its first kept answer behind it. */
  predicate StillAnswered(h: seq<Message>, i: nat)
    requires i < |h|
  {
    exists c, j :: 0 <= c < |h[i].calls| && i < j < |h| && FirstKeptAnswer(h, h[i].calls[c], j)
  }

  /** Every call that the cleaning keeps still has its answer. */
  predicate CallsKeepAnswers(h: seq<Message>) {
    forall i :: 0 <= i < |h| && IsCaller(h[i]) && Answered(h, i) && !MergedAway(h, i) ==> StillAnswered(h, i)
  }

  // ---------------------------------------------------------------------------------------
  // The sweep
  // ---------------------------------------------------------------------------------------

  function SweptFlags(h: seq<Message>): (f: seq<bool>)
    ensures |f| == |h|
  {
    seq(|h|, j requires 0 <= j < |h| => Swept(h, j))
  }

  lemma CallOpenStep(h: seq<Message>, n: nat)
    requires n < |h|
    ensures CallOpen(h, n + 1) <==> IsCaller(h[n]) && (Answered(h, n) || CallOpen(h, n))
  {
    hide Answered;
    if CallOpen(h, n + 1) {
      var i :| 0 <= i < n + 1 && OpenedBy(h, i, n + 1);
      if i < n { assert OpenedBy(h, i, n); }
    }
    if IsCaller(h[n]) {
      if Answered(h, n) {
        assert OpenedBy(h, n, n + 1);
      } else if CallOpen(h, n) {
        var i :| 0 <= i < n && OpenedBy(h, i, n);
        assert OpenedBy(h, i, n + 1);
      }
    }
  }

  lemma {:induction false} SweepIsSelection(h: seq<Message>, n: nat)
    requires n <= |h|
    ensures Sweep(h, n) == Select(h[..n], SweptFlags(h)[..n])
    ensures EndsWithCaller(Sweep(h, n)) <==> CallOpen(h, n)
  {
    hide Answered, Select;
    if n == 0 {
      NothingSelected(h[..0], SweptFlags(h)[..0]);
    } else {
      SweepIsSelection(h, n - 1);
      CallOpenStep(h, n - 1);
      SelectSnoc(h, SweptFlags(h), n - 1);
      var c := Sweep(h, n - 1);
      assert c + [] == c;
      hide CallOpen;
    }
  }

  // ---------------------------------------------------------------------------------------
  // The merge
  // ---------------------------------------------------------------------------------------

  predicate LastOfRun(ms: seq<Message>, i: nat)
    requires i < |ms|
  {
    !(ms[i].role == Assistant && i + 1 < |ms| && ms[i + 1].role == Assistant)
  }

  function LastFlags(ms: seq<Message>): (f: seq<bool>)
    ensures |f| == |ms|
  {
    seq(|ms|, i requires 0 <= i < |ms| => LastOfRun(ms, i))
  }

  lemma LastFlagsSnoc(ms: seq<Message>, n: nat)
    requires n + 1 == |ms| && n > 0
    ensures var f, g := LastFlags(ms), LastFlags(ms[..n]);
            && f[n] && g[n - 1] && f[..n][..n - 1] == g[..n - 1]
            && (f[n - 1] <==> !(ms[n - 1].role == Assistant && ms[n].role == Assistant))
  {
  }

  lemma {:induction false} MergeIsSelection(ms: seq<Message>)
    ensures Merge(ms) == Select(ms, LastFlags(ms))
  {
    hide Merge, Select, LastFlags;
    var f := LastFlags(ms);
    if ms == [] {
      NothingSelected(ms, f);
      MergeNothing();
    } else if |ms| == 1 {
      MergeNothing();
      assert ms == [] + [ms[0]];
      MergeSnoc([], ms[0], [], ms[0]);
      SelectSnoc(ms, f, 0);
      NothingSelected(ms[..0], f[..0]);
      assert ms[..0 + 1] == ms && f[..0 + 1] == f;
      assert f[0] by { assert LastOfRun(ms, 0); LastFlagsAt(ms, 0); }
    } else {
      var n := |ms| - 1;
      var init := ms[..n];
      var g := LastFlags(init);
      MergeIsSelection(init);
      LastFlagsSnoc(ms, n);
      SelectSnoc(ms, f, n);
      SelectSnoc(init, g, n - 1);
      SelectSnoc(init, f[..n], n - 1);
      assert ms[..n + 1] == ms && f[..n + 1] == f;
      assert init[..n - 1 + 1] == init && g[..n - 1 + 1] == g && f[..n][..n - 1 + 1] == f[..n];
      var front := Select(init[..n - 1], g[..n - 1]);
      assert front + [] == front;
      assert ms == init + [ms[n]];
      MergeSnoc(init, ms[n], front, init[n - 1]);
    }
  }

  lemma LastFlagsAt(ms: seq<Message>, i: nat)
    requires i < |ms|
    ensures LastFlags(ms)[i] == LastOfRun(ms, i)
  {
  }

  lemma MergeNothing()
    ensures Merge([]) == []
  {
  }

  lemma MergeSnoc(init: seq<Message>, m: Message, front: seq<Message>, last: Message)
    requires Merge(init) == (if init == [] then [] else front + [last])
    ensures Merge(init + [m]) ==
            if init == [] then [m]
            else if last.role == Assistant && m.role == Assistant then front + [m] else front + [last] + [m]
  {
    assert (init + [m])[..|init|] == init;
  }

  /** The marks of the whole cleaning: swept in, and not merged away. */
  function FinalFlags(h: seq<Message>): (f: seq<bool>)
    ensures |f| == |h|
  {
    seq(|h|, j requires 0 <= j < |h| => Swept(h, j) && !MergedAway(h, j))
  }

  lemma RunEndsIff(h: seq<Message>, j: nat)
    requires j < |h| && Swept(h, j)
    ensures var f := SweptFlags(h);
            var c, p := Select(h, f), Rank(f, j);
            p < |c| && (LastOfRun(c, p) <==> !MergedAway(h, j))
  {
    hide Swept, Select, Rank;
    var f := SweptFlags(h);
    var c, p := Select(h, f), Rank(f, j);
    SelectAt(h, f, j);
    assert Rank(f, j + 1) == p + 1 by { RankStep(f, j); }
    assert |c| == Rank(f, |h|) by { RankIsLength(h, f, |h|); assert h[..|h|] == h && f[..|h|] == f; }
    if p + 1 < |c| {
      var k := SelectedFrom(h, f, p + 1, |h|);
      if k <= j { RankGrows(f, k, j); }
      RankSkips(f, j + 1, k);
      SelectAt(h, f, k);
      forall l | j < l < k
        ensures !Swept(h, l)
      {
        assert !f[l];
      }
      assert NextSwept(h, j, k);
    }
    if MergedAway(h, j) {
      var k :| j < k < |h| && NextSwept(h, j, k) && h[k].role == Assistant;
      RankSkips(f, j + 1, k);
      SelectAt(h, f, k);
    }
  }

  lemma RankStep(f: seq<bool>, j: nat)
    requires j < |f|
    ensures Rank(f, j + 1) == Rank(f, j) + if f[j] then 1 else 0
  {
  }

  /** Sweep and merge together select exactly the positions marked by `FinalFlags`. */
  lemma CleanedIsSelection(h: seq<Message>)
    ensures Merge(Sweep(h, |h|)) == Select(h, FinalFlags(h))
  {
    hide Swept, MergedAway, Select, Rank, Sweep, Merge, LastFlags;
    var f := SweptFlags(h);
    var c := Select(h, f);
    SweepIsSelection(h, |h|);
    assert h[..|h|] == h && f[..|h|] == f;
    MergeIsSelection(c);
    var g := LastFlags(c);
    RankIsLength(h, f, |h|);
    SelectCompose(h, f, g, |h|);
    assert g[..|g|] == g && Compose(f, g)[..|h|] == Compose(f, g);
    forall j | 0 <= j < |h|
      ensures Compose(f, g)[j] == FinalFlags(h)[j]
    {
      if Swept(h, j) {
        RunEndsIff(h, j);
        LastFlagsAt(c, Rank(f, j));
      }
    }
    assert Compose(f, g) == FinalFlags(h);
  }

  // ---------------------------------------------------------------------------------------
  // Answers inside a selection
  // ---------------------------------------------------------------------------------------

  predicate FirstMarkedAnswer(h: seq<Message>, fl: seq<bool>, id: string, j: nat)
    requires |fl| == |h| && j < |h|
  {
    fl[j] && Answers(h[j], id) && forall l :: 0 <= l < j ==> !(fl[l] && Answers(h[l], id))
  }

  lemma FirstAnswerAt(h: seq<Message>, fl: seq<bool>, id: string, j: nat)
    requires |fl| == |h| && j < |h| && FirstMarkedAnswer(h, fl, id, j)
    ensures FirstAnswer(Select(h, fl), id) == Rank(fl, j) < |Select(h, fl)|
  {
    hide Select, Rank, FirstAnswer, Answers;
    var r, p := Select(h, fl), Rank(fl, j);
    SelectAt(h, fl, j);
    var q := FirstAnswer(r, id);
    assert Answers(r[p], id) && q <= p;
    if q < p {
      var l := SelectedFrom(h, fl, q, j);
      SelectAt(h, fl, l);
      assert false;
    }
  }

  lemma FirstAnswerFrom(h: seq<Message>, fl: seq<bool>, id: string) returns (j: nat)
    requires |fl| == |h| && FirstAnswer(Select(h, fl), id) < |Select(h, fl)|
    ensures j < |h| && FirstMarkedAnswer(h, fl, id, j) && Rank(fl, j) == FirstAnswer(Select(h, fl), id)
  {
    hide Select, Rank, FirstAnswer, Answers;
    var r := Select(h, fl);
    var q := FirstAnswer(r, id);
    RankIsLength(h, fl, |h|);
    assert h[..|h|] == h && fl[..|h|] == fl;
    j := SelectedFrom(h, fl, q, |h|);
    SelectAt(h, fl, j);
    forall l | 0 <= l < j
      ensures !(fl[l] && Answers(h[l], id))
    {
      if fl[l] {
        SelectAt(h, fl, l);
        RankGrows(fl, l, j);
      }
    }
  }

  predicate AnsweredIn(h: seq<Message>, fl: seq<bool>, i: nat)
    requires |fl| == |h| && i < |h|
  {
    exists c, j :: 0 <= c < |h[i].calls| && i < j < |h| && FirstMarkedAnswer(h, fl, h[i].calls[c], j)
  }

  lemma AnsweredInSelection(h: seq<Message>, fl: seq<bool>, i: nat)
    requires |fl| == |h| && i < |h| && fl[i]
    ensures Rank(fl, i) < |Select(h, fl)| && Select(h, fl)[Rank(fl, i)] == h[i]
    ensures Answered(Select(h, fl), Rank(fl, i)) <==> AnsweredIn(h, fl, i)
  {
    hide Select, Rank, FirstAnswer, FirstMarkedAnswer;
    var r, p := Select(h, fl), Rank(fl, i);
    SelectAt(h, fl, i);
    if Answered(r, p) {
      var c :| 0 <= c < |r[p].calls| && p < FirstAnswer(r, r[p].calls[c]) < |r|;
      var j := FirstAnswerFrom(h, fl, h[i].calls[c]);
      if j <= i { RankGrows(fl, j, i); }
      assert FirstMarkedAnswer(h, fl, h[i].calls[c], j);
    }
    if AnsweredIn(h, fl, i) {
      var c, j :| 0 <= c < |h[i].calls| && i < j < |h| && FirstMarkedAnswer(h, fl, h[i].calls[c], j);
      FirstAnswerAt(h, fl, h[i].calls[c], j);
      RankGrows(fl, i, j);
      assert p < FirstAnswer(r, r[p].calls[c]) < |r|;
    }
  }

  lemma AllAnsweredInSelection(h: seq<Message>, fl: seq<bool>)
    requires |fl| == |h|
    ensures AllAnswered(Select(h, fl)) <==> forall i :: 0 <= i < |h| && fl[i] && IsCaller(h[i]) ==> AnsweredIn(h, fl, i)
  {
    hide Select, Rank, Answered, AnsweredIn;
    var r := Select(h, fl);
    RankIsLength(h, fl, |h|);
    assert h[..|h|] == h && fl[..|h|] == fl;
    if AllAnswered(r) {
      forall i | 0 <= i < |h| && fl[i] && IsCaller(h[i])
        ensures AnsweredIn(h, fl, i)
      {
        AnsweredInSelection(h, fl, i);
      }
    }
    if forall i :: 0 <= i < |h| && fl[i] && IsCaller(h[i]) ==> AnsweredIn(h, fl, i) {
      forall p | 0 <= p < |r| && IsCaller(r[p])
        ensures Answered(r, p)
      {
        var i := SelectedFrom(h, fl, p, |h|);
        AnsweredInSelection(h, fl, i);
      }
    }
  }

  // ---------------------------------------------------------------------------------------
  // The condition
  // ---------------------------------------------------------------------------------------

  lemma MarkedAnswerIsKeptTool(h: seq<Message>, id: string, j: nat)
    requires j < |h|
    ensures FinalFlags(h)[j] && Answers(h[j], id) <==> KeptTool(h, j, id)
  {
    hide CallOpen, Answered;
  }

  lemma AnsweredInFinal(h: seq<Message>, i: nat)
    requires i < |h|
    ensures AnsweredIn(h, FinalFlags(h), i) <==> StillAnswered(h, i)
  {
    hide KeptTool, FinalFlags, Answers;
    forall id: string, j | 0 <= j < |h|
      ensures FirstMarkedAnswer(h, FinalFlags(h), id, j) <==> FirstKeptAnswer(h, id, j)
    {
      forall l | 0 <= l <= j
        ensures FinalFlags(h)[l] && Answers(h[l], id) <==> KeptTool(h, l, id)
      {
        MarkedAnswerIsKeptTool(h, id, l);
      }
    }
  }

  lemma CallsKeepAnswersIff(h: seq<Message>)
    ensures AllAnswered(Select(h, FinalFlags(h))) <==> CallsKeepAnswers(h)
  {
    hide Select, StillAnswered, MergedAway, Answered, CallOpen, AnsweredIn, AllAnswered;
    AllAnsweredInSelection(h, FinalFlags(h));
    forall i | 0 <= i < |h|
      ensures AnsweredIn(h, FinalFlags(h), i) <==> StillAnswered(h, i)
    {
      AnsweredInFinal(h, i);
    }
  }

  /**
    Cleaning twice equals cleaning once exactly when every answered call of the history, unless another
    assistant message takes its place, has an id whose first kept answer stands behind it.
   */
  lemma CleanHistoryIdempotentIff(ms: seq<Message>)
    ensures CleanHistory(CleanHistory(ms)) == CleanHistory(ms) <==> CallsKeepAnswers(SkipToStart(ms))
  {
    hide Sweep, Merge, Select, FinalFlags, CallsKeepAnswers, AllAnswered;
    var h := SkipToStart(ms);
    CleanedIsSelection(h);
    CallsKeepAnswersIff(h);
    CleanHistoryFixedIff(ms);
  }
}
