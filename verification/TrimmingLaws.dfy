/**
  What trimming guarantees about the request it returns, and exactly where it does not.
 */
module TrimmingLaws {
  import opened Numbers
  import opened Options
  import opened Subsequences
  import opened Messages
  import opened PairCleaning
  import opened Trimming
  import opened Survival

  // ---------------------------------------------------------------------------------------
  // Auxiliary facts
  // ---------------------------------------------------------------------------------------

  lemma {:induction false} SingletonSubseq<T>(x: T, b: seq<T>)
    requires x in b
    ensures IsSubseq([x], b)
  {
    if x != b[0] {
      assert x in b[1..];
      SingletonSubseq(x, b[1..]);
    }
  }

  lemma ThreeParts(ms: seq<Message>)
    requires |ms| > 2
    ensures ms == Head(ms) + Middle(ms) + [Last(ms)]
    ensures forall m :: m in Head(ms) ==> m.role == System
  {
  }

  lemma HasUserIffIn(ms: seq<Message>)
    ensures HasUser(ms) <==> exists m :: m in ms && m.role == User
  {
    if exists m :: m in ms && m.role == User {
      var m :| m in ms && m.role == User;
      var i :| 0 <= i < |ms| && ms[i] == m;
      assert ms[i].role == User;
    }
  }

  lemma HasUserAppend(a: seq<Message>, b: seq<Message>)
    ensures HasUser(a + b) <==> HasUser(a) || HasUser(b)
  {
    UsersAppend(a, b);
    NoUsers(a);
    NoUsers(b);
    NoUsers(a + b);
  }

  /** The leading system message and the last message fit by themselves. */
  predicate EndsFit(ms: seq<Message>, limit: int)
    requires ms != []
  {
    Tokens(Head(ms)) + Estimate(Last(ms)) <= limit
  }

  function Budget(ms: seq<Message>, limit: int): int
    requires |ms| > 2
  {
    Remaining(ms, limit) - MustKeepTokens(Middle(ms))
  }

  /** The kept messages are a well-paired selection of the middle, with every chosen user message. */
  lemma KeptShape(ms: seq<Message>, limit: int)
    requires |ms| > 2
    ensures var kept, chosen := Kept(ms, limit), Chosen(Middle(ms), Budget(ms, limit));
            && IsSubseq(kept, chosen) && IsSubseq(chosen, Middle(ms))
            && WellPaired(kept)
            && (kept != [] ==> StartsConversation(kept[0]))
            && Users(kept) == Users(chosen)
  {
    hide IsSubseq, CutPoint, CleanPairs, SkipToStart, Users, WellPaired;
    var rest := Middle(ms);
    CleanedShape(Chosen(rest, Budget(ms, limit)));
    CleaningKeepsUsers(Chosen(rest, Budget(ms, limit)));
    SelectIsSubseq(rest, KeepFlags(rest, CutPoint(rest, Budget(ms, limit))));
  }

  // ---------------------------------------------------------------------------------------
  // Laws
  // ---------------------------------------------------------------------------------------

  /** What the request costs at most: the limit, or the parts that are never given up if they cost more. */
  lemma TrimBudget(ms: seq<Message>, limit: int)
    requires |ms| > 2
    ensures var floor := Tokens(Head(ms)) + Estimate(Last(ms)) + MustKeepTokens(Middle(ms));
            var extra := if Untouched(ms, limit) || !EndsFit(ms, limit) then [] else Reinserted(ms, limit);
            Tokens(Trimmed(ms, limit)) <= Max(limit, floor) + Tokens(extra)
  {
    hide IsSubseq, CutPoint, KeepFlags, Kept, Users, Chosen, Head, Middle, Reinserted, MustKeepTokens;
    var head, last := Head(ms), Last(ms);
    assert Tokens([last]) == Estimate(last) by { assert [last][1..] == []; }
    if Untouched(ms, limit) {
    } else if !EndsFit(ms, limit) {
      TokensAppend(head, [last]);
    } else {
      var kept, extra := Kept(ms, limit), Reinserted(ms, limit);
      KeptShape(ms, limit);
      SubseqTokens(kept, Chosen(Middle(ms), Budget(ms, limit)));
      ChosenWithinBudget(Middle(ms), Budget(ms, limit));
      TokensAppend(head + kept + extra, [last]);
      TokensAppend(head + kept, extra);
      TokensAppend(head, kept);
    }
  }

  /**
    What is picked of the middle: the protected messages, and from `k` on all the others; they fit together
    with everything indispensable, and the unprotected message before `k` would not.
   */
  lemma PickedIsLongestSuffix(ms: seq<Message>, limit: int) returns (k: nat)
    requires |ms| > 2
    ensures k <= |Middle(ms)| && forall i :: 0 <= i < |Middle(ms)| ==> (Picked(ms, limit)[i] <==> MustKeep(Middle(ms)[i]) || i >= k)
    ensures var floor := Tokens(Head(ms)) + Estimate(Last(ms)) + MustKeepTokens(Middle(ms));
            && floor + PlainTokens(Middle(ms)[k..]) <= Max(limit, floor)
            && (k > 0 ==> !MustKeep(Middle(ms)[k - 1]) && floor + PlainTokens(Middle(ms)[k - 1..]) > limit)
  {
    hide CutPoint, MustKeep, Tokens, PlainTokens, MustKeepTokens, Head, Middle, Last;
    k := CutPoint(Middle(ms), Budget(ms, limit));
    CutPointIsLongestSuffix(Middle(ms), Budget(ms, limit));
  }

  /** The limit of a request: what is left of the context beside the reserve, and 100 tokens at least. */
  function Room(maxTokens: int, reserve: int): int { if maxTokens - reserve >= 100 then maxTokens - reserve else 100 }

  /**
    In terms of the caller's own numbers: when the context beside the reserve has room for the ends and the
    protected messages and no user message is put back, the result fits it.
   */
  lemma TrimFitsContext(ms: seq<Message>, maxTokens: int, reserve: int)
    requires |ms| > 2
    ensures var r, floor := Trimmed(ms, EffectiveMax(maxTokens, reserve)),
                            Tokens(Head(ms)) + Estimate(Last(ms)) + MustKeepTokens(Middle(ms));
            && (Tokens(ms) + reserve <= maxTokens || Tokens(ms) <= 100 ==> r == ms)
            && (maxTokens - reserve >= 100 && floor + reserve <= maxTokens && Reinserted(ms, maxTokens - reserve) == [] ==>
                  Tokens(r) + reserve <= maxTokens)
            && (maxTokens - reserve < 100 && floor <= 100 && Reinserted(ms, 100) == [] ==> Tokens(r) <= 100)
            && Tokens(r) <= Max(Room(maxTokens, reserve), floor) + Tokens(Reinserted(ms, Room(maxTokens, reserve)))
  {
    hide Tokens, Trimmed, Reinserted, MustKeepTokens, Head, Middle, Last, Estimate;
    assert EffectiveMax(maxTokens, reserve) == Room(maxTokens, reserve);
    TrimBudget(ms, Room(maxTokens, reserve));
    EmptyTokens();
    if Untouched(ms, Room(maxTokens, reserve)) { assert Trimmed(ms, Room(maxTokens, reserve)) == ms by { UntouchedStays(ms, Room(maxTokens, reserve)); } }
  }

  lemma UntouchedStays(ms: seq<Message>, limit: int)
    requires Untouched(ms, limit)
    ensures Trimmed(ms, limit) == ms
  {
  }

  /** The system message and the last message are never given up. */
  lemma TrimKeepsEnds(ms: seq<Message>, limit: int)
    requires ms != []
    ensures var r := Trimmed(ms, limit);
            r != [] && Last(r) == Last(ms) && (ms[0].role == System ==> r[0] == ms[0])
  {
    hide Tokens, Kept, Reinserted;
  }

  /** A conversation with a user message loses all of them exactly when the ends alone exceed the limit. */
  lemma TrimHasUserIff(ms: seq<Message>, limit: int)
    requires |ms| > 2 && HasUser(ms)
    ensures HasUser(Trimmed(ms, limit)) <==>
            Untouched(ms, limit) || EndsFit(ms, limit) || Last(ms).role == User
  {
    hide Tokens, Kept, HasUser, LastUser, Head, Middle, Estimate;
    var head, last := Head(ms), Last(ms);
    ThreeParts(ms);
    assert !HasUser(head) by { HasUserIffIn(head); }
    assert HasUser([last]) <==> last.role == User by { HasUserIffIn([last]); }
    if Untouched(ms, limit) {
    } else if !EndsFit(ms, limit) {
      HasUserAppend(head, [last]);
    } else {
      ReinsertionWorks(ms, limit);
    }
  }

  lemma ReinsertionWorks(ms: seq<Message>, limit: int)
    requires |ms| > 2 && HasUser(ms)
    ensures HasUser(Head(ms) + Kept(ms, limit) + Reinserted(ms, limit) + [Last(ms)])
  {
    hide HasUser, Kept, Head, Last;
    var core, last, extra := Head(ms) + Kept(ms, limit), [Last(ms)], Reinserted(ms, limit);
    if HasUser(core + last) {
      assert core + extra + last == core + last;
    } else {
      assert HasUser(extra) by { HasUserIffIn(extra); assert extra[0] in extra; }
      HasUserAppend(core, extra);
      HasUserAppend(core + extra, last);
    }
  }

  /** A concrete request that loses its only user message: the ends alone are over the limit. */
  lemma UserLostWhenEndsTooLarge(u: Message, a: Message, last: Message)
    requires u.role == User && a.role == Assistant && last.role == Assistant && last.textTokens == 200
    ensures HasUser([u, a, last]) && !HasUser(Trimmed([u, a, last], MIN_EFFECTIVE_TOKENS))
  {
    var ms := [u, a, last];
    assert ms[0].role == User;
    assert Tokens(ms) >= 210 by {
      assert ms[1..] == [a, last] && [a, last][1..] == [last];
      assert Tokens([last]) == Estimate(last) + Tokens([last][1..]);
    }
    TrimHasUserIff(ms, MIN_EFFECTIVE_TOKENS);
  }

  // ---------------------------------------------------------------------------------------
  // Order
  // ---------------------------------------------------------------------------------------

  /** The marks of the chosen messages of the middle: the protected ones and those from the cut point on. */
  function Picked(ms: seq<Message>, limit: int): (f: seq<bool>)
    requires |ms| > 2
    ensures |f| == |Middle(ms)|
  {
    KeepFlags(Middle(ms), CutPoint(Middle(ms), Budget(ms, limit)))
  }

  predicate NoUserPicked(ms: seq<Message>, limit: int)
    requires |ms| > 2
  {
    var mid, k := Middle(ms), CutPoint(Middle(ms), Budget(ms, limit));
    forall i :: 0 <= i < |mid| && mid[i].role == User ==> !MustKeep(mid[i]) && i < k
  }

  predicate SystemPicked(ms: seq<Message>, limit: int)
    requires |ms| > 2
  {
    exists i :: CutPoint(Middle(ms), Budget(ms, limit)) <= i < |Middle(ms)| && Middle(ms)[i].role == System
  }

  /**
    A request whose order gets lost: the ends fit, the last message is no user's, every user message
    of the middle lies before the cut unprotected, and a system message lies behind it.
   */
  predicate OutOfOrder(ms: seq<Message>, limit: int) {
    && !Untouched(ms, limit) && EndsFit(ms, limit)
    && Last(ms).role != User && HasUser(Middle(ms))
    && NoUserPicked(ms, limit) && SystemPicked(ms, limit)
  }

  lemma PartsSubseq(ms: seq<Message>, mid: seq<Message>)
    requires |ms| > 2 && IsSubseq(mid, Middle(ms))
    ensures IsSubseq(Head(ms) + mid + [Last(ms)], ms)
  {
    hide IsSubseq, Head, Middle, Last;
    ThreeParts(ms);
    SubseqRefl(Head(ms));
    SubseqRefl([Last(ms)]);
    SubseqAppend(Head(ms), Head(ms), mid, Middle(ms));
    SubseqAppend(Head(ms) + mid, Head(ms) + Middle(ms), [Last(ms)], [Last(ms)]);
  }

  /** A user message put back comes from the middle. */
  lemma ReinsertedFromMiddle(ms: seq<Message>, limit: int)
    requires |ms| > 2 && Reinserted(ms, limit) != []
    ensures |Reinserted(ms, limit)| == 1
    ensures Reinserted(ms, limit)[0].role == User && Reinserted(ms, limit)[0] in Middle(ms)
    ensures !HasUser(Kept(ms, limit))
  {
    hide Kept, HasUser, Head, Middle;
    var u := Reinserted(ms, limit)[0];
    var core := Head(ms) + Kept(ms, limit);
    ThreeParts(ms);
    HasUserAppend(core, [Last(ms)]);
    HasUserAppend(Head(ms), Kept(ms, limit));
    HasUserIffIn([Last(ms)]);
    assert Last(ms) in [Last(ms)];
    assert u in ms;
  }

  lemma InOrder(ms: seq<Message>, limit: int)
    requires |ms| > 2 && !OutOfOrder(ms, limit)
    ensures IsSubseq(Trimmed(ms, limit), ms)
  {
    hide IsSubseq, Kept, Reinserted, Tokens, Head, Middle, Last, OutOfOrder;
    OutOfOrderMeaning(ms, limit);
    if Untouched(ms, limit) {
      SubseqRefl(ms);
    } else if !EndsFit(ms, limit) {
      EmptySubseq(Middle(ms));
      PartsSubseq(ms, []);
      assert Head(ms) + [] + [Last(ms)] == Head(ms) + [Last(ms)];
    } else {
      var kept, extra := Kept(ms, limit), Reinserted(ms, limit);
      KeptShape(ms, limit);
      SubseqTrans(kept, Chosen(Middle(ms), Budget(ms, limit)), Middle(ms));
      if extra == [] {
        PartsSubseq(ms, kept);
        assert Head(ms) + kept + extra == Head(ms) + kept;
      } else {
        ReinsertedFromMiddle(ms, limit);
        SingletonSubseq(extra[0], Middle(ms));
        assert extra == [extra[0]];
        PartsSubseq(ms, extra);
        assert Head(ms) + kept + extra == Head(ms) + extra;
      }
    }
  }

  /** The first kept message was an unprotected one, so every user message after the cut was chosen. */
  lemma FirstKeptAfterCut(ms: seq<Message>, limit: int) returns (i: nat)
    requires |ms| > 2 && Reinserted(ms, limit) != [] && Kept(ms, limit) != []
    ensures CutPoint(Middle(ms), Budget(ms, limit)) <= i < |Middle(ms)|
    ensures Middle(ms)[i] == Kept(ms, limit)[0] && Middle(ms)[i].role == System
  {
    hide IsSubseq, Kept, Reinserted, CutPoint, HasUser, Head, Middle, Users, WellPaired;
    var rest, first := Middle(ms), Kept(ms, limit)[0];
    var flags := KeepFlags(rest, CutPoint(rest, Budget(ms, limit)));
    KeptShape(ms, limit);
    ReinsertedFromMiddle(ms, limit);
    assert first.role == System by { HasUserIffIn(Kept(ms, limit)); assert first in Kept(ms, limit); }
    SubseqMembers(Kept(ms, limit), Chosen(rest, Budget(ms, limit)));
    SelectMembers(rest, flags);
    i :| 0 <= i < |rest| && flags[i] && rest[i] == first;
  }

  lemma ReinsertedBeforeCut(ms: seq<Message>, limit: int, j: nat)
    requires |ms| > 2 && Reinserted(ms, limit) != []
    requires j < |Middle(ms)| && Middle(ms)[j] == Reinserted(ms, limit)[0]
    ensures j < CutPoint(Middle(ms), Budget(ms, limit))
  {
    hide IsSubseq, Kept, Reinserted, CutPoint, HasUser, Head, Middle, Users, WellPaired;
    var rest, u := Middle(ms), Reinserted(ms, limit)[0];
    var flags := KeepFlags(rest, CutPoint(rest, Budget(ms, limit)));
    KeptShape(ms, limit);
    ReinsertedFromMiddle(ms, limit);
    if flags[j] {
      var chosen := Chosen(rest, Budget(ms, limit));
      SelectMembers(rest, flags);
      assert u in chosen;
      HasUserIffIn(chosen);
      NoUsers(chosen);
      NoUsers(Kept(ms, limit));
      assert false;
    }
  }

  lemma NoUserKeptIff(ms: seq<Message>, limit: int)
    requires |ms| > 2
    ensures HasUser(Kept(ms, limit)) <==> !NoUserPicked(ms, limit)
  {
    hide IsSubseq, Kept, CutPoint, HasUser, Head, Middle, Users, WellPaired;
    var mid, flags := Middle(ms), Picked(ms, limit);
    var chosen := Chosen(mid, Budget(ms, limit));
    KeptShape(ms, limit);
    NoUsers(chosen);
    NoUsers(Kept(ms, limit));
    HasUserIffIn(chosen);
    SelectMembers(mid, flags);
    if HasUser(chosen) {
      var m :| m in chosen && m.role == User;
      var i :| 0 <= i < |mid| && flags[i] && mid[i] == m;
    }
    if !NoUserPicked(ms, limit) {
      var i :| 0 <= i < |mid| && mid[i].role == User && flags[i];
      assert mid[i] in chosen;
    }
  }

  lemma ReinsertedIff(ms: seq<Message>, limit: int)
    requires |ms| > 2
    ensures Reinserted(ms, limit) != [] <==>
            Last(ms).role != User && HasUser(Middle(ms)) && NoUserPicked(ms, limit)
  {
    hide Kept, HasUser, Head, Middle, NoUserPicked;
    var head, kept, last := Head(ms), Kept(ms, limit), [Last(ms)];
    ThreeParts(ms);
    NoUserKeptIff(ms, limit);
    HasUserIffIn(head);
    HasUserIffIn(last);
    assert Last(ms) in last;
    HasUserAppend(head + kept, last);
    HasUserAppend(head, kept);
    HasUserAppend(head + Middle(ms), last);
    HasUserAppend(head, Middle(ms));
  }

  /** The middle keeps exactly the messages that survive the cleaning of what was picked. */
  lemma KeptExactly(ms: seq<Message>, limit: int) returns (flags: seq<bool>)
    requires |ms| > 2
    ensures |flags| == |Middle(ms)| && Kept(ms, limit) == Select(Middle(ms), flags)
    ensures forall i :: 0 <= i < |flags| ==> (flags[i] <==> Survives(Middle(ms), Picked(ms, limit), i))
  {
    hide Survives, SkipToStart, CleanPairs, CutPoint, KeepFlags;
    flags := CleanedSelection(Middle(ms), Picked(ms, limit));
  }

  /** In terms of the function's own steps: something was kept, and a user message is put back behind it. */
  lemma OutOfOrderMeaning(ms: seq<Message>, limit: int)
    requires |ms| > 2
    ensures OutOfOrder(ms, limit) <==>
            !Untouched(ms, limit) && EndsFit(ms, limit) && Kept(ms, limit) != [] && Reinserted(ms, limit) != []
  {
    hide Kept, Reinserted, CutPoint, HasUser, Head, Middle, Last, NoUserPicked, Tokens, Untouched, Select;
    ReinsertedIff(ms, limit);
    if Kept(ms, limit) != [] && Reinserted(ms, limit) != [] {
      var i := FirstKeptAfterCut(ms, limit);
    }
    if SystemPicked(ms, limit) {
      var i :| CutPoint(Middle(ms), Budget(ms, limit)) <= i < |Middle(ms)| && Middle(ms)[i].role == System;
      var flags := KeptExactly(ms, limit);
      assert StartPickedBy(Middle(ms), Picked(ms, limit), i);
      SelectMembers(Middle(ms), flags);
    }
  }

  /** Putting a user message back behind kept messages always turns the order round. */
  lemma OutOfOrderBreaks(ms: seq<Message>, limit: int)
    requires |ms| > 2 && Distinct(ms) && OutOfOrder(ms, limit)
    ensures !IsSubseq(Trimmed(ms, limit), ms)
  {
    hide IsSubseq, Kept, Reinserted, CutPoint, Untouched, Middle, Last, Head, OutOfOrder;
    var head, mid, kept, extra := Head(ms), Middle(ms), Kept(ms, limit), Reinserted(ms, limit);
    ThreeParts(ms);
    OutOfOrderMeaning(ms, limit);
    ReinsertedFromMiddle(ms, limit);
    var i := FirstKeptAfterCut(ms, limit);
    var j :| 0 <= j < |mid| && mid[j] == extra[0];
    ReinsertedBeforeCut(ms, limit, j);
    var r := head + kept + extra + [Last(ms)];
    assert Trimmed(ms, limit) == r;
    assert r[|head|] == kept[0] == ms[|head| + i] && r[|head| + |kept|] == extra[0] == ms[|head| + j];
    if IsSubseq(r, ms) {
      SubseqKeepsOrder(r, ms, |head|, |head| + |kept|, |head| + i, |head| + j);
    }
  }

  /** For messages that are all different: the original order is kept exactly outside that case. */
  lemma TrimOrderIff(ms: seq<Message>, limit: int)
    requires |ms| > 2 && Distinct(ms)
    ensures IsSubseq(Trimmed(ms, limit), ms) <==> !OutOfOrder(ms, limit)
  {
    if OutOfOrder(ms, limit) {
      OutOfOrderBreaks(ms, limit);
    } else {
      InOrder(ms, limit);
    }
  }

  /** While no system message of the middle stands behind a user message, the order is always kept. */
  lemma {:induction false} SystemMessagesFirstKeepOrder(ms: seq<Message>, limit: int)
    requires |ms| > 2
    requires forall i, j :: 0 <= i < j < |Middle(ms)| && Middle(ms)[i].role == User ==> Middle(ms)[j].role != System
    ensures IsSubseq(Trimmed(ms, limit), ms)
  {
    hide IsSubseq, Kept, Reinserted, CutPoint, Untouched, Middle, Trimmed;
    if OutOfOrder(ms, limit) {
      assert false;
    }
    InOrder(ms, limit);
  }

  /** A concrete request whose user message ends up behind a system message that followed it. */
  lemma OrderLost(u: Message, s: Message, a: Message)
    requires u.role == User && !u.hasCode && u.textTokens == 100
    requires s.role == System && s.textTokens == 10
    requires a.role == Assistant && a.textTokens == 10
    ensures OutOfOrder([u, s, a], MIN_EFFECTIVE_TOKENS)
    ensures !IsSubseq(Trimmed([u, s, a], MIN_EFFECTIVE_TOKENS), [u, s, a])
  {
    hide IsSubseq, Tokens, MustKeepTokens, Trimmed, CutPoint;
    var ms, mid := [u, s, a], [u, s];
    assert Head(ms) == [] && Middle(ms) == mid && Last(ms) == a;
    EmptyTokens();
    TokensCons(u, [s, a]);
    TokensCons(s, [a]);
    TokensCons(a, []);
    TokensCons(u, [s]);
    TokensCons(s, []);
    assert ms == [u] + [s, a] && [s, a] == [s] + [a] && [a] == [a] + [] && mid == [u] + [s] && [s] == [s] + [];
    CutAfterFirst(u, s);
    assert mid[0].role == User && mid[1].role == System;
    OutOfOrderBreaks(ms, MIN_EFFECTIVE_TOKENS);
  }

  lemma CutAfterFirst(u: Message, s: Message)
    requires !MustKeep(u) && !MustKeep(s) && Estimate(u) == 110 && Estimate(s) == 20
    ensures CutPoint([u, s], 80) == 1
  {
    hide MustKeep, Estimate;
    assert [u, s][..1] == [u] && [u][..0] == [];
  }

  // ---------------------------------------------------------------------------------------
  // Pairs and protected messages
  // ---------------------------------------------------------------------------------------

  /**
    The pairs are cleaned before the last message is put back.  When anything was cut, the message
    before the last is therefore never a tool call: a request ending in a tool result loses the
    call it answers.
   */
  lemma LastResultLosesItsCall(ms: seq<Message>, limit: int)
    requires !Untouched(ms, limit)
    ensures var r := Trimmed(ms, limit); |r| >= 2 ==> !IsCaller(r[|r| - 2])
  {
    hide IsSubseq, Kept, CutPoint, Tokens, HasUser, LastUser, Users, Middle;
    ThreeParts(ms);
    var kept := Kept(ms, limit);
    KeptShape(ms, limit);
    if kept != [] {
      assert !Orphan(kept[|kept| - 1], kept[|kept| - 1 + 1..]);
      assert kept[|kept|..] == [];
    }
  }

  /**
    For messages that are all different: a message of the middle is in the result exactly when nothing
    was trimmed, or the ends fit and it survives the cleaning, or is the user message put back.
   */
  lemma MiddleSurvivesIff(ms: seq<Message>, limit: int, i: nat)
    requires |ms| > 2 && Distinct(ms) && i < |Middle(ms)|
    ensures Middle(ms)[i] in Trimmed(ms, limit) <==>
            || Untouched(ms, limit)
            || (EndsFit(ms, limit) &&
                (Survives(Middle(ms), Picked(ms, limit), i) || Reinserted(ms, limit) == [Middle(ms)[i]]))
  {
    hide Survives, Kept, Reinserted, Untouched, CutPoint, Picked, Middle, Head, Select;
    var head, mid, m := Head(ms), Middle(ms), Middle(ms)[i];
    ThreeParts(ms);
    assert m == ms[|head| + i] && m in ms;
    assert m !in head && m != Last(ms) by { assert forall j :: 0 <= j < |head| ==> ms[j] == head[j]; }
    if !Untouched(ms, limit) && EndsFit(ms, limit) {
      var flags := KeptExactly(ms, limit);
      MiddleDistinct(ms);
      SelectedIff(mid, flags, i);
      if Reinserted(ms, limit) != [] { ReinsertedFromMiddle(ms, limit); }
    }
  }

  lemma MiddleDistinct(ms: seq<Message>)
    requires |ms| > 2 && Distinct(ms)
    ensures Distinct(Middle(ms))
  {
  }

  lemma SelectedIff<T>(a: seq<T>, flags: seq<bool>, i: nat)
    requires |a| == |flags| && i < |a| && Distinct(a)
    ensures a[i] in Select(a, flags) <==> flags[i]
  {
    hide Select;
    SelectMembers(a, flags);
  }

  /**
    A protected message survives exactly when a system or user message was chosen no later than it
    and, if it is a call, the first chosen message that settles the question answers it.
   */
  lemma ProtectedSurvivesIff(ms: seq<Message>, limit: int, i: nat)
    requires |ms| > 2 && Distinct(ms) && i < |Middle(ms)| && MustKeep(Middle(ms)[i])
    requires !Untouched(ms, limit)
    ensures Middle(ms)[i] in Trimmed(ms, limit) <==>
            && EndsFit(ms, limit)
            && StartPickedBy(Middle(ms), Picked(ms, limit), i)
            && (IsCaller(Middle(ms)[i]) ==> AnswerPickedAfter(Middle(ms), Picked(ms, limit), i + 1))
  {
    hide Reinserted, Untouched, CutPoint, Middle, HasUser, Trimmed, MustKeep;
    MiddleSurvivesIff(ms, limit, i);
    ReinsertedIff(ms, limit);
    if Reinserted(ms, limit) == [Middle(ms)[i]] { ReinsertedFromMiddle(ms, limit); }
  }

  /** A protected user message always survives when the ends fit. */
  lemma ProtectedUserSurvives(ms: seq<Message>, limit: int, m: Message)
    requires |ms| > 2 && EndsFit(ms, limit)
    requires m in Middle(ms) && m.role == User && MustKeep(m)
    ensures m in Trimmed(ms, limit)
  {
    hide IsSubseq, CutPoint, Tokens, Kept, WellPaired, Users;
    ThreeParts(ms);
    var rest := Middle(ms);
    var i :| 0 <= i < |rest| && rest[i] == m;
    var chosen := Chosen(rest, Budget(ms, limit));
    KeptShape(ms, limit);
    SelectMembers(rest, KeepFlags(rest, CutPoint(rest, Budget(ms, limit))));
    assert m in chosen;
    UsersMembers(chosen);
    UsersMembers(Kept(ms, limit));
  }

  lemma {:induction false} UsersMembers(ms: seq<Message>)
    ensures forall m :: m in Users(ms) <==> m in ms && m.role == User
  {
    if ms == [] {
    } else {
      UsersMembers(ms[1..]);
    }
  }

  lemma TokensCons(m: Message, rest: seq<Message>)
    ensures Tokens([m] + rest) == Estimate(m) + Tokens(rest)
    ensures MustKeepTokens([m] + rest) == (if MustKeep(m) then Estimate(m) else 0) + MustKeepTokens(rest)
  {
    assert ([m] + rest)[1..] == rest;
  }

  lemma ResultWithoutCall(result: Message)
    requires result.role == Tool
    ensures SkipToStart(CleanPairs([result])) == []
  {
    SkipThenDrop([result]);
    assert [result][1..] == [];
  }

  /** Only the protected result is chosen: the large call before it does not fit. */
  lemma ChosenResult(u: Message, call: Message, result: Message)
    requires MustKeep(result) && !MustKeep(call) && !MustKeep(u) && call.textTokens == 500
    ensures Chosen([u, call, result], 60) == [result]
  {
    hide Score, MustKeep;
    var rest := [u, call, result];
    assert rest[..2] == [u, call];
    assert CutPoint(rest, 60) == 2;
    var flags := KeepFlags(rest, 2);
    assert flags == [false, false, true];
    assert rest[1..] == [call, result] && [call, result][1..] == [result];
    assert flags[1..] == [false, true] && [false, true][1..] == [true];
    assert Select([result], [true]) == [result] by { assert [result][1..] == [] && [true][1..] == []; }
    assert Select([call, result], [false, true]) == [] + Select([result], [true]);
    assert Select(rest, flags) == [] + Select([call, result], [false, true]);
  }

  /** A concrete request: a tool result with a code fence is protected and goes, its long call being cut. */
  lemma ProtectedResultCanBeDropped(call: Message, result: Message, u: Message)
    requires IsCaller(call) && !call.hasCode && call.textTokens == 500
    requires result.role == Tool && result.hasCode && result.textTokens == 10
    requires u.role == User && !u.hasCode && u.textTokens == 10
    ensures MustKeep(result) && Trimmed([u, call, result, u], MIN_EFFECTIVE_TOKENS) == [u]
  {
    hide Trimmed;
    OnlyLastRemains(call, result, u);
  }

  lemma OnlyLastRemains(call: Message, result: Message, u: Message)
    requires !MustKeep(call) && call.textTokens == 500
    requires result.role == Tool && MustKeep(result) && result.textTokens == 10
    requires u.role == User && !MustKeep(u) && u.textTokens == 10
    ensures Trimmed([u, call, result, u], MIN_EFFECTIVE_TOKENS) == [u]
  {
    hide Score, MustKeep, Tokens, MustKeepTokens, Chosen, CleanPairs, SkipToStart, HasUser, LastUser;
    var ms, rest := [u, call, result, u], [u, call, result];
    assert Head(ms) == [] && Middle(ms) == rest && Last(ms) == u;
    EmptyTokens();
    TokensCons(u, [call, result, u]);
    TokensCons(call, [result, u]);
    TokensCons(result, [u]);
    TokensCons(u, []);
    TokensCons(u, [call, result]);
    TokensCons(call, [result]);
    TokensCons(result, []);
    assert ms == [u] + [call, result, u] && [call, result, u] == [call] + [result, u] && [result, u] == [result] + [u];
    assert rest == [u] + [call, result] && [call, result] == [call] + [result] && [result] == [result] + [];
    assert Tokens(ms) >= 510 && MustKeepTokens(rest) == 20;
    assert Remaining(ms, 100) - MustKeepTokens(rest) == 60;
    ChosenResult(u, call, result);
    ResultWithoutCall(result);
    assert Kept(ms, 100) == [];
    HasUserIffIn([u]);
    assert u in [u];
    assert Head(ms) + [] + [u] == [u];
  }

  lemma EmptyTokens()
    ensures Tokens([]) == 0 && MustKeepTokens([]) == 0
  {
  }
}
