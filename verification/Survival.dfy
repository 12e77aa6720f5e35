/**
  Which of the picked messages survive the two cleaning steps, position by position.
 */
module Survival {
  import opened Messages
  import opened PairCleaning
  import opened Subsequences

  lemma {:induction false} SkipAfterLeadingTools(ms: seq<Message>)
    ensures SkipToStart(DropLeadingTools(ms)) == SkipToStart(ms)
  {
    if ms == [] {
    } else if ms[0].role == Tool {
      SkipAfterLeadingTools(ms[1..]);
    }
  }

  lemma {:induction false} SkipAfterDropOrphans(ms: seq<Message>)
    ensures SkipToStart(DropOrphans(ms)) == DropOrphans(SkipToStart(ms))
  {
    if ms == [] {
    } else {
      SkipAfterDropOrphans(ms[1..]);
      var rest := DropOrphans(ms[1..]);
      assert ([ms[0]] + rest)[0] == ms[0] && ([ms[0]] + rest)[1..] == rest;
    }
  }

  /** Skipping to the start first and dropping orphans then gives the same. */
  lemma SkipThenDrop(ms: seq<Message>)
    ensures SkipToStart(CleanPairs(ms)) == DropOrphans(SkipToStart(ms))
  {
    SkipAfterDropOrphans(DropLeadingTools(ms));
    SkipAfterLeadingTools(ms);
  }

  /** Of the picked messages, the first that settles the question is a tool result. */
  predicate AnswerPicked(ms: seq<Message>, picked: seq<bool>)
    requires |ms| == |picked|
  {
    ms != [] &&
    (if picked[0] && !(ms[0].role == System || ms[0].role == OtherRole)
     then ms[0].role == Tool
     else AnswerPicked(ms[1..], picked[1..]))
  }

  /** The marks after cleaning; `started` tells whether a system or user message was picked before. */
  function Survivors(ms: seq<Message>, picked: seq<bool>, started: bool): (r: seq<bool>)
    requires |ms| == |picked|
    ensures |r| == |ms|
  {
    if ms == [] then []
    else
      var on := started || (picked[0] && StartsConversation(ms[0]));
      [picked[0] && on && (IsCaller(ms[0]) ==> AnswerPicked(ms[1..], picked[1..]))]
        + Survivors(ms[1..], picked[1..], on)
  }

  lemma {:induction false} AnswerPickedIsFollowed(ms: seq<Message>, picked: seq<bool>)
    requires |ms| == |picked|
    ensures AnswerPicked(ms, picked) == FollowedByTool(Select(ms, picked))
  {
    if ms == [] {
    } else {
      AnswerPickedIsFollowed(ms[1..], picked[1..]);
      SelectStep(ms, picked);
    }
  }

  lemma SelectStep<T>(a: seq<T>, flags: seq<bool>)
    requires |a| == |flags| && a != []
    ensures var rest := Select(a[1..], flags[1..]);
            if flags[0] then Select(a, flags) == [a[0]] + rest && Select(a, flags)[0] == a[0] && Select(a, flags)[1..] == rest
            else Select(a, flags) == rest
  {
    var rest := Select(a[1..], flags[1..]);
    assert ([a[0]] + rest)[1..] == rest && [] + rest == rest;
  }

  /** The marks describe the cleaned list exactly. */
  lemma {:induction false} SurvivorsExact(ms: seq<Message>, picked: seq<bool>, started: bool)
    requires |ms| == |picked|
    ensures var c := Select(ms, picked);
            Select(ms, Survivors(ms, picked, started)) == DropOrphans(if started then c else SkipToStart(c))
  {
    if ms == [] {
    } else {
      var on := started || (picked[0] && StartsConversation(ms[0]));
      var flags := Survivors(ms, picked, started);
      SurvivorsExact(ms[1..], picked[1..], on);
      AnswerPickedIsFollowed(ms[1..], picked[1..]);
      SelectStep(ms, picked);
      assert flags[1..] == Survivors(ms[1..], picked[1..], on);
      SelectStep(ms, flags);
    }
  }

  // ---------------------------------------------------------------------------------------
  // The same in terms of positions
  // ---------------------------------------------------------------------------------------

  ghost predicate StartPickedBy(ms: seq<Message>, picked: seq<bool>, i: nat)
    requires |ms| == |picked| && i < |ms|
  {
    exists j :: 0 <= j <= i && picked[j] && (ms[j].role == System || ms[j].role == User)
  }

  ghost predicate AnswerPickedAfter(ms: seq<Message>, picked: seq<bool>, i: nat)
    requires |ms| == |picked| && i <= |ms|
  {
    exists j :: i <= j < |ms| && picked[j] && ms[j].role == Tool && NothingSettles(ms, picked, i, j)
  }

  predicate NothingSettles(ms: seq<Message>, picked: seq<bool>, i: nat, j: nat)
    requires |ms| == |picked| && i <= j <= |ms|
  {
    forall l :: i <= l < j && picked[l] ==> ms[l].role == System || ms[l].role == OtherRole
  }

  /** A picked message survives behind a picked start, and a call only with a picked answer. */
  ghost predicate Survives(ms: seq<Message>, picked: seq<bool>, i: nat)
    requires |ms| == |picked| && i < |ms|
  {
    && picked[i] && StartPickedBy(ms, picked, i)
    && (ms[i].role == Assistant && ms[i].calls != [] ==> AnswerPickedAfter(ms, picked, i + 1))
  }

  lemma {:induction false} AnswerPickedPositions(ms: seq<Message>, picked: seq<bool>, i: nat)
    requires |ms| == |picked| && i <= |ms|
    ensures AnswerPicked(ms[i..], picked[i..]) <==> AnswerPickedAfter(ms, picked, i)
    decreases |ms| - i
  {
    if i < |ms| {
      AnswerPickedPositions(ms, picked, i + 1);
      assert ms[i..][1..] == ms[i + 1..] && picked[i..][1..] == picked[i + 1..];
      if picked[i] && !(ms[i].role == System || ms[i].role == OtherRole) {
        if ms[i].role == Tool { assert NothingSettles(ms, picked, i, i); }
      } else {
        if AnswerPickedAfter(ms, picked, i + 1) {
          var j :| i + 1 <= j < |ms| && picked[j] && ms[j].role == Tool && NothingSettles(ms, picked, i + 1, j);
          assert NothingSettles(ms, picked, i, j);
        }
        if AnswerPickedAfter(ms, picked, i) {
          var j :| i <= j < |ms| && picked[j] && ms[j].role == Tool && NothingSettles(ms, picked, i, j);
          assert NothingSettles(ms, picked, i + 1, j);
        }
      }
    }
  }

  lemma {:induction false} SurvivorsPositions(ms: seq<Message>, picked: seq<bool>, k: nat, i: nat, started: bool)
    requires |ms| == |picked| && k <= i < |ms|
    requires started <==> exists j :: 0 <= j < k && picked[j] && StartsConversation(ms[j])
    ensures Survivors(ms[k..], picked[k..], started)[i - k] <==> Survives(ms, picked, i)
    decreases i - k
  {
    var on := started || (picked[k] && StartsConversation(ms[k]));
    assert ms[k..][1..] == ms[k + 1..] && picked[k..][1..] == picked[k + 1..];
    if i == k {
      AnswerPickedPositions(ms, picked, k + 1);
    } else {
      SurvivorsPositions(ms, picked, k + 1, i, on);
    }
  }

  /** Cleaning a selection keeps exactly the messages that survive in this sense, in their order. */
  lemma CleanedSelection(ms: seq<Message>, picked: seq<bool>) returns (flags: seq<bool>)
    requires |ms| == |picked|
    ensures |flags| == |ms|
    ensures SkipToStart(CleanPairs(Select(ms, picked))) == Select(ms, flags)
    ensures forall i :: 0 <= i < |ms| ==> (flags[i] <==> Survives(ms, picked, i))
  {
    hide Survives, Survivors;
    flags := Survivors(ms, picked, false);
    SkipThenDrop(Select(ms, picked));
    SurvivorsExact(ms, picked, false);
    forall i | 0 <= i < |ms|
      ensures flags[i] <==> Survives(ms, picked, i)
    {
      assert ms[0..] == ms && picked[0..] == picked;
      SurvivorsPositions(ms, picked, 0, i, false);
    }
  }
}
