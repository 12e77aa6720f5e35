/**
  Cleaning up tool-call pairs after messages were cut out of a conversation.
 */
module PairCleaning {
  import opened Messages
  import opened Subsequences

  /** The first message that settles the question is a tool result. */
  predicate FollowedByTool(rest: seq<Message>) {
    rest != [] &&
    match rest[0].role
    case Tool => true
    case User => false
    case Assistant => false
    case System => FollowedByTool(rest[1..])
    case OtherRole => FollowedByTool(rest[1..])
  }

  /** An assistant message whose tool calls got no answer. */
  predicate Orphan(m: Message, rest: seq<Message>) { IsCaller(m) && !FollowedByTool(rest) }

  function DropLeadingTools(ms: seq<Message>): seq<Message> {
    if ms != [] && ms[0].role == Tool then DropLeadingTools(ms[1..]) else ms
  }

  function DropOrphans(ms: seq<Message>): seq<Message> {
    if ms == [] then []
    else if Orphan(ms[0], ms[1..]) then DropOrphans(ms[1..])
    else [ms[0]] + DropOrphans(ms[1..])
  }

  function CleanPairs(ms: seq<Message>): seq<Message> { DropOrphans(DropLeadingTools(ms)) }

  predicate NoOrphans(ms: seq<Message>) {
    forall i :: 0 <= i < |ms| ==> !Orphan(ms[i], ms[i + 1..])
  }

  /** The shape the cleaning aims at. */
  predicate WellPaired(ms: seq<Message>) {
    (ms != [] ==> ms[0].role != Tool) && NoOrphans(ms)
  }

  method HasFollowingTool(messages: seq<Message>, i: nat) returns (found: bool)
    requires i < |messages|
    ensures found == FollowedByTool(messages[i + 1..])
  {
    found := false;
    var j := i + 1;
    while j < |messages|
      invariant i + 1 <= j <= |messages|
      invariant FollowedByTool(messages[i + 1..]) == FollowedByTool(messages[j..])
    {
      if messages[j].role == Tool {
        return true;
      }
      if messages[j].role == User || messages[j].role == Assistant {
        return false;
      }
      j := j + 1;
    }
  }

  /** Deleting while stepping the index back amounts to one pass that judges each message once. */
  method CleanToolCallPairs(ms: seq<Message>) returns (messages: seq<Message>)
    ensures messages == CleanPairs(ms)
  {
    messages := ms;
    while |messages| > 0 && messages[0].role == Tool
      invariant DropLeadingTools(messages) == DropLeadingTools(ms)
      decreases |messages|
    {
      messages := messages[1..];
    }
    var i := 0;
    assert messages[..0] + DropOrphans(messages[0..]) == CleanPairs(ms) by { assert messages[0..] == messages; }
    while i < |messages|
      invariant 0 <= i <= |messages|
      invariant messages[..i] + DropOrphans(messages[i..]) == CleanPairs(ms)
      decreases |messages| - i
    {
      assert messages[i..][1..] == messages[i + 1..];
      if messages[i].role == Assistant && |messages[i].calls| > 0 {
        var hasFollowingTool := HasFollowingTool(messages, i);
        if !hasFollowingTool {
          DeleteAt(messages, i);
          messages := messages[..i] + messages[i + 1..];
          continue;
        }
      }
      KeepAt(messages, i);
      i := i + 1;
    }
    assert messages[..i] == messages && messages[i..] == [];
  }

  lemma DeleteAt(ms: seq<Message>, i: nat)
    requires i < |ms|
    ensures var r := ms[..i] + ms[i + 1..]; r[..i] == ms[..i] && r[i..] == ms[i + 1..]
  {
  }

  lemma KeepAt(ms: seq<Message>, i: nat)
    requires i < |ms| && !Orphan(ms[i], ms[i + 1..])
    ensures ms[..i + 1] + DropOrphans(ms[i + 1..]) == ms[..i] + DropOrphans(ms[i..])
  {
    assert ms[i..][1..] == ms[i + 1..];
    assert ms[..i + 1] == ms[..i] + [ms[i]];
  }

  // ---------------------------------------------------------------------------------------
  // What the cleaning achieves
  // ---------------------------------------------------------------------------------------

  /** Deleting orphans further on never changes whether an earlier call is answered. */
  lemma {:induction false} OrphansDoNotAnswer(rest: seq<Message>)
    ensures FollowedByTool(DropOrphans(rest)) == FollowedByTool(rest)
  {
    if rest == [] {
    } else {
      OrphansDoNotAnswer(rest[1..]);
      var kept := DropOrphans(rest[1..]);
      assert ([rest[0]] + kept)[1..] == kept;
    }
  }

  lemma NoOrphansCons(m: Message, rest: seq<Message>)
    requires NoOrphans(rest) && !Orphan(m, rest)
    ensures NoOrphans([m] + rest)
  {
    var all := [m] + rest;
    forall i | 0 <= i < |all|
      ensures !Orphan(all[i], all[i + 1..])
    {
      if i == 0 { assert all[1..] == rest; } else { assert all[i + 1..] == rest[i..]; assert all[i] == rest[i - 1]; }
    }
  }

  lemma NoOrphansTail(ms: seq<Message>)
    requires ms != [] && NoOrphans(ms)
    ensures NoOrphans(ms[1..]) && !Orphan(ms[0], ms[1..])
  {
    forall i | 0 <= i < |ms| - 1
      ensures !Orphan(ms[1..][i], ms[1..][i + 1..])
    {
      assert ms[1..][i + 1..] == ms[i + 2..];
      assert ms[i + 1] == ms[1..][i];
    }
    assert !Orphan(ms[0], ms[0 + 1..]);
  }

  lemma {:induction false} NoOrphansSuffix(ms: seq<Message>, k: nat)
    requires k <= |ms| && NoOrphans(ms)
    ensures NoOrphans(ms[k..])
  {
    if k == 0 {
      assert ms[0..] == ms;
    } else {
      NoOrphansTail(ms);
      NoOrphansSuffix(ms[1..], k - 1);
      assert ms[1..][k - 1..] == ms[k..];
    }
  }

  lemma {:induction false} DropOrphansClean(ms: seq<Message>)
    ensures NoOrphans(DropOrphans(ms))
  {
    if ms == [] {
    } else {
      DropOrphansClean(ms[1..]);
      OrphansDoNotAnswer(ms[1..]);
      if !Orphan(ms[0], ms[1..]) { NoOrphansCons(ms[0], DropOrphans(ms[1..])); }
    }
  }

  lemma {:induction false} DropOrphansStart(ms: seq<Message>)
    requires ms != [] ==> ms[0].role != Tool
    ensures DropOrphans(ms) != [] ==> DropOrphans(ms)[0].role != Tool
  {
    if ms != [] && Orphan(ms[0], ms[1..]) { DropOrphansStart(ms[1..]); }
  }

  lemma {:induction false} DropOrphansIsSubseq(ms: seq<Message>)
    ensures IsSubseq(DropOrphans(ms), ms)
  {
    if ms == [] {
    } else {
      DropOrphansIsSubseq(ms[1..]);
      SubseqCons(DropOrphans(ms[1..]), ms[1..], ms[0]);
      assert ms == [ms[0]] + ms[1..];
    }
  }

  lemma {:induction false} DropLeadingToolsIsSuffix(ms: seq<Message>)
    ensures var r := DropLeadingTools(ms);
            && |r| <= |ms| && r == ms[|ms| - |r|..]
            && (r != [] ==> r[0].role != Tool)
            && forall i :: 0 <= i < |ms| - |r| ==> ms[i].role == Tool
  {
    if ms != [] && ms[0].role == Tool { DropLeadingToolsIsSuffix(ms[1..]); }
  }

  /** The result is a well-paired subsequence of the input. */
  lemma CleanPairsWellPaired(ms: seq<Message>)
    ensures WellPaired(CleanPairs(ms))
    ensures IsSubseq(CleanPairs(ms), ms)
  {
    var r := DropLeadingTools(ms);
    DropLeadingToolsIsSuffix(ms);
    DropOrphansClean(r);
    DropOrphansStart(r);
    DropOrphansIsSubseq(r);
    SuffixIsSubseq(ms, |ms| - |r|);
    SubseqTrans(DropOrphans(r), r, ms);
  }

  lemma {:induction false} DropOrphansIdentity(ms: seq<Message>)
    requires NoOrphans(ms)
    ensures DropOrphans(ms) == ms
  {
    if ms == [] {
    } else {
      NoOrphansTail(ms);
      DropOrphansIdentity(ms[1..]);
    }
  }

  /** Lists already in that shape, and only those, are left alone. */
  lemma CleanPairsIdentityIff(ms: seq<Message>)
    ensures CleanPairs(ms) == ms <==> WellPaired(ms)
  {
    CleanPairsWellPaired(ms);
    if WellPaired(ms) { DropOrphansIdentity(ms); }
  }

  lemma CleanPairsIdempotent(ms: seq<Message>)
    ensures CleanPairs(CleanPairs(ms)) == CleanPairs(ms)
  {
    CleanPairsWellPaired(ms);
    CleanPairsIdentityIff(CleanPairs(ms));
  }

  /** Everything except tool-calling assistants, in order. */
  function Others(ms: seq<Message>): seq<Message> {
    if ms == [] then []
    else (if IsCaller(ms[0]) then [] else [ms[0]]) + Others(ms[1..])
  }

  /** Beyond the leading tool messages, only unanswered callers go. */
  lemma {:induction false} OnlyCallersDropped(ms: seq<Message>)
    ensures Others(DropOrphans(ms)) == Others(ms)
  {
    if ms == [] {
    } else {
      OnlyCallersDropped(ms[1..]);
      var kept := DropOrphans(ms[1..]);
      assert ([ms[0]] + kept)[1..] == kept;
    }
  }

  /** A tool message without any caller survives when it is not at the front. */
  lemma OrphanToolSurvives(u: Message, t: Message)
    requires u.role == User && t.role == Tool
    ensures CleanPairs([u, t]) == [u, t]
  {
    var ms := [u, t];
    assert ms[1..] == [t] && [t][1..] == [];
    assert DropOrphans([t]) == [t];
  }

  // ---------------------------------------------------------------------------------------
  // Starting with a system or user message
  // ---------------------------------------------------------------------------------------

  function SkipToStart(ms: seq<Message>): seq<Message> {
    if ms == [] || StartsConversation(ms[0]) then ms else SkipToStart(ms[1..])
  }

  /** What is skipped is exactly the part before the first system or user message. */
  lemma {:induction false} SkipToStartIsSuffix(ms: seq<Message>) returns (k: nat)
    ensures k <= |ms| && SkipToStart(ms) == ms[k..]
    ensures k < |ms| ==> StartsConversation(ms[k])
    ensures forall i :: 0 <= i < k ==> !StartsConversation(ms[i])
  {
    if ms == [] || StartsConversation(ms[0]) {
      k := 0;
    } else {
      k := SkipToStartIsSuffix(ms[1..]);
      k := k + 1;
    }
  }

  method EnsureStartsWithUserOrSystem(ms: seq<Message>) returns (messages: seq<Message>)
    ensures messages == SkipToStart(ms)
  {
    messages := ms;
    while |messages| > 0 && messages[0].role != System && messages[0].role != User
      invariant SkipToStart(messages) == SkipToStart(ms)
      decreases |messages|
    {
      messages := messages[1..];
    }
  }

  function Users(ms: seq<Message>): seq<Message> {
    if ms == [] then []
    else (if ms[0].role == User then [ms[0]] else []) + Users(ms[1..])
  }

  lemma {:induction false} UsersAppend(a: seq<Message>, b: seq<Message>)
    ensures Users(a + b) == Users(a) + Users(b)
  {
    if a == [] {
      assert a + b == b;
    } else {
      var h, x, y := if a[0].role == User then [a[0]] else [], Users(a[1..]), Users(b);
      UsersAppend(a[1..], b);
      assert (a + b)[1..] == a[1..] + b;
      assert h + (x + y) == (h + x) + y;
    }
  }

  lemma {:induction false} NoUsers(ms: seq<Message>)
    ensures Users(ms) == [] <==> !HasUser(ms)
  {
    if ms == [] {
    } else {
      NoUsers(ms[1..]);
      if HasUser(ms) {
        var i :| 0 <= i < |ms| && ms[i].role == User;
        if i > 0 { assert ms[1..][i - 1].role == User; }
      }
      if HasUser(ms[1..]) {
        var i :| 0 <= i < |ms| - 1 && ms[1..][i].role == User;
        assert ms[i + 1].role == User;
      }
    }
  }

  lemma {:induction false} DropOrphansKeepsUsers(ms: seq<Message>)
    ensures Users(DropOrphans(ms)) == Users(ms)
  {
    if ms == [] {
    } else {
      DropOrphansKeepsUsers(ms[1..]);
      var kept := DropOrphans(ms[1..]);
      assert ([ms[0]] + kept)[1..] == kept;
    }
  }

  /** Neither cleaning step ever loses a user message. */
  lemma CleaningKeepsUsers(ms: seq<Message>)
    ensures Users(SkipToStart(CleanPairs(ms))) == Users(ms)
  {
    hide Users, DropOrphans, DropLeadingTools, SkipToStart;
    var r := DropLeadingTools(ms);
    DropLeadingToolsIsSuffix(ms);
    PrefixWithoutUsers(ms, |ms| - |r|);
    DropOrphansKeepsUsers(r);
    var c := CleanPairs(ms);
    var k := SkipToStartIsSuffix(c);
    PrefixWithoutUsers(c, k);
  }

  lemma PrefixWithoutUsers(ms: seq<Message>, k: nat)
    requires k <= |ms| && forall i :: 0 <= i < k ==> ms[i].role != User
    ensures Users(ms[k..]) == Users(ms)
  {
    assert ms == ms[..k] + ms[k..];
    UsersAppend(ms[..k], ms[k..]);
    NoUsers(ms[..k]);
  }

  /** Both steps together give a well-paired subsequence that starts a conversation. */
  lemma CleanedShape(ms: seq<Message>)
    ensures var r := SkipToStart(CleanPairs(ms));
            IsSubseq(r, ms) && WellPaired(r) && (r != [] ==> StartsConversation(r[0]))
  {
    hide IsSubseq, NoOrphans, CleanPairs, SkipToStart;
    var c := CleanPairs(ms);
    CleanPairsWellPaired(ms);
    var k := SkipToStartIsSuffix(c);
    SuffixIsSubseq(c, k);
    SubseqTrans(c[k..], c, ms);
    NoOrphansSuffix(c, k);
  }
}
