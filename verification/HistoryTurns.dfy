/**
  How a conversation is stored turn by turn, and why cutting it anywhere is safe.
 */
module HistoryTurns {
  import opened Options
  import opened Subsequences
  import opened Messages
  import opened PairCleaning
  import opened HistoryCleaning

  /** One executed tool call; an unfilled slot has an empty name. */
  datatype ToolResult = ToolResult(
    id: string,
    name: string,
    content: string,
    callTokens: nat,
    contentTokens: nat,
    hasCode: bool,
    hasKeyword: bool)

  function CallMessage(r: ToolResult): Message {
    Message(Assistant, [r.id], "", r.callTokens, false, false, false, "")
  }

  function ResultMessage(r: ToolResult): Message {
    Message(Tool, [], r.id, r.contentTokens, r.hasCode, r.hasKeyword, false, r.content)
  }

  function Pairs(results: seq<ToolResult>): seq<Message> {
    if results == [] then []
    else
      var init, r := Pairs(results[..|results| - 1]), results[|results| - 1];
      if r.name == "" then init else init + [CallMessage(r), ResultMessage(r)]
  }

  function Executed(results: seq<ToolResult>): (f: seq<bool>)
    ensures |f| == |results|
  {
    seq(|results|, i requires 0 <= i < |results| => results[i].name != "")
  }

  /** What is appended, by position: two messages for every named result, its call and its answer. */
  lemma {:induction false} PairsAt(results: seq<ToolResult>, n: nat, i: nat)
    requires n <= |results|
    ensures |Pairs(results[..n])| == 2 * Rank(Executed(results), n)
    ensures i < n && results[i].name != "" ==>
              var p, ms, r := 2 * Rank(Executed(results), i), Pairs(results[..n]), results[i];
              && p + 1 < |ms|
              && ms[p].role == Assistant && ms[p].calls == [r.id] && ms[p].textTokens == r.callTokens && ms[p].body == ""
              && ms[p + 1].role == Tool && ms[p + 1].toolId == r.id && ms[p + 1].body == r.content
              && ms[p + 1].calls == [] && ms[p + 1].textTokens == r.contentTokens
  {
    if n == 0 {
    } else {
      PairsAt(results, n - 1, i);
      assert results[..n][..n - 1] == results[..n - 1];
      if i < n - 1 { RankGrows(Executed(results), i, n - 1); }
    }
  }

  /** Each executed call is appended as a call message and its result; a failed write reports no list. */
  method AppendToolCallMessages(ms: seq<Message>, results: seq<ToolResult>, writeOk: bool)
    returns (r: Option<seq<Message>>)
    ensures r == if Pairs(results) != [] && !writeOk then None else Some(ms + Pairs(results))
  {
    var llmMessages, toWrite := ms, [];
    for n := 0 to |results|
      invariant toWrite == Pairs(results[..n]) && llmMessages == ms + toWrite
    {
      assert results[..n + 1][..n] == results[..n];
      var tr := results[n];
      if tr.name == "" {
        continue;
      }
      toWrite := toWrite + [CallMessage(tr)];
      llmMessages := llmMessages + [CallMessage(tr)];
      toWrite := toWrite + [ResultMessage(tr)];
      llmMessages := llmMessages + [ResultMessage(tr)];
    }
    assert results[..|results|] == results;
    if |toWrite| > 0 && !writeOk {
      return None;
    }
    return Some(llmMessages);
  }

  /** What the storing code keeps true of a conversation. */
  predicate Chained(h: seq<Message>) {
    && (forall i :: 0 <= i < |h| && IsCaller(h[i]) ==> HasOwnAnswer(h, i))
    && ToolsFollowCallers(h)
    && NoAdjacentAssistants(h)
  }

  predicate HasOwnAnswer(h: seq<Message>, i: nat)
    requires i < |h|
  {
    |h[i].calls| == 1 && i + 1 < |h| && h[i + 1].role == Tool && h[i + 1].toolId == h[i].calls[0]
  }

  lemma ChainedAppend(a: seq<Message>, b: seq<Message>)
    requires Chained(a) && Chained(b)
    requires a != [] && b != [] ==> !(a[|a| - 1].role == Assistant && b[0].role == Assistant)
    ensures Chained(a + b)
  {
    var h := a + b;
    forall i | 0 <= i < |h| && IsCaller(h[i])
      ensures HasOwnAnswer(h, i)
    {
      if i < |a| { assert HasOwnAnswer(a, i); } else { assert HasOwnAnswer(b, i - |a|); }
    }
  }

  predicate AllCallsAnsweredAtOnce(ms: seq<Message>) { Chained(ms) && (ms != [] ==> IsCaller(ms[0]) && ms[|ms| - 1].role == Tool) }

  lemma {:induction false} PairsChained(results: seq<ToolResult>)
    ensures AllCallsAnsweredAtOnce(Pairs(results))
  {
    if results == [] {
    } else {
      var init, r := Pairs(results[..|results| - 1]), results[|results| - 1];
      PairsChained(results[..|results| - 1]);
      var pair := [CallMessage(r), ResultMessage(r)];
      assert HasOwnAnswer(pair, 0);
      assert Chained(pair);
      ChainedAppend(init, pair);
    }
  }

  /** A user message, some rounds of tool calls, and the reply if the turn got that far. */
  datatype Turn = Turn(user: Message, rounds: seq<seq<ToolResult>>, reply: Option<Message>)

  predicate ValidTurn(t: Turn) {
    t.user.role == User && (t.reply.Some? ==> t.reply.value.role == Assistant && !IsCaller(t.reply.value))
  }

  function AllPairs(rounds: seq<seq<ToolResult>>): seq<Message> {
    if rounds == [] then [] else AllPairs(rounds[..|rounds| - 1]) + Pairs(rounds[|rounds| - 1])
  }

  function TurnMessages(t: Turn): seq<Message> {
    [t.user] + AllPairs(t.rounds) + if t.reply.Some? then [t.reply.value] else []
  }

  function Stored(turns: seq<Turn>): seq<Message> {
    if turns == [] then [] else Stored(turns[..|turns| - 1]) + TurnMessages(turns[|turns| - 1])
  }

  lemma {:induction false} AllPairsChained(rounds: seq<seq<ToolResult>>)
    ensures AllCallsAnsweredAtOnce(AllPairs(rounds))
  {
    if rounds == [] {
    } else {
      AllPairsChained(rounds[..|rounds| - 1]);
      PairsChained(rounds[|rounds| - 1]);
      ChainedAppend(AllPairs(rounds[..|rounds| - 1]), Pairs(rounds[|rounds| - 1]));
    }
  }

  lemma {:induction false} TurnChained(t: Turn)
    requires ValidTurn(t)
    ensures Chained(TurnMessages(t)) && TurnMessages(t)[0].role == User
  {
    var pairs := AllPairs(t.rounds);
    AllPairsChained(t.rounds);
    ChainedAppend([t.user], pairs);
    if t.reply.Some? {
      ChainedAppend([t.user] + pairs, [t.reply.value]);
    } else {
      assert [t.user] + pairs + [] == [t.user] + pairs;
    }
  }

  /** Every stored conversation is chained. */
  lemma {:induction false} StoredChained(turns: seq<Turn>)
    requires forall i :: 0 <= i < |turns| ==> ValidTurn(turns[i])
    ensures Chained(Stored(turns))
    ensures turns != [] ==> Stored(turns) != [] && Stored(turns)[0].role == User
  {
    if turns == [] {
    } else {
      StoredChained(turns[..|turns| - 1]);
      TurnChained(turns[|turns| - 1]);
      ChainedAppend(Stored(turns[..|turns| - 1]), TurnMessages(turns[|turns| - 1]));
    }
  }

  predicate NoSystem(ms: seq<Message>) { forall i :: 0 <= i < |ms| ==> ms[i].role != System }

  lemma {:induction false} PairsNoSystem(results: seq<ToolResult>)
    ensures NoSystem(Pairs(results))
  {
    if results == [] {
    } else {
      PairsNoSystem(results[..|results| - 1]);
    }
  }

  lemma {:induction false} AllPairsNoSystem(rounds: seq<seq<ToolResult>>)
    ensures NoSystem(AllPairs(rounds))
  {
    if rounds == [] {
    } else {
      AllPairsNoSystem(rounds[..|rounds| - 1]);
      PairsNoSystem(rounds[|rounds| - 1]);
    }
  }

  lemma {:induction false} StoredNoSystem(turns: seq<Turn>)
    requires forall i :: 0 <= i < |turns| ==> ValidTurn(turns[i])
    ensures NoSystem(Stored(turns))
  {
    if turns == [] {
    } else {
      StoredNoSystem(turns[..|turns| - 1]);
      AllPairsNoSystem(turns[|turns| - 1].rounds);
    }
  }

  // ---------------------------------------------------------------------------------------
  // Cutting a stored conversation
  // ---------------------------------------------------------------------------------------

  /** Tool results carry pairwise different, non-empty ids. */
  predicate DistinctAnswers(h: seq<Message>) {
    && (forall i :: 0 <= i < |h| && h[i].role == Tool ==> h[i].toolId != "")
    && (forall i, j :: 0 <= i < j < |h| && h[i].role == Tool && h[j].role == Tool ==> h[i].toolId != h[j].toolId)
  }

  lemma AnsweredWhenDistinct(h: seq<Message>)
    requires Chained(h) && DistinctAnswers(h)
    ensures AllAnswered(h)
  {
    forall i | 0 <= i < |h| && IsCaller(h[i])
      ensures Answered(h, i)
    {
      assert HasOwnAnswer(h, i);
      var id := h[i].calls[0];
      assert Answers(h[i + 1], id);
      assert FirstAnswer(h, id) == i + 1;
    }
  }

  lemma DistinctWhenAnswered(h: seq<Message>)
    requires Chained(h) && AllAnswered(h)
    ensures DistinctAnswers(h)
  {
    forall j | 0 <= j < |h| && h[j].role == Tool
      ensures h[j].toolId != "" && FirstAnswer(h, h[j].toolId) == j
    {
      assert IsCaller(h[j - 1]) && HasOwnAnswer(h, j - 1) && Answered(h, j - 1);
      var id := h[j].toolId;
      assert id == h[j - 1].calls[0] && j - 1 < FirstAnswer(h, id) < |h|;
      assert Answers(h[FirstAnswer(h, id)], id);
      assert Answers(h[j], id);
    }
  }

  /** A stored conversation is left unchanged exactly when its tool results carry different ids. */
  lemma {:induction false} StoredUnchangedIffDistinct(turns: seq<Turn>)
    requires forall i :: 0 <= i < |turns| ==> ValidTurn(turns[i])
    ensures CleanHistory(Stored(turns)) == Stored(turns) <==> DistinctAnswers(Stored(turns))
  {
    hide CleanHistory, AllAnswered, DistinctAnswers;
    var h := Stored(turns);
    StoredChained(turns);
    CleanHistoryIdentityIff(h);
    if AllAnswered(h) { DistinctWhenAnswered(h); }
    if DistinctAnswers(h) { AnsweredWhenDistinct(h); }
  }

  lemma ChainedSuffix(h: seq<Message>, k: nat)
    requires Chained(h) && k <= |h| && (k < |h| ==> h[k].role != Tool)
    ensures Chained(h[k..])
  {
    var s := h[k..];
    forall i | 0 <= i < |s| && IsCaller(s[i])
      ensures HasOwnAnswer(s, i)
    {
      assert HasOwnAnswer(h, k + i);
    }
  }

  lemma DistinctSuffix(h: seq<Message>, k: nat)
    requires DistinctAnswers(h) && k <= |h|
    ensures DistinctAnswers(h[k..])
  {
  }

  /** Cutting anywhere and cleaning removes the messages before the first remaining user message, and
      changes nothing after it. */
  lemma {:induction false} CutSafety(turns: seq<Turn>, cut: nat) returns (k: nat)
    requires forall i :: 0 <= i < |turns| ==> ValidTurn(turns[i])
    requires DistinctAnswers(Stored(turns)) && cut <= |Stored(turns)|
    ensures cut <= k <= |Stored(turns)|
    ensures CleanHistory(Stored(turns)[cut..]) == Stored(turns)[k..]
    ensures forall i :: cut <= i < k ==> Stored(turns)[i].role != User
    ensures k < |Stored(turns)| ==> Stored(turns)[k].role == User
  {
    hide Stored, CleanHistory, Chained, DistinctAnswers, AllAnswered, SkipToStart;
    var h := Stored(turns);
    StoredChained(turns);
    StoredNoSystem(turns);
    var j := SkipToStartIsSuffix(h[cut..]);
    k := cut + j;
    var s := h[k..];
    assert h[cut..][j..] == s;
    forall i | cut <= i < k
      ensures h[i].role != User
    {
      assert h[i] == h[cut..][i - cut];
    }
    ChainedSuffix(h, k);
    DistinctSuffix(h, k);
    AnsweredWhenDistinct(s);
    TidySuffix(s);
    CleanHistoryIdentityIff(s);
    SameAfterSkip(h[cut..], s);
  }

  lemma TidySuffix(s: seq<Message>)
    requires Chained(s) && AllAnswered(s) && (s != [] ==> StartsConversation(s[0]))
    ensures Tidy(s)
  {
  }

  lemma {:induction false} SameAfterSkip(ms: seq<Message>, s: seq<Message>)
    requires s == SkipToStart(ms) && (s != [] ==> StartsConversation(s[0]))
    ensures CleanHistory(ms) == CleanHistory(s)
  {
    hide Sweep, Merge;
    assert SkipToStart(s) == s;
  }

  lemma {:induction false} OneRoundTurn(u: Message, r: ToolResult)
    requires r.name != ""
    ensures TurnMessages(Turn(u, [[r]], None)) == [u, CallMessage(r), ResultMessage(r)]
  {
    hide CallMessage, ResultMessage;
    var pair := [CallMessage(r), ResultMessage(r)];
    assert [r][..0] == [] && Pairs([r]) == [] + pair == pair;
    assert [[r]][..0] == [] && AllPairs([[r]]) == [] + pair == pair;
  }

  lemma {:induction false} StoredTwice(t: Turn)
    ensures Stored([t, t]) == TurnMessages(t) + TurnMessages(t)
  {
    hide TurnMessages;
    assert [t, t][..1] == [t] && [t][..0] == [];
    assert Stored([t]) == [] + TurnMessages(t) == TurnMessages(t);
  }

  /** Repeated ids do lose messages: the second round under the same id does not survive as stored. */
  lemma {:induction false} RepeatedIdLosesRound(u: Message, r: ToolResult)
    requires u.role == User && r.name != "" && r.id != ""
    ensures var turn := Turn(u, [[r]], None); CleanHistory(Stored([turn, turn])) != Stored([turn, turn])
  {
    hide CleanHistory, Stored, TurnMessages;
    var turn := Turn(u, [[r]], None);
    OneRoundTurn(u, r);
    StoredTwice(turn);
    var h := Stored([turn, turn]);
    assert h[2] == h[5] == ResultMessage(r);
    StoredUnchangedIffDistinct([turn, turn]);
  }
}
