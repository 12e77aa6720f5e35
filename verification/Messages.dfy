/**
  Chat messages as the context-trimming code sees them.  Text content appears only through what
  the code asks of it: its estimated tokens and the three content tests of the importance score.
 */
module Messages {
  import opened Subsequences

  datatype Role = System | User | Assistant | Tool | OtherRole

  datatype Message = Message(
    role: Role,
    calls: seq<string>,       // ids of the tool calls an assistant message carries
    toolId: string,           // the call a tool message answers
    textTokens: nat,          // estimated tokens of text, media parts and tool calls together
    hasCode: bool,            // contains a ``` fence
    hasKeyword: bool,         // contains one of the "remember this" keywords
    hasReasoning: bool,
    body: string)

  predicate IsCaller(m: Message) { m.role == Assistant && |m.calls| > 0 }

  predicate StartsConversation(m: Message) { m.role == System || m.role == User }

  function Estimate(m: Message): (t: nat)
    ensures t >= 11
  {
    var total := m.textTokens + 10;
    if total < 11 then 11 else total
  }

  function Tokens(ms: seq<Message>): nat {
    if ms == [] then 0 else Estimate(ms[0]) + Tokens(ms[1..])
  }

  lemma {:induction false} TokensAppend(a: seq<Message>, b: seq<Message>)
    ensures Tokens(a + b) == Tokens(a) + Tokens(b)
  {
    if a == [] {
      assert a + b == b;
    } else {
      TokensAppend(a[1..], b);
      assert (a + b)[1..] == a[1..] + b;
    }
  }

  function TextTokens(ms: seq<Message>): nat { if ms == [] then 0 else ms[0].textTokens + TextTokens(ms[1..]) }

  function Empties(ms: seq<Message>): nat {
    if ms == [] then 0 else (if ms[0].textTokens == 0 then 1 else 0) + Empties(ms[1..])
  }

  /** Ten tokens of overhead per message, and one more for an empty one. */
  lemma {:induction false} TokensMeaning(ms: seq<Message>)
    ensures Tokens(ms) == TextTokens(ms) + 10 * |ms| + Empties(ms)
  {
    if ms == [] {
    } else {
      TokensMeaning(ms[1..]);
    }
  }

  /** Leaving messages out never makes a request larger. */
  lemma {:induction false} SubseqTokens(a: seq<Message>, b: seq<Message>)
    requires IsSubseq(a, b)
    ensures Tokens(a) <= Tokens(b)
    decreases |b|
  {
    hide Estimate;
    if a == [] {
    } else {
      if a[0] == b[0] && IsSubseq(a[1..], b[1..]) {
        SubseqTokens(a[1..], b[1..]);
      } else {
        SubseqTokens(a, b[1..]);
      }
    }
  }

  const IMPORTANCE_MUST_KEEP := 5

  /** `ScoreChatMessage`, accumulated rule by rule. */
  method ScoreChatMessage(m: Message) returns (score: int)
    ensures score == Score(m)
    ensures m.role == System ==> score == 0
    ensures m.role != System ==>
              score == 3 * (if m.hasCode then 1 else 0) + 2 * (if m.hasKeyword then 1 else 0) +
                       (if m.role == Tool || IsCaller(m) then 2
                        else if m.role == User || (m.role == Assistant && !m.hasReasoning) then 1 else 0)
  {
    if m.role == System { return 0; }
    score := 0;
    if m.hasCode { score := score + 3; }
    if m.hasKeyword { score := score + 2; }
    match m.role {
      case Tool => score := score + 2;
      case Assistant =>
        if |m.calls| > 0 {
          score := score + 2;
        } else if !m.hasReasoning {
          score := score + 1;
        }
      case User => score := score + 1;
      case System =>
      case OtherRole =>
    }
    if score > 10 { score := 10; }
  }

  function RoleScore(m: Message): int {
    match m.role
    case Tool => 2
    case Assistant => if IsCaller(m) then 2 else if m.hasReasoning then 0 else 1
    case User => 1
    case System => 0
    case OtherRole => 0
  }

  function Score(m: Message): int {
    if m.role == System then 0
    else (if m.hasCode then 3 else 0) + (if m.hasKeyword then 2 else 0) + RoleScore(m)
  }

  predicate IsMustKeep(score: int) { score >= IMPORTANCE_MUST_KEEP }

  predicate MustKeep(m: Message) { IsMustKeep(Score(m)) }

  /**
    What is protected in practice: a code fence is needed, and so is a keyword, a tool result or a
    tool call.  Neither a code block nor an explicit instruction is enough alone, and no score
    exceeds 7, so the cap at 10 is never reached.
   */
  lemma MustKeepIffCodeAndMore(m: Message)
    ensures 0 <= Score(m) <= 7
    ensures MustKeep(m) <==> m.role != System && m.hasCode && (m.hasKeyword || m.role == Tool || IsCaller(m))
  {
  }

  /** A code block by itself, and an explicit instruction by itself, are not protected. */
  lemma CodeOrInstructionAlone(code: Message, wish: Message)
    requires code.role == User && code.hasCode && !code.hasKeyword
    requires wish.role == User && wish.hasKeyword && !wish.hasCode
    ensures !MustKeep(code) && !MustKeep(wish)
  {
  }

  function MustKeepTokens(ms: seq<Message>): nat {
    if ms == [] then 0
    else (if MustKeep(ms[0]) then Estimate(ms[0]) else 0) + MustKeepTokens(ms[1..])
  }

  predicate HasUser(ms: seq<Message>) { exists i :: 0 <= i < |ms| && ms[i].role == User }
}
