/**
  `buildHistoryFromDB`: the newest stored messages that fit the context, in their order.
 */
module HistoryBuild {
  import opened Messages

  /** A stored message; `calls` is what its tool-call column parses to (empty if absent or unreadable). */
  datatype StoreMessage = StoreMessage(
    id: string,
    role: Role,
    toolCallId: string,
    calls: seq<string>,
    estimated: nat,
    text: Message)

  /** What the current request contributes: its attachments' tokens and how a user message is built. */
  datatype Request = Request(attachmentTokens: seq<nat>, userMessage: (StoreMessage, bool) -> Message)

  function Sum(xs: seq<nat>): nat { if xs == [] then 0 else Sum(xs[..|xs| - 1]) + xs[|xs| - 1] }

  function Cost(m: StoreMessage, lastId: string, req: Request): (t: nat)
    ensures t >= 1
  {
    (if m.estimated == 0 then 1 else m.estimated) +
    (if m.id == lastId then Sum(req.attachmentTokens) else 0)
  }

  function Convert(m: StoreMessage, lastId: string, req: Request): Message {
    if m.role == Tool then m.text.(role := Tool, toolId := m.toolCallId, calls := [])
    else if m.role == Assistant && |m.calls| > 0 then m.text.(role := Assistant, calls := m.calls)
    else if m.role == User then req.userMessage(m, m.id == lastId)
    else m.text.(role := m.role, calls := [])
  }

  function TotalCost(db: seq<StoreMessage>, lastId: string, req: Request): nat {
    if db == [] then 0 else Cost(db[0], lastId, req) + TotalCost(db[1..], lastId, req)
  }

  function ConvertAll(db: seq<StoreMessage>, lastId: string, req: Request): seq<Message> {
    seq(|db|, i requires 0 <= i < |db| => Convert(db[i], lastId, req))
  }

  /** `k` splits the stored messages: the part from `k` on fits, and one message more would not. */
  ghost predicate IsSplit(db: seq<StoreMessage>, k: nat, initial: int, limit: int, lastId: string, req: Request) {
    && k <= |db|
    && (k < |db| ==> initial + TotalCost(db[k..], lastId, req) <= limit)
    && (k > 0 ==> initial + TotalCost(db[k - 1..], lastId, req) > limit)
  }

  /** How many of the messages carry the current attachments: those with the id of the last one. */
  function Carriers(db: seq<StoreMessage>, lastId: string): nat {
    if db == [] then 0 else (if db[0].id == lastId then 1 else 0) + Carriers(db[1..], lastId)
  }

  /** The estimates alone, an empty one counting as 1. */
  function Estimates(db: seq<StoreMessage>): nat {
    if db == [] then 0 else (if db[0].estimated > 0 then db[0].estimated else 1) + Estimates(db[1..])
  }

  /** The running total: the estimates, and all attachments once for every message that carries them. */
  lemma {:induction false} TotalCostMeaning(db: seq<StoreMessage>, lastId: string, req: Request)
    ensures TotalCost(db, lastId, req) == Estimates(db) + Carriers(db, lastId) * Sum(req.attachmentTokens)
  {
    if db == [] {
    } else {
      var r, a := Carriers(db[1..], lastId), Sum(req.attachmentTokens);
      TotalCostMeaning(db[1..], lastId, req);
      hide Sum;
      Distribute(r, a);
    }
  }

  lemma Distribute(r: nat, a: nat)
    ensures (1 + r) * a == a + r * a
  {
  }

  /** With different ids only the last message carries them, so every non-empty suffix pays for them once. */
  lemma {:induction false} SuffixCost(db: seq<StoreMessage>, i: nat, req: Request)
    requires i < |db| && forall j, k :: 0 <= j < k < |db| ==> db[j].id != db[k].id
    ensures TotalCost(db[i..], db[|db| - 1].id, req) == Estimates(db[i..]) + Sum(req.attachmentTokens)
    decreases |db| - i
  {
    var lastId := db[|db| - 1].id;
    assert db[i..][1..] == db[i + 1..];
    if i == |db| - 1 {
      assert db[i + 1..] == [];
    } else {
      SuffixCost(db, i + 1, req);
    }
  }

  /** The sum of a list, front to back. */
  lemma {:induction false} SumSplits(xs: seq<nat>, i: nat)
    requires i <= |xs|
    ensures Sum(xs) == Sum(xs[..i]) + Sum(xs[i..])
    decreases |xs|
  {
    if i == |xs| {
      assert xs[..i] == xs && xs[i..] == [];
    } else {
      var init := xs[..|xs| - 1];
      SumSplits(init, i);
      assert init[..i] == xs[..i] && xs[i..][..|xs| - 1 - i] == init[i..];
    }
  }

  /** What each kind of stored message becomes. */
  lemma ConvertMeaning(m: StoreMessage, lastId: string, req: Request)
    ensures var c := Convert(m, lastId, req);
            && (m.role == Tool ==> c.role == Tool && c.toolId == m.toolCallId && c.calls == [])
            && (m.role == Assistant ==> c.role == Assistant && c.calls == m.calls)
            && (m.role == User ==> c == req.userMessage(m, m.id == lastId))
            && (m.role != User ==> c.body == m.text.body && c.textTokens == m.text.textTokens && c.hasCode == m.text.hasCode)
  {
  }

  lemma TotalCostCons(db: seq<StoreMessage>, i: nat, lastId: string, req: Request)
    requires i < |db|
    ensures TotalCost(db[i..], lastId, req) == Cost(db[i], lastId, req) + TotalCost(db[i + 1..], lastId, req)
  {
    assert db[i..][1..] == db[i + 1..];
  }

  lemma {:induction false} TotalCostShrinks(db: seq<StoreMessage>, i: nat, j: nat, lastId: string, req: Request)
    requires i <= j <= |db|
    ensures TotalCost(db[j..], lastId, req) + (j - i) <= TotalCost(db[i..], lastId, req)
    decreases j - i
  {
    if i < j {
      TotalCostCons(db, i, lastId, req);
      TotalCostShrinks(db, i + 1, j, lastId, req);
    }
  }

  /** There is only one such split. */
  lemma SplitUnique(db: seq<StoreMessage>, j: nat, k: nat, initial: int, limit: int, lastId: string, req: Request)
    requires IsSplit(db, j, initial, limit, lastId, req) && IsSplit(db, k, initial, limit, lastId, req)
    ensures j == k
  {
    if j < k { TotalCostShrinks(db, j, k - 1, lastId, req); }
    if k < j { TotalCostShrinks(db, k, j - 1, lastId, req); }
  }

  method AttachmentTokens(m: StoreMessage, lastId: string, req: Request) returns (estimated: nat)
    ensures estimated == Cost(m, lastId, req)
  {
    estimated := m.estimated;
    if estimated == 0 { estimated := 1; }
    if m.id == lastId && |req.attachmentTokens| > 0 {
      ghost var base := estimated;
      for a := 0 to |req.attachmentTokens|
        invariant estimated == base + Sum(req.attachmentTokens[..a])
      {
        assert req.attachmentTokens[..a + 1][..a] == req.attachmentTokens[..a];
        estimated := estimated + req.attachmentTokens[a];
      }
      assert req.attachmentTokens[..|req.attachmentTokens|] == req.attachmentTokens;
    }
  }

  /** The final in-place reversal. */
  method ReverseInPlace(xs: array<Message>)
    modifies xs
    ensures forall i :: 0 <= i < xs.Length ==> xs[i] == old(xs[xs.Length - 1 - i])
  {
    var i, j := 0, xs.Length - 1;
    while i < j
      invariant 0 <= i && i + j == xs.Length - 1 && i <= j + 1
      invariant forall n :: 0 <= n < i ==> xs[n] == old(xs[xs.Length - 1 - n])
      invariant forall n :: j < n < xs.Length ==> xs[n] == old(xs[xs.Length - 1 - n])
      invariant forall n :: i <= n <= j ==> xs[n] == old(xs[n])
    {
      xs[i], xs[j] := xs[j], xs[i];
      i, j := i + 1, j - 1;
    }
  }

  /**
    History and trimmed part: the stored messages are split at one point; the history is the
    one-to-one image of the kept suffix, in order, and the suffix is the longest that fits.
   */
  method BuildHistoryFromDB(db: seq<StoreMessage>, req: Request, initialTokens: int, effectiveMax: int)
    returns (history: seq<Message>, trimmed: seq<StoreMessage>)
    ensures db == [] ==> history == [] && trimmed == []
    ensures db != [] ==>
              var lastId, k := db[|db| - 1].id, |trimmed|;
              && IsSplit(db, k, initialTokens, effectiveMax, lastId, req)
              && trimmed == db[..k]
              && history == ConvertAll(db[k..], lastId, req)
  {
    history, trimmed := [], [];
    if |db| == 0 { return; }
    hide Cost, Convert;
    var estimatedTokens := initialTokens;
    var lastMsgId := db[|db| - 1].id;
    var i := |db| - 1;
    assert TotalCost(db[|db|..], lastMsgId, req) == 0;
    while i >= 0
      invariant -1 <= i < |db| && |history| == |db| - 1 - i
      invariant estimatedTokens == initialTokens + TotalCost(db[i + 1..], lastMsgId, req)
      invariant i + 1 < |db| ==> estimatedTokens <= effectiveMax
      invariant forall n :: 0 <= n < |history| ==> history[n] == Convert(db[|db| - 1 - n], lastMsgId, req)
      invariant trimmed == []
      decreases i
    {
      TotalCostCons(db, i, lastMsgId, req);
      var m := db[i];
      var estimated := AttachmentTokens(m, lastMsgId, req);
      if estimatedTokens + estimated > effectiveMax {
        trimmed := db[..i + 1];
        break;
      }
      estimatedTokens := estimatedTokens + estimated;
      history := history + [Convert(m, lastMsgId, req)];
      i := i - 1;
    }
    var cells := new Message[|history|](n requires 0 <= n < |history| => history[n]);
    ReverseInPlace(cells);
    history := cells[..];
    assert history == ConvertAll(db[|trimmed|..], lastMsgId, req);
  }
}
