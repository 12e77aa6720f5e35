/**
  The streaming accumulator: it turns the server's chunks into the stored reply and into the
  events sent to the window.  The clock is an arbitrary reading supplied with each chunk.
 */
module Stream {
  import opened Options
  import opened Utf8
  import opened TokenBatching
  import Reassembly
  import TC = ToolCallAssembly

  const MAX_BUFFER := 10 * 1024 * 1024

  function TokenText(events: seq<Event>): Bytes {
    if events == [] then []
    else TokenText(events[..|events| - 1]) +
         if events[|events| - 1].Token? then events[|events| - 1].text else []
  }

  function ThinkingText(events: seq<Event>): Bytes {
    if events == [] then []
    else ThinkingText(events[..|events| - 1]) +
         if events[|events| - 1].Thinking? then events[|events| - 1].text else []
  }

  lemma TextSnoc(events: seq<Event>, e: Event)
    ensures TokenText(events + [e]) == TokenText(events) + if e.Token? then e.text else []
    ensures ThinkingText(events + [e]) == ThinkingText(events) + if e.Thinking? then e.text else []
  {
    assert (events + [e])[..|events|] == events;
  }

  /** The token events from `start` on, followed by the buffered tokens, spell `text`. */
  ghost predicate Sent(events: seq<Event>, start: nat, buf: Bytes, text: Bytes) {
    start <= |events| && TokenText(events[start..]) + buf == text
  }

  /** All thinking events together spell `text`. */
  ghost predicate Thought(events: seq<Event>, text: Bytes) { ThinkingText(events) == text }

  /** New text may be buffered, or sent together with everything buffered before it. */
  lemma SentMore(events: seq<Event>, start: nat, buf: Bytes, text: Bytes, fixed: Bytes)
    requires Sent(events, start, buf, text)
    ensures Sent(events, start, buf + fixed, text + fixed)
    ensures Sent(events + [Token(buf + fixed)], start, [], text + fixed)
  {
    var e := Token(buf + fixed);
    var tail := events[start..];
    TextSnoc(tail, e);
    assert (events + [e])[start..] == tail + [e];
    assert TokenText(tail) + buf + fixed == TokenText(tail) + (buf + fixed) == TokenText(tail) + (buf + fixed) + [];
  }

  lemma SentThought(events: seq<Event>, start: nat, buf: Bytes, text: Bytes, fixed: Bytes)
    requires Sent(events, start, buf, text)
    ensures Sent(events + [Thinking(fixed)], start, buf, text)
  {
    var e := Thinking(fixed);
    TextSnoc(events[start..], e);
    assert (events + [e])[start..] == events[start..] + [e];
    assert TokenText(events[start..]) + [] == TokenText(events[start..]);
  }

  lemma SentNothing(events: seq<Event>)
    ensures Sent(events, |events|, [], [])
  {
  }

  lemma ThoughtMore(events: seq<Event>, text: Bytes, fixed: Bytes)
    requires Thought(events, text)
    ensures Thought(events + [Thinking(fixed)], text + fixed)
    ensures Thought(events + [Token(fixed)], text)
  {
    TextSnoc(events, Thinking(fixed));
    TextSnoc(events, Token(fixed));
    assert text + [] == text;
  }

  /** `text` is `earlier` followed by what the deltas spell so far, and `pending` is held back. */
  ghost predicate Rebuilt(deltas: seq<Bytes>, earlier: Bytes, text: Bytes, pending: Bytes) {
    text == earlier + Reassembly.FeedAll(deltas).out && pending == Reassembly.FeedAll(deltas).pending
  }

  lemma RebuiltMore(deltas: seq<Bytes>, earlier: Bytes, text: Bytes, pending: Bytes, delta: Bytes)
    requires Rebuilt(deltas, earlier, text, pending)
    ensures Rebuilt(deltas + [delta], earlier, text + Repair(Settled(pending + delta)), Held(pending + delta))
  {
    hide Repair, Settled, Held;
    Reassembly.FeedAllSnoc(deltas, delta);
  }

  lemma RebuiltNothing(earlier: Bytes)
    ensures Rebuilt([], earlier, earlier, [])
  {
    assert earlier + [] == earlier;
  }

  class StreamAccumulator {
    var fullContent: Bytes
    var fullThinking: Bytes
    var finishReason: string
    var toolCallMap: TC.CallMap
    var pendingBytes: Bytes
    var pendingThink: Bytes
    var firstRoundThinking: Bytes
    var tokenBuf: Bytes
    var lastTokenEmit: Option<int>
    var firstTokenSent: bool

    var events: seq<Event>              // everything sent to the window so far

    ghost var contentDeltas: seq<Bytes>       // what the server sent since the last reset
    ghost var thinkDeltas: seq<Bytes>
    ghost var toolDeltas: seq<TC.Delta>
    ghost var earlierThinking: Bytes          // thinking text of the rounds before the last reset
    ghost var roundStart: nat                 // events already sent at the last reset

    /** The stored text and the emitted text agree, and both follow from what the server sent. */
    ghost predicate Valid()
      reads `fullContent, `pendingBytes, `contentDeltas, `fullThinking, `pendingThink, `thinkDeltas, `earlierThinking,
            `events, `roundStart, `tokenBuf, `firstTokenSent, `toolCallMap, `toolDeltas
    {
      && Reassembled()
      && Emitted()
      && toolCallMap == TC.ApplyAll(map[], toolDeltas)
    }

    ghost function Texts(): View
      reads `fullContent, `fullThinking, `pendingBytes, `pendingThink, `tokenBuf, `lastTokenEmit, `firstTokenSent
    {
      View(fullContent, fullThinking, pendingBytes, pendingThink, tokenBuf, lastTokenEmit, firstTokenSent)
    }

    ghost predicate Reassembled()
      reads `fullContent, `pendingBytes, `contentDeltas, `fullThinking, `pendingThink, `thinkDeltas, `earlierThinking
    {
      && Rebuilt(contentDeltas, [], fullContent, pendingBytes)
      && ThinkingRebuilt()
    }

    ghost predicate ThinkingRebuilt()
      reads `fullThinking, `pendingThink, `thinkDeltas, `earlierThinking
    {
      Rebuilt(thinkDeltas, earlierThinking, fullThinking, pendingThink)
    }

    ghost predicate Emitted()
      reads `events, `roundStart, `tokenBuf, `fullContent, `fullThinking, `firstTokenSent
    {
      && Sent(events, roundStart, tokenBuf, fullContent)
      && Thought(events, fullThinking)
      && (!firstTokenSent ==> fullContent == [] && tokenBuf == [])
      && |tokenBuf| < TOKEN_BATCH_SIZE
    }

    constructor ()
      ensures Valid()
      ensures Texts() == FRESH && events == [] && contentDeltas == [] && thinkDeltas == [] && toolDeltas == []
      ensures earlierThinking == [] && roundStart == 0
    {
      fullContent, fullThinking, finishReason, toolCallMap := [], [], "", map[];
      pendingBytes, pendingThink, firstRoundThinking := [], [], [];
      tokenBuf, lastTokenEmit, firstTokenSent, events := [], None, false, [];
      contentDeltas, thinkDeltas, toolDeltas, earlierThinking, roundStart := [], [], [], [], 0;
    }

    method EmitForConv(e: Event)
      modifies `events
      ensures events == old(events) + [e]
    {
      events := events + [e];
    }

    predicate IntervalElapsed(now: int)
      reads `lastTokenEmit
    {
      Elapsed(lastTokenEmit, now)
    }

    /** The first text goes out at once; later text waits for 48 bytes or 16 milliseconds. */
    method EmitTokenBatched(fixed: Bytes, checkedAt: int, emittedAt: int, ghost text: Bytes)
      requires |tokenBuf| < TOKEN_BATCH_SIZE && (!firstTokenSent ==> tokenBuf == [])
      requires Sent(events, roundStart, tokenBuf, text) && Thought(events, fullThinking)
      modifies `events, `tokenBuf, `lastTokenEmit, `firstTokenSent
      ensures |tokenBuf| < TOKEN_BATCH_SIZE && (!firstTokenSent ==> tokenBuf == [])
      ensures Sent(events, roundStart, tokenBuf, text + fixed) && Thought(events, fullThinking)
      ensures (Texts(), events) ==
              var (after, sent) := Batched(old(Texts()), fixed, checkedAt, emittedAt); (after, old(events) + sent)
    {
      hide Sent, Thought;
      SentMore(events, roundStart, tokenBuf, text, fixed);
      ThoughtMore(events, fullThinking, tokenBuf + fixed);
      if !firstTokenSent && fixed != [] {
        firstTokenSent := true;
        assert tokenBuf + fixed == fixed;
        EmitForConv(Token(fixed));
        lastTokenEmit := Some(emittedAt);
        return;
      }
      tokenBuf := tokenBuf + fixed;
      if |tokenBuf| >= TOKEN_BATCH_SIZE || IntervalElapsed(checkedAt) {
        EmitForConv(Token(tokenBuf));
        tokenBuf := [];
        lastTokenEmit := Some(emittedAt);
      } else {
        assert events + [] == events;
      }
    }

    method FlushTokenBuffer(ghost text: Bytes)
      requires Sent(events, roundStart, tokenBuf, text) && Thought(events, fullThinking)
      modifies `events, `tokenBuf
      ensures (Texts(), events) == var (after, sent) := Flush(old(Texts())); (after, old(events) + sent)
      ensures Sent(events, roundStart, tokenBuf, text) && Thought(events, fullThinking)
    {
      hide Sent, Thought;
      SentMore(events, roundStart, tokenBuf, text, []);
      ThoughtMore(events, fullThinking, tokenBuf);
      assert tokenBuf + [] == tokenBuf && text + [] == text;
      if |tokenBuf| > 0 {
        EmitForConv(Token(tokenBuf));
        tokenBuf := [];
      } else {
        assert events + [] == events;
      }
    }

    /** One delta of reply text. */
    method OnContent(delta: Bytes, checkedAt: int, emittedAt: int)
      requires Valid()
      modifies `fullContent, `pendingBytes, `events, `tokenBuf, `lastTokenEmit, `firstTokenSent, `contentDeltas
      ensures Valid()
      ensures contentDeltas == old(contentDeltas) + [delta]
      ensures (Texts(), events) ==
              var (after, sent) := TakeContent(old(Texts()), delta, checkedAt, emittedAt); (after, old(events) + sent)
    {
      hide Utf8.Repair, Utf8.Settled, Utf8.Held, Rebuilt, Sent, Thought, TC.ApplyAll, Elapsed;
      RebuiltMore(contentDeltas, [], fullContent, pendingBytes, delta);
      var combined := pendingBytes + delta;
      var valid, pending := TruncateIncompleteUTF8(combined);
      pendingBytes := pending;
      var fixed := FixUTF8(valid);
      ghost var text := fullContent;
      fullContent := fullContent + fixed;
      EmitTokenBatched(fixed, checkedAt, emittedAt, text);
      contentDeltas := contentDeltas + [delta];
    }

    /** One delta of thinking text; it is sent on without batching. */
    method OnReasoning(delta: Bytes)
      requires Valid()
      modifies `fullThinking, `pendingThink, `events, `thinkDeltas
      ensures Valid()
      ensures thinkDeltas == old(thinkDeltas) + [delta]
      ensures (Texts(), events) == var (after, sent) := TakeReasoning(old(Texts()), delta); (after, old(events) + sent)
    {
      hide Utf8.Repair, Utf8.Settled, Utf8.Held, Rebuilt, Sent, Thought, TC.ApplyAll;
      RebuiltMore(thinkDeltas, earlierThinking, fullThinking, pendingThink, delta);
      var combined := pendingThink + delta;
      var valid, pending := TruncateIncompleteUTF8(combined);
      pendingThink := pending;
      var fixed := FixUTF8(valid);
      ThoughtMore(events, fullThinking, fixed);
      SentThought(events, roundStart, tokenBuf, fullContent, fixed);
      fullThinking := fullThinking + fixed;
      EmitForConv(Thinking(fixed));
      thinkDeltas := thinkDeltas + [delta];
    }

    /** The fragments of a chunk, in their order. */
    method OnToolDeltas(deltas: seq<TC.Delta>)
      requires Valid()
      modifies `toolCallMap, `toolDeltas
      ensures Valid() && toolDeltas == old(toolDeltas) + deltas
    {
      hide Reassembled, Emitted;
      TC.ApplyAllAppend(map[], toolDeltas, deltas);
      var calls := toolCallMap;
      for n := 0 to |deltas|
        invariant calls == TC.ApplyAll(toolCallMap, deltas[..n])
      {
        var tc := deltas[n];
        var idx := tc.index;
        assert deltas[..n + 1][..n] == deltas[..n];
        if tc.id != "" {
          if idx in calls {
            calls := calls[idx := calls[idx].(args := calls[idx].args + tc.args)];
          } else {
            calls := calls[idx := TC.ToolCall(tc.index, tc.id, tc.typ, tc.name, tc.args)];
          }
        } else {
          if idx in calls {
            calls := calls[idx := calls[idx].(args := calls[idx].args + tc.args)];
          }
        }
      }
      assert deltas[..|deltas|] == deltas;
      toolCallMap, toolDeltas := calls, toolDeltas + deltas;
    }

    method OnFinish(reason: string)
      requires Valid()
      modifies `events, `tokenBuf, `finishReason
      ensures Valid() && tokenBuf == [] && finishReason == reason
      ensures (Texts(), events) == var (after, sent) := Flush(old(Texts())); (after, old(events) + sent)
    {
      hide Sent, Thought, TC.ApplyAll, Reassembled;
      FlushTokenBuffer(fullContent);
      finishReason := reason;
    }

    function Extended(ds: seq<Bytes>, d: Bytes): seq<Bytes> { if d == [] then ds else ds + [d] }

    /** The texts of a chunk: reply first, then thinking. */
    method TakeTexts(chunk: Chunk)
      requires Valid()
      modifies `fullContent, `pendingBytes, `events, `tokenBuf, `lastTokenEmit, `firstTokenSent, `contentDeltas,
               `fullThinking, `pendingThink, `thinkDeltas
      ensures Valid()
      ensures contentDeltas == Extended(old(contentDeltas), chunk.content)
      ensures thinkDeltas == Extended(old(thinkDeltas), chunk.reasoning)
      ensures Texts() == AfterTexts(old(Texts()), chunk).0
      ensures events == old(events) + AfterTexts(old(Texts()), chunk).1
    {
      hide Valid, TakeContent, TakeReasoning;
      if chunk.content != [] {
        OnContent(chunk.content, chunk.checkedAt, chunk.emittedAt);
      } else {
        assert events + [] == events;
      }
      if chunk.reasoning != [] {
        OnReasoning(chunk.reasoning);
      } else {
        assert events + [] == events;
      }
    }

    /**
      One chunk.  It is refused, without any effect, once the stored texts exceed 10 MB;
      otherwise everything it carries is taken in, and a finish reason empties the token buffer.
     */
    method Callback(chunk: Chunk) returns (ok: bool)
      requires Valid()
      modifies `fullContent, `pendingBytes, `events, `tokenBuf, `lastTokenEmit, `firstTokenSent, `contentDeltas,
               `fullThinking, `pendingThink, `thinkDeltas, `toolCallMap, `toolDeltas, `finishReason
      ensures Valid()
      ensures ok <==> !chunk.hasChoice || |old(fullContent)| + |old(fullThinking)| <= 10 * 1024 * 1024
      ensures !ok || !chunk.hasChoice ==> unchanged(this)
      ensures ok && chunk.hasChoice ==>
                && contentDeltas == Extended(old(contentDeltas), chunk.content)
                && thinkDeltas == Extended(old(thinkDeltas), chunk.reasoning)
                && toolDeltas == old(toolDeltas) + chunk.toolDeltas
                && finishReason == (if chunk.finish.Some? then chunk.finish.value else old(finishReason))
                && (chunk.finish.Some? ==> tokenBuf == [])
                && Texts() == TakeChunk(old(Texts()), chunk).0
                && events == old(events) + TakeChunk(old(Texts()), chunk).1
      ensures old(events) <= events
    {
      hide Valid, AfterTexts, Flush;
      if !chunk.hasChoice { return true; }
      if |fullContent| + |fullThinking| > MAX_BUFFER { return false; }
      TakeTexts(chunk);
      OnToolDeltas(chunk.toolDeltas);
      if chunk.finish.Some? {
        OnFinish(chunk.finish.value);
      }
      return true;
    }

    /**
      Once the token buffer is empty, the window has received the repaired text of the round, up to
      the at most three bytes of an unfinished character; thinking text is never behind.
     */
    lemma Delivered()
      requires Valid() && tokenBuf == []
      ensures TokenText(events[roundStart..]) == fullContent
      ensures fullContent + Repair(pendingBytes) == Repair(Reassembly.Flatten(contentDeltas))
      ensures ThinkingText(events) == fullThinking
      ensures fullThinking + Repair(pendingThink) == earlierThinking + Repair(Reassembly.Flatten(thinkDeltas))
      ensures |pendingBytes| <= 3 && |pendingThink| <= 3
    {
      hide Utf8.Repair, Reassembly.FeedAll, TokenText, ThinkingText;
      Reassembly.NothingLost(contentDeltas);
      Reassembly.NothingLost(thinkDeltas);
      assert TokenText(events[roundStart..]) + [] == TokenText(events[roundStart..]);
      var out := Reassembly.FeedAll(thinkDeltas).out;
      assert earlierThinking + out + Repair(pendingThink) == earlierThinking + (out + Repair(pendingThink));
    }

    /** The calls of this round, by index; the order in which the map is walked cannot matter. */
    method ToolCalls() returns (r: seq<TC.ToolCall>)
      requires Valid()
      ensures TC.Lists(r, TC.ApplyAll(map[], toolDeltas))
    {
      forall i | i in toolCallMap
        ensures toolCallMap[i].index == i
      {
        TC.EachIndexOnItsOwn(toolDeltas, i);
      }
      r := TC.ListCalls(toolCallMap);
    }

    /** Only the first round that did any thinking is remembered separately. */
    method SaveFirstRoundThinking()
      modifies `firstRoundThinking
      ensures firstRoundThinking == if old(firstRoundThinking) == [] then fullThinking else old(firstRoundThinking)
    {
      if |fullThinking| > 0 && firstRoundThinking == [] {
        firstRoundThinking := fullThinking;
      }
    }

    method ResetReply()
      requires Valid()
      modifies `fullContent, `tokenBuf, `lastTokenEmit, `firstTokenSent, `pendingBytes, `contentDeltas, `roundStart
      ensures Valid()
      ensures fullContent == [] && tokenBuf == [] && pendingBytes == [] && lastTokenEmit == None && !firstTokenSent
      ensures contentDeltas == [] && roundStart == |events|
    {
      hide Sent, Thought, Rebuilt, TC.ApplyAll, ThinkingRebuilt;
      SentNothing(events);
      RebuiltNothing([]);
      fullContent, tokenBuf, lastTokenEmit, firstTokenSent := [], [], None, false;
      pendingBytes, contentDeltas, roundStart := [], [], |events|;
    }

    method ResetThinking()
      requires Valid()
      modifies `pendingThink, `thinkDeltas, `earlierThinking
      ensures Valid()
      ensures pendingThink == [] && thinkDeltas == [] && earlierThinking == fullThinking
    {
      hide Emitted, Rebuilt, TC.ApplyAll;
      RebuiltNothing(fullThinking);
      pendingThink, thinkDeltas, earlierThinking := [], [], fullThinking;
    }

    method ResetCalls()
      requires Valid()
      modifies `finishReason, `toolCallMap, `toolDeltas
      ensures Valid() && finishReason == "" && toolCallMap == map[] && toolDeltas == []
    {
      hide Reassembled, Emitted;
      finishReason, toolCallMap, toolDeltas := "", map[], [];
    }

    /** Start the next round: the reply starts over, the thinking text is kept. */
    method ResetForNextCall()
      requires Valid()
      modifies `fullContent, `tokenBuf, `lastTokenEmit, `firstTokenSent, `finishReason, `toolCallMap, `pendingBytes,
               `pendingThink, `firstRoundThinking, `contentDeltas, `thinkDeltas, `toolDeltas, `earlierThinking, `roundStart
      ensures Valid()
      ensures contentDeltas == [] && thinkDeltas == [] && toolDeltas == [] && finishReason == ""
      ensures fullContent == [] && tokenBuf == [] && pendingBytes == [] && pendingThink == [] && toolCallMap == map[]
      ensures lastTokenEmit == None && !firstTokenSent
      ensures earlierThinking == fullThinking && roundStart == |events|
      ensures firstRoundThinking == if old(firstRoundThinking) == [] then fullThinking else old(firstRoundThinking)
    {
      hide Valid;
      SaveFirstRoundThinking();
      ResetReply();
      ResetThinking();
      ResetCalls();
    }
  }
}
