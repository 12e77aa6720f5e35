/**
  What one chunk of the stream does to the texts and the token buffer, and which events it sends.
 */
module TokenBatching {
  import opened Options
  import opened Utf8
  import opened Utf8Cuts
  import TC = ToolCallAssembly

  const TOKEN_BATCH_SIZE := 48
  const TOKEN_BATCH_INTERVAL := 16

  datatype Event = Token(text: Bytes) | Thinking(text: Bytes)

  /** The parts of a server chunk that the accumulator reads; without a choice it is ignored. */
  datatype Chunk = Chunk(
    hasChoice: bool,
    content: Bytes,
    reasoning: Bytes,
    toolDeltas: seq<TC.Delta>,
    finish: Option<string>,
    checkedAt: int,
    emittedAt: int)

  /** The text side of the accumulator. */
  datatype View = View(
    content: Bytes,
    thinking: Bytes,
    pending: Bytes,
    pendingThink: Bytes,
    buf: Bytes,
    lastEmit: Option<int>,
    sentFirst: bool)

  const FRESH := View([], [], [], [], [], None, false)

  /** Without an earlier emission the elapsed time is unbounded. */
  predicate Elapsed(lastEmit: Option<int>, now: int) {
    lastEmit.None? || now - lastEmit.value >= TOKEN_BATCH_INTERVAL
  }

  /** The first text goes out at once; later text waits for 48 bytes or 16 milliseconds. */
  function Batched(v: View, fixed: Bytes, checkedAt: int, emittedAt: int): (View, seq<Event>) {
    var combined := v.buf + fixed;
    var after := v.(sentFirst := v.sentFirst || fixed != []);
    if (!v.sentFirst && fixed != []) || |combined| >= TOKEN_BATCH_SIZE || Elapsed(v.lastEmit, checkedAt)
    then (after.(buf := [], lastEmit := Some(emittedAt)), [Token(combined)])
    else (after.(buf := combined), [])
  }

  function TakeContent(v: View, delta: Bytes, checkedAt: int, emittedAt: int): (View, seq<Event>) {
    var fixed := Repair(Settled(v.pending + delta));
    Batched(v.(pending := Held(v.pending + delta), content := v.content + fixed), fixed, checkedAt, emittedAt)
  }

  function TakeReasoning(v: View, delta: Bytes): (View, seq<Event>) {
    var fixed := Repair(Settled(v.pendingThink + delta));
    (v.(pendingThink := Held(v.pendingThink + delta), thinking := v.thinking + fixed), [Thinking(fixed)])
  }

  function Flush(v: View): (View, seq<Event>) {
    if v.buf == [] then (v, []) else (v.(buf := []), [Token(v.buf)])
  }

  /** The texts of a chunk: its reply text first, then its thinking text. */
  function AfterTexts(v: View, chunk: Chunk): (View, seq<Event>) {
    var (v1, e1) := if chunk.content == [] then (v, []) else TakeContent(v, chunk.content, chunk.checkedAt, chunk.emittedAt);
    var (v2, e2) := if chunk.reasoning == [] then (v1, []) else TakeReasoning(v1, chunk.reasoning);
    (v2, e1 + e2)
  }

  /** A whole chunk: a finish reason also flushes the buffer. */
  function TakeChunk(v: View, chunk: Chunk): (View, seq<Event>) {
    var (v1, e1) := AfterTexts(v, chunk);
    var (v2, e2) := if chunk.finish.None? then (v1, []) else Flush(v1);
    (v2, e1 + e2)
  }

  /** A chunk is answered by an empty token event: all its text is held back, nothing waits, and the clock is due. */
  predicate SendsEmptyToken(v: View, chunk: Chunk) {
    chunk.content != [] && Settled(v.pending + chunk.content) == [] && v.buf == [] && Elapsed(v.lastEmit, chunk.checkedAt)
  }

  lemma ContentSendsEmptyTokenIff(v: View, delta: Bytes, checkedAt: int, emittedAt: int)
    requires |v.buf| < TOKEN_BATCH_SIZE
    ensures Token([]) in TakeContent(v, delta, checkedAt, emittedAt).1 <==>
            Settled(v.pending + delta) == [] && v.buf == [] && Elapsed(v.lastEmit, checkedAt)
  {
    hide Repair, Settled, Held;
    var fixed := Repair(Settled(v.pending + delta));
    RepairNonEmpty(Settled(v.pending + delta));
    assert v.buf + fixed == [] <==> v.buf == [] && fixed == [] by { assert |v.buf + fixed| == |v.buf| + |fixed|; }
  }

  /** Exactly those chunks send an empty token event; neither thinking text nor a finish reason does. */
  lemma EmptyTokenIff(v: View, chunk: Chunk)
    requires |v.buf| < TOKEN_BATCH_SIZE
    ensures Token([]) in TakeChunk(v, chunk).1 <==> SendsEmptyToken(v, chunk)
  {
    hide TakeContent, Repair, Settled, Held, Elapsed;
    if chunk.content != [] { ContentSendsEmptyTokenIff(v, chunk.content, chunk.checkedAt, chunk.emittedAt); }
  }

  /** A new stream whose first chunk is the beginning of a character sends one, at any time. */
  lemma HeldBackFirstChunk(at: int)
    ensures TakeChunk(FRESH, Chunk(true, [0xE4], [], [], None, at, at)).1 == [Token([])]
  {
    assert [] + [0xE4] == [0xE4];
    NothingSettled([0xE4]);
    assert Repair([]) == [];
  }

  // ---------------------------------------------------------------------------------------
  // The clock over a whole stream
  // ---------------------------------------------------------------------------------------

  /** What one content delta sends and leaves: everything waiting in one event, or nothing. */
  lemma ContentSends(v: View, delta: Bytes, checkedAt: int, emittedAt: int)
    ensures var (after, sent) := TakeContent(v, delta, checkedAt, emittedAt);
            var fixed := Repair(Settled(v.pending + delta));
            && (sent != [] <==>
                  || (!v.sentFirst && fixed != []) || |v.buf| + |fixed| >= 48
                  || v.lastEmit.None? || checkedAt - v.lastEmit.value >= 16)
            && (sent != [] ==> sent == [Token(v.buf + fixed)] && after.buf == [] && after.lastEmit == Some(emittedAt))
            && (sent == [] ==> after.buf == v.buf + fixed && after.lastEmit == v.lastEmit)
  {
    hide Repair, Settled, Held;
  }

  /** The states of a stream, chunk by chunk. */
  ghost predicate IsStream(vs: seq<View>, chunks: seq<Chunk>) {
    && |vs| == |chunks| + 1 && vs[0] == FRESH
    && forall i :: 0 <= i < |chunks| ==> vs[i + 1] == TakeChunk(vs[i], chunks[i]).0
  }

  /** The reply text of chunk `i` made the accumulator send. */
  predicate SentAt(vs: seq<View>, chunks: seq<Chunk>, i: nat)
    requires i < |chunks| && |vs| == |chunks| + 1
  {
    var c := chunks[i];
    c.content != [] && TakeContent(vs[i], c.content, c.checkedAt, c.emittedAt).1 != []
  }

  lemma ChunkClock(v: View, c: Chunk)
    ensures var n := TakeChunk(v, c).0;
            && n.lastEmit == (if c.content != [] && TakeContent(v, c.content, c.checkedAt, c.emittedAt).1 != []
                              then Some(c.emittedAt) else v.lastEmit)
            && ((v.sentFirst <==> v.content != []) ==> (n.sentFirst <==> n.content != []))
  {
    hide Repair, Settled, Held, Elapsed;
  }

  /** The time of the last send before chunk `i`, if anything was sent. */
  ghost predicate LastSendIs(vs: seq<View>, chunks: seq<Chunk>, i: nat, clock: Option<int>)
    requires i <= |chunks| && |vs| == |chunks| + 1
  {
    match clock
    case None => forall j :: 0 <= j < i ==> !SentAt(vs, chunks, j)
    case Some(t) =>
      exists j :: 0 <= j < i && SentAt(vs, chunks, j) && t == chunks[j].emittedAt &&
        forall l :: j < l < i ==> !SentAt(vs, chunks, l)
  }

  lemma LastSendStep(vs: seq<View>, chunks: seq<Chunk>, i: nat, clock: Option<int>)
    requires i < |chunks| && |vs| == |chunks| + 1 && LastSendIs(vs, chunks, i, clock)
    ensures LastSendIs(vs, chunks, i + 1, if SentAt(vs, chunks, i) then Some(chunks[i].emittedAt) else clock)
  {
    hide SentAt;
  }

  /** The time kept is that of the last send; it survives the flush at a finish reason. */
  lemma {:induction false} ClockIsLastSend(vs: seq<View>, chunks: seq<Chunk>, i: nat)
    requires IsStream(vs, chunks) && i < |vs|
    ensures vs[i].sentFirst <==> vs[i].content != []
    ensures LastSendIs(vs, chunks, i, vs[i].lastEmit)
  {
    hide TakeContent, TakeChunk, LastSendIs;
    if i == 0 {
      NothingSent(vs, chunks);
    } else {
      ClockIsLastSend(vs, chunks, i - 1);
      ChunkClock(vs[i - 1], chunks[i - 1]);
      LastSendStep(vs, chunks, i - 1, vs[i - 1].lastEmit);
      assert vs[i] == TakeChunk(vs[i - 1], chunks[i - 1]).0;
    }
  }

  lemma NothingSent(vs: seq<View>, chunks: seq<Chunk>)
    requires |vs| == |chunks| + 1
    ensures LastSendIs(vs, chunks, 0, None)
  {
  }

  /**
    After a send, the next chunk with reply text sends exactly when it brings the first text of the reply, when 48
    bytes are waiting with it, or when 16 milliseconds have passed since that send.
   */
  lemma SendsAgainIff(vs: seq<View>, chunks: seq<Chunk>, j: nat, i: nat)
    requires IsStream(vs, chunks) && j < i < |chunks| && chunks[i].content != []
    requires SentAt(vs, chunks, j) && forall l :: j < l < i ==> !SentAt(vs, chunks, l)
    ensures var fixed := Repair(Settled(vs[i].pending + chunks[i].content));
            SentAt(vs, chunks, i) <==>
            || (vs[i].content == [] && fixed != []) || |vs[i].buf| + |fixed| >= 48
            || chunks[i].checkedAt - chunks[j].emittedAt >= 16
  {
    ClockIsLastSend(vs, chunks, i);
    ContentSends(vs[i], chunks[i].content, chunks[i].checkedAt, chunks[i].emittedAt);
    hide TakeContent, Repair, Settled, IsStream;
  }

  /** The first chunk with reply text always sends. */
  lemma FirstTextSends(vs: seq<View>, chunks: seq<Chunk>, i: nat)
    requires IsStream(vs, chunks) && i < |chunks| && chunks[i].content != []
    requires forall j :: 0 <= j < i ==> !SentAt(vs, chunks, j)
    ensures SentAt(vs, chunks, i)
  {
    ClockIsLastSend(vs, chunks, i);
    ContentSends(vs[i], chunks[i].content, chunks[i].checkedAt, chunks[i].emittedAt);
    hide TakeContent, IsStream;
  }
}
