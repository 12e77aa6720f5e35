/**
  From the stored rows of a conversation to the history of a request: the longest suffix that fits,
  cleaned of what the cut left hanging.
 */
module HistoryRequest {
  import opened Messages
  import opened HistoryBuild
  import opened HistoryCleaning
  import opened HistoryTurns

  /** How a message of a turn is stored. */
  function Row(id: string, m: Message, estimated: nat): StoreMessage {
    StoreMessage(id, m.role, m.toolId, m.calls, estimated, m)
  }

  /** Only tool messages name a call, only assistants carry calls. */
  predicate Plain(m: Message) {
    && (m.role != Tool ==> m.toolId == "") && (m.role != Assistant ==> m.calls == [])
  }

  /** Reading a row back gives the message, apart from user messages, which are built anew. */
  lemma {:induction false} RowReadsBack(id: string, m: Message, estimated: nat, lastId: string, req: Request)
    requires Plain(m) && m.role != User
    ensures Convert(Row(id, m, estimated), lastId, req) == m
  {
  }

  function LastId(db: seq<StoreMessage>): string
    requires db != []
  {
    db[|db| - 1].id
  }

  /** The rows read back as the messages of the turns. */
  predicate Represents(db: seq<StoreMessage>, turns: seq<Turn>, req: Request) {
    db != [] && ConvertAll(db, LastId(db), req) == Stored(turns)
  }

  /** Rows written message by message represent the turns when the user messages are built as they were. */
  lemma {:induction false} RowsRepresent(db: seq<StoreMessage>, turns: seq<Turn>, req: Request)
    requires db != [] && |db| == |Stored(turns)|
    requires forall i :: 0 <= i < |db| ==> Plain(Stored(turns)[i]) && db[i] == Row(db[i].id, Stored(turns)[i], db[i].estimated)
    requires forall i :: 0 <= i < |db| && db[i].role == User ==>
               req.userMessage(db[i], db[i].id == LastId(db)) == Stored(turns)[i]
    ensures Represents(db, turns, req)
  {
    hide Stored, Plain;
    forall i | 0 <= i < |db|
      ensures Convert(db[i], LastId(db), req) == Stored(turns)[i]
    {
      if db[i].role != User { RowReadsBack(db[i].id, Stored(turns)[i], db[i].estimated, LastId(db), req); }
    }
  }

  /** The two steps of the regular path. */
  method BuildNormalHistory(db: seq<StoreMessage>, req: Request, initialTokens: int, effectiveMax: int)
    returns (history: seq<Message>, trimmed: seq<StoreMessage>)
    ensures db == [] ==> history == [] && trimmed == []
    ensures db != [] ==>
              && IsSplit(db, |trimmed|, initialTokens, effectiveMax, LastId(db), req)
              && trimmed == db[..|trimmed|]
              && history == CleanHistory(ConvertAll(db[|trimmed|..], LastId(db), req))
  {
    hide CleanHistory, IsSplit;
    history, trimmed := BuildHistoryFromDB(db, req, initialTokens, effectiveMax);
    history := CleanHistoryMessages(history);
    if db == [] { NothingToClean(); }
  }

  lemma {:induction false} NothingToClean()
    ensures CleanHistory([]) == []
  {
  }

  /**
    For stored turns with different call ids: of the longest suffix that fits, the request gets exactly
    the part from its first user message on, message by message as stored.
   */
  lemma {:induction false} RequestFromTurns(db: seq<StoreMessage>, turns: seq<Turn>, req: Request, k: nat, initial: int, limit: int)
    returns (j: nat)
    requires forall i :: 0 <= i < |turns| ==> ValidTurn(turns[i])
    requires DistinctAnswers(Stored(turns)) && Represents(db, turns, req)
    requires IsSplit(db, k, initial, limit, LastId(db), req)
    ensures k <= j <= |db|
    ensures CleanHistory(ConvertAll(db[k..], LastId(db), req)) == ConvertAll(db[j..], LastId(db), req)
    ensures forall i :: k <= i < j ==> Convert(db[i], LastId(db), req).role != User
    ensures j < |db| ==> Convert(db[j], LastId(db), req).role == User
    ensures j < |db| ==> initial + TotalCost(db[j..], LastId(db), req) <= limit
  {
    hide CleanHistory, Stored, DistinctAnswers, Convert, ValidTurn;
    var lastId := LastId(db);
    var h := Stored(turns);
    j := CutSafety(turns, k);
    ConvertSuffix(db, k, lastId, req);
    ConvertSuffix(db, j, lastId, req);
    forall i | 0 <= i < |db|
      ensures h[i] == Convert(db[i], lastId, req)
    {
      assert ConvertAll(db, lastId, req)[i] == Convert(db[i], lastId, req);
    }
    TotalCostShrinks(db, k, j, lastId, req);
  }

  lemma {:induction false} ConvertSuffix(db: seq<StoreMessage>, k: nat, lastId: string, req: Request)
    requires k <= |db|
    ensures ConvertAll(db, lastId, req)[k..] == ConvertAll(db[k..], lastId, req)
  {
  }
}
