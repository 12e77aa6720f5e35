/**
  Reassembling a text from byte chunks cut anywhere: the hold-back protocol that the streaming
  callback runs on each delta, and the theorem that where the cuts fall makes no difference.
 */
module Reassembly {
  import opened Utf8
  import opened Utf8Cuts

  /** Text written so far, and the bytes waiting for the rest of their character. */
  datatype State = State(out: Bytes, pending: Bytes)

  const START := State([], [])

  function Feed(st: State, delta: Bytes): State {
    var combined := st.pending + delta;
    State(st.out + Repair(Settled(combined)), Held(combined))
  }

  function FeedAll(deltas: seq<Bytes>): State {
    if deltas == [] then START else Feed(FeedAll(deltas[..|deltas| - 1]), deltas[|deltas| - 1])
  }

  function Flatten(deltas: seq<Bytes>): Bytes {
    if deltas == [] then [] else Flatten(deltas[..|deltas| - 1]) + deltas[|deltas| - 1]
  }

  lemma FeedAllSnoc(deltas: seq<Bytes>, d: Bytes)
    ensures FeedAll(deltas + [d]) == Feed(FeedAll(deltas), d)
    ensures Flatten(deltas + [d]) == Flatten(deltas) + d
  {
    assert (deltas + [d])[..|deltas|] == deltas;
  }

  /** Whatever the cuts, the state is the one a single chunk would have left. */
  lemma {:induction false} ChunkSplitInvariance(deltas: seq<Bytes>)
    ensures FeedAll(deltas) == State(Repair(Settled(Flatten(deltas))), Held(Flatten(deltas)))
  {
    hide Repair, Settled, Held;
    if deltas == [] {
      NothingSettled([]);
      RepairNonEmpty([]);
    } else {
      var init, d := deltas[..|deltas| - 1], deltas[|deltas| - 1];
      ChunkSplitInvariance(init);
      HeldAppend(Flatten(init), d);
      SettledAppend(Flatten(init), d);
    }
  }

  /** Two ways of cutting the same bytes are indistinguishable. */
  lemma SameBytesSameState(a: seq<Bytes>, b: seq<Bytes>)
    requires Flatten(a) == Flatten(b)
    ensures FeedAll(a) == FeedAll(b)
  {
    ChunkSplitInvariance(a);
    ChunkSplitInvariance(b);
  }

  /** The text written so far, followed by the repair of what is pending, is the repaired whole. */
  lemma {:induction false} NothingLost(deltas: seq<Bytes>)
    ensures FeedAll(deltas).out + Repair(FeedAll(deltas).pending) == Repair(Flatten(deltas))
    ensures |FeedAll(deltas).pending| <= 3
    ensures WellFormed(FeedAll(deltas).out)
  {
    hide Repair, Settled, Held, WellFormed;
    var s := Flatten(deltas);
    ChunkSplitInvariance(deltas);
    RepairAcrossHeld(s, []);
    assert s + [] == s && Held(s) + [] == Held(s);
    RepairIsWellFormed(Settled(s));
  }

  lemma CompleteIffNothingPending(deltas: seq<Bytes>)
    ensures FeedAll(deltas).out == Repair(Flatten(deltas)) <==> FeedAll(deltas).pending == []
  {
    hide Repair, FeedAll, Flatten;
    NothingLost(deltas);
    RepairNonEmpty(FeedAll(deltas).pending);
    var st := FeedAll(deltas);
    assert |st.out + Repair(st.pending)| == |st.out| + |Repair(st.pending)|;
    if st.pending == [] { assert st.out + Repair(st.pending) == st.out; }
  }

  lemma HeldEmptyIff(s: Bytes)
    ensures Held(s) == [] <==> forall k :: 0 <= k < |s| ==> FullRune(s[k..])
  {
    hide Held, FullRune;
    if k :| 0 <= k < |s| && !FullRune(s[k..]) {
      HeldIsTheIncompleteSuffix(s, k);
    } else {
      HeldSkips(s, |s|);
      NothingSettled([]);
      assert s[|s|..] == [];
    }
  }

  /**
    The stream may end in the middle of a character.  The callback never repairs the pending bytes,
    so the text written is the repaired whole exactly when no end of the received bytes is the
    beginning of a character.
   */
  lemma CompleteIffNoCharacterCut(deltas: seq<Bytes>)
    ensures FeedAll(deltas).out == Repair(Flatten(deltas)) <==>
            forall k :: 0 <= k < |Flatten(deltas)| ==> FullRune(Flatten(deltas)[k..])
  {
    hide Repair, FeedAll, Flatten, Held, Settled, FullRune;
    CompleteIffNothingPending(deltas);
    ChunkSplitInvariance(deltas);
    HeldEmptyIff(Flatten(deltas));
  }

  /** A concrete stream that ends in the middle of a character loses it. */
  lemma TruncatedTailIsDropped()
    ensures FeedAll([[0xE4, 0xBD]]).out == []
    ensures Repair([0xE4, 0xBD]) == REPLACEMENT + REPLACEMENT
  {
    var d: Bytes := [0xE4, 0xBD];
    assert [d][..0] == [];
    assert [] + d == d;
    NothingSettled(d);
    RepairNonEmpty([]);
    assert d[1..] == [0xBD] && [0xBD][1..] == [];
  }

  /** When the bytes are UTF-8, cutting them anywhere delivers them unchanged. */
  lemma ValidTextArrivesUnchanged(deltas: seq<Bytes>)
    requires WellFormed(Flatten(deltas))
    ensures FeedAll(deltas) == State(Flatten(deltas), [])
  {
    hide Repair, FeedAll, Flatten, WellFormed;
    var s := Flatten(deltas);
    WellFormedHoldsNothing(s);
    RepairKeepsWellFormed(s);
    ChunkSplitInvariance(deltas);
    NothingLost(deltas);
    CompleteIffNothingPending(deltas);
  }

  lemma {:induction false} WellFormedHoldsNothing(s: Bytes)
    requires WellFormed(s)
    ensures Held(s) == []
    decreases |s|
  {
    hide CharLen, FullRune;
    if s == [] {
    } else {
      CharIsFull(s);
      HeldFront(s);
      WellFormedHoldsNothing(s[CharLen(s)..]);
    }
  }

  lemma CharIsFull(s: Bytes)
    requires CharLen(s) > 0
    ensures FullRune(s)
  {
  }
}
