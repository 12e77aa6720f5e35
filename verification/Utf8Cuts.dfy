/**
  Cutting a byte string, and holding back its unfinished tail, does not change its repair.
 */
module Utf8Cuts {
  import opened Utf8

  /** More bytes do not change how a full rune at the front is read. */
  lemma {:induction false} CharLenStable(s: Bytes, b: Bytes)
    requires FullRune(s)
    ensures FullRune(s + b) && CharLen(s + b) == CharLen(s)
  {
  }

  lemma {:induction false} CharLenOfPrefix(s: Bytes, k: nat)
    requires CharLen(s) <= k <= |s|
    ensures CharLen(s[..k]) == CharLen(s)
  {
  }

  lemma {:induction false} HeldSkipsChar(s: Bytes)
    requires FullRune(s) && CharLen(s) > 0
    ensures Held(s) == Held(s[CharLen(s)..])
  {
    assert s[0..] == s;
    HeldSkips(s, CharLen(s));
  }

  lemma {:induction false} RepairFront(s: Bytes, b: Bytes)
    requires s != [] && FullRune(s)
    ensures Width(s) <= |s|
    ensures Repair(s + b) == Unit(s) + Repair(s[Width(s)..] + b)
  {
    hide CharLen, FullRune;
    CharLenStable(s, b);
    assert (s + b)[Width(s)..] == s[Width(s)..] + b;
    assert (s + b)[..CharLen(s)] == s[..CharLen(s)];
  }

  lemma {:induction false} HeldFront(s: Bytes)
    requires s != [] && FullRune(s)
    ensures Width(s) <= |s| && Held(s) == Held(s[Width(s)..])
  {
    hide CharLen, FullRune;
    if CharLen(s) > 0 { HeldSkipsChar(s); }
  }

  lemma {:induction false} SettledFront(s: Bytes)
    requires s != [] && FullRune(s)
    ensures Width(s) <= |s|
    ensures Repair(Settled(s)) == Unit(s) + Repair(Settled(s[Width(s)..]))
  {
    hide CharLen, FullRune, Held;
    HeldFront(s);
    var p := Settled(s);
    CharLenOfPrefix(s, |p|);
    assert p[Width(s)..] == Settled(s[Width(s)..]);
    assert p[..CharLen(s)] == s[..CharLen(s)];
  }

  /** Holding back the tail of `s` and repairing it together with whatever follows is lossless. */
  lemma {:induction false} RepairAcrossHeld(s: Bytes, b: Bytes)
    ensures Repair(s + b) == Repair(Settled(s)) + Repair(Held(s) + b)
    decreases |s|
  {
    hide CharLen, FullRune, Repair, Unit;
    if s != [] && FullRune(s) {
      RepairFront(s, b);
      SettledFront(s);
      HeldFront(s);
      RepairAcrossHeld(s[Width(s)..], b);
    } else {
      NothingSettled(s);
      RepairNonEmpty([]);
    }
  }

  lemma {:induction false} HeldAppend(s: Bytes, b: Bytes)
    ensures Held(s + b) == Held(Held(s) + b)
    decreases |s|
  {
    hide CharLen, FullRune;
    if s == [] {
      assert s + b == b;
    } else if FullRune(s) {
      CharLenStable(s, b);
      HeldAppend(s[1..], b);
      assert (s + b)[1..] == s[1..] + b;
    }
  }

  /** The same, when more bytes may still be missing after `b`. */
  lemma {:induction false} SettledAppend(s: Bytes, b: Bytes)
    ensures Repair(Settled(s + b)) == Repair(Settled(s)) + Repair(Settled(Held(s) + b))
    decreases |s|
  {
    hide CharLen, FullRune, Repair, Unit, Held, Settled;
    if s != [] && FullRune(s) {
      CharLenStable(s, b);
      SettledFront(s + b);
      SettledFront(s);
      HeldFront(s);
      assert Unit(s + b) == Unit(s) by { UnitStable(s, b); }
      assert (s + b)[Width(s)..] == s[Width(s)..] + b;
      SettledAppend(s[Width(s)..], b);
    } else {
      NothingSettled(s);
      RepairNonEmpty([]);
    }
  }

  lemma {:induction false} UnitStable(s: Bytes, b: Bytes)
    requires s != [] && FullRune(s)
    ensures Unit(s + b) == Unit(s)
  {
    hide CharLen, FullRune;
    CharLenStable(s, b);
    assert (s + b)[..CharLen(s)] == s[..CharLen(s)];
  }

  lemma {:induction false} NothingSettled(s: Bytes)
    requires s == [] || !FullRune(s)
    ensures Held(s) == s && Settled(s) == []
  {
  }
}
