/**
  Byte-level UTF-8: the repair and hold-back helpers used by the streaming client.

  `CharLen` transcribes the grammar of section 4 of RFC 3629; it is the reference everything
  else is measured against.  `DecodeRune`, `FullRune` and `EncodeRune` follow the table-driven
  algorithms of Go's unicode/utf8 package, which the client calls.
 */
module Utf8 {

  type Byte = b: int | 0 <= b < 256
  type Bytes = seq<Byte>

  const RUNE_ERROR := 0xFFFD
  const REPLACEMENT: Bytes := [0xEF, 0xBF, 0xBD]

  // ---------------------------------------------------------------------------------------
  // The grammar of RFC 3629
  // ---------------------------------------------------------------------------------------

  predicate IsTail(b: Byte) { 0x80 <= b <= 0xBF }

  predicate StartsWithChar1(s: Bytes) { |s| >= 1 && s[0] <= 0x7F }

  predicate StartsWithChar2(s: Bytes) { |s| >= 2 && 0xC2 <= s[0] <= 0xDF && IsTail(s[1]) }

  predicate StartsWithChar3(s: Bytes) {
    && |s| >= 3
    && IsTail(s[2])
    && (|| (s[0] == 0xE0 && 0xA0 <= s[1] <= 0xBF)
        || (0xE1 <= s[0] <= 0xEC && IsTail(s[1]))
        || (s[0] == 0xED && 0x80 <= s[1] <= 0x9F)
        || (0xEE <= s[0] <= 0xEF && IsTail(s[1])))
  }

  predicate StartsWithChar4(s: Bytes) {
    && |s| >= 4
    && IsTail(s[2]) && IsTail(s[3])
    && (|| (s[0] == 0xF0 && 0x90 <= s[1] <= 0xBF)
        || (0xF1 <= s[0] <= 0xF3 && IsTail(s[1]))
        || (s[0] == 0xF4 && 0x80 <= s[1] <= 0x8F))
  }

  /** The length of the UTF8-char that `s` starts with, or 0 when it starts with none. */
  function CharLen(s: Bytes): (n: nat)
    ensures n <= |s| && n <= 4
  {
    if StartsWithChar1(s) then 1
    else if StartsWithChar2(s) then 2
    else if StartsWithChar3(s) then 3
    else if StartsWithChar4(s) then 4
    else 0
  }

  predicate IsChar(c: Bytes) { |c| > 0 && CharLen(c) == |c| }

  /** UTF8-octets = *( UTF8-char ), read from the left. */
  predicate WellFormed(s: Bytes)
    decreases |s|
  {
    s == [] || (CharLen(s) > 0 && WellFormed(s[CharLen(s)..]))
  }

  /** One unit of input: a character is copied, any other byte becomes U+FFFD. */
  function Width(s: Bytes): nat { if CharLen(s) == 0 then 1 else CharLen(s) }

  function Unit(s: Bytes): Bytes { if CharLen(s) == 0 then REPLACEMENT else s[..CharLen(s)] }

  /** What a repair has to produce. */
  function Repair(s: Bytes): (r: Bytes)
    decreases |s|
  {
    if s == [] then [] else Unit(s) + Repair(s[Width(s)..])
  }

  lemma {:induction false} RepairIsWellFormed(s: Bytes)
    ensures WellFormed(Repair(s))
    decreases |s|
  {
    if s == [] {
    } else {
      var head, rest := Unit(s), Repair(s[Width(s)..]);
      RepairIsWellFormed(s[Width(s)..]);
      assert (head + rest)[|head|..] == rest;
      assert CharLen(head + rest) == |head|;
    }
  }

  lemma {:induction false} RepairKeepsWellFormed(s: Bytes)
    requires WellFormed(s)
    ensures Repair(s) == s
    decreases |s|
  {
    if s == [] {
    } else {
      RepairKeepsWellFormed(s[CharLen(s)..]);
      assert s == s[..CharLen(s)] + s[CharLen(s)..];
    }
  }

  /** Repair changes a byte string exactly when it is not UTF-8. */
  lemma {:induction false} RepairIdentityIffWellFormed(s: Bytes)
    ensures Repair(s) == s <==> WellFormed(s)
  {
    RepairIsWellFormed(s);
    if WellFormed(s) { RepairKeepsWellFormed(s); }
  }

  lemma {:induction false} RepairIdempotent(s: Bytes)
    ensures Repair(Repair(s)) == Repair(s)
  {
    RepairIsWellFormed(s);
    RepairKeepsWellFormed(Repair(s));
  }

  /** A non-empty input never repairs to the empty string. */
  lemma RepairNonEmpty(s: Bytes)
    ensures Repair(s) == [] <==> s == []
  {
  }

  // ---------------------------------------------------------------------------------------
  // unicode/utf8
  // ---------------------------------------------------------------------------------------

  predicate RuneStart(b: Byte) { !IsTail(b) }

  /** Sequence length announced by a first byte; invalid first bytes announce 1. */
  function LeadSize(b: Byte): nat {
    if 0xC2 <= b <= 0xDF then 2
    else if 0xE0 <= b <= 0xEF then 3
    else if 0xF0 <= b <= 0xF4 then 4
    else 1
  }

  function AcceptLo(b: Byte): Byte { if b == 0xE0 then 0xA0 else if b == 0xF0 then 0x90 else 0x80 }

  function AcceptHi(b: Byte): Byte { if b == 0xED then 0x9F else if b == 0xF4 then 0x8F else 0xBF }

  predicate Accepts(first: Byte, second: Byte) { AcceptLo(first) <= second <= AcceptHi(first) }

  function Rune2(a: int, b: int): int { (a - 0xC0) * 0x40 + (b - 0x80) }

  function Rune3(a: int, b: int, c: int): int { (a - 0xE0) * 0x1000 + (b - 0x80) * 0x40 + (c - 0x80) }

  function Rune4(a: int, b: int, c: int, d: int): int {
    (a - 0xF0) * 0x40000 + (b - 0x80) * 0x1000 + (c - 0x80) * 0x40 + (d - 0x80)
  }

  function DecodeRune(s: Bytes): (int, nat) {
    if s == [] then (RUNE_ERROR, 0)
    else
      var n := LeadSize(s[0]);
      if n == 1 then (if s[0] <= 0x7F then s[0] else RUNE_ERROR, 1)
      else if |s| < n || !Accepts(s[0], s[1]) then (RUNE_ERROR, 1)
      else if n == 2 then (Rune2(s[0], s[1]), 2)
      else if !IsTail(s[2]) then (RUNE_ERROR, 1)
      else if n == 3 then (Rune3(s[0], s[1], s[2]), 3)
      else if !IsTail(s[3]) then (RUNE_ERROR, 1)
      else (Rune4(s[0], s[1], s[2], s[3]), 4)
  }

  /** Whether `s` starts with a whole encoding; an invalid one counts as whole (width 1). */
  predicate FullRune(s: Bytes) {
    s != [] &&
    var n := LeadSize(s[0]);
    || |s| >= n
    || (|s| > 1 && !Accepts(s[0], s[1]))
    || (|s| > 2 && !IsTail(s[2]))
  }

  function EncodeRune(r: int): Bytes {
    if 0 <= r <= 0x7F then [r]
    else if 0 <= r <= 0x7FF then [0xC0 + r / 0x40, 0x80 + r % 0x40]
    else if r < 0 || r > 0x10FFFF || 0xD800 <= r <= 0xDFFF then REPLACEMENT
    else if r <= 0xFFFF then [0xE0 + r / 0x1000, 0x80 + r / 0x40 % 0x40, 0x80 + r % 0x40]
    else [0xF0 + r / 0x40000, 0x80 + r / 0x1000 % 0x40, 0x80 + r / 0x40 % 0x40, 0x80 + r % 0x40]
  }

  /** Decoding recognises exactly the grammar, and encoding the decoded rune restores the bytes. */
  lemma DecodeFollowsGrammar(s: Bytes)
    requires s != []
    ensures CharLen(s) == 0 ==> DecodeRune(s) == (RUNE_ERROR, 1)
    ensures CharLen(s) > 0 ==>
              && DecodeRune(s).1 == CharLen(s)
              && EncodeRune(DecodeRune(s).0) == s[..CharLen(s)]
              && DecodeRune(s) != (RUNE_ERROR, 1)
  {
    var n := CharLen(s);
    if n == 2 {
      EncodeDecode2(s[0], s[1]);
    } else if n == 3 {
      EncodeDecode3(s[0], s[1], s[2]);
    } else if n == 4 {
      EncodeDecode4(s[0], s[1], s[2], s[3]);
    }
  }

  lemma DivMod64(q: int, m: int)
    requires 0 <= m < 0x40
    ensures (q * 0x40 + m) / 0x40 == q && (q * 0x40 + m) % 0x40 == m
  {
  }

  lemma EncodeDecode2(a: Byte, b: Byte)
    requires 0xC2 <= a <= 0xDF && IsTail(b)
    ensures EncodeRune(Rune2(a, b)) == [a, b]
  {
    DivMod64(a - 0xC0, b - 0x80);
  }

  lemma EncodeDecode3(a: Byte, b: Byte, c: Byte)
    requires StartsWithChar3([a, b, c])
    ensures EncodeRune(Rune3(a, b, c)) == [a, b, c]
  {
    var r, q := Rune3(a, b, c), (a - 0xE0) * 0x40 + (b - 0x80);
    assert r == q * 0x40 + (c - 0x80);
    DivMod64(q, c - 0x80);
    DivMod64(a - 0xE0, b - 0x80);
    assert r / 0x1000 == q / 0x40;
    assert 0x7FF < r <= 0xFFFF && !(0xD800 <= r <= 0xDFFF);
  }

  lemma EncodeDecode4(a: Byte, b: Byte, c: Byte, d: Byte)
    requires StartsWithChar4([a, b, c, d])
    ensures EncodeRune(Rune4(a, b, c, d)) == [a, b, c, d]
  {
    var p := (a - 0xF0) * 0x40 + (b - 0x80);
    var r, q := Rune4(a, b, c, d), p * 0x40 + (c - 0x80);
    assert r == q * 0x40 + (d - 0x80);
    assert 0xFFFF < r <= 0x10FFFF;
    DivMod64(q, d - 0x80);
    DivMod64(p, c - 0x80);
    DivMod64(a - 0xF0, b - 0x80);
    assert r / 0x40 == q && q / 0x40 == p && p / 0x40 == a - 0xF0;
    assert r / 0x1000 == p && r / 0x40000 == a - 0xF0;
  }

  // ---------------------------------------------------------------------------------------
  // FixUTF8
  // ---------------------------------------------------------------------------------------

  /** The replacement is U+FFFD, three bytes long, and a character of its own. */
  lemma ReplacementIsFFFD()
    ensures REPLACEMENT == EncodeRune(0xFFFD) == [0xEF, 0xBF, 0xBD] && IsChar(REPLACEMENT)
    ensures DecodeRune([0xEF, 0xBF, 0xBD]) == (0xFFFD, 3)
  {
  }

  /** A first byte that starts no character becomes U+FFFD, and the repair goes on with the next byte. */
  lemma BadByteReplaced(s: Bytes)
    requires s != [] && CharLen(s) == 0
    ensures Repair(s) == EncodeRune(0xFFFD) + Repair(s[1..])
  {
    ReplacementIsFFFD();
  }

  /** One turn of the repair loop. */
  lemma RepairStep(s: Bytes, i: nat)
    requires i < |s|
    ensures var (rune, size) := DecodeRune(s[i..]);
            var piece := if rune == RUNE_ERROR && size == 1 then REPLACEMENT else EncodeRune(rune);
            && 1 <= size <= |s| - i
            && Repair(s[i..]) == piece + Repair(s[i + size..])
  {
    hide CharLen, DecodeRune, EncodeRune;
    var t := s[i..];
    DecodeFollowsGrammar(t);
    assert t[DecodeRune(t).1..] == s[i + DecodeRune(t).1..];
  }

  method FixUTF8(s: Bytes) returns (r: Bytes)
    ensures r == Repair(s)
  {
    hide CharLen, DecodeRune, EncodeRune, WellFormed, Repair;
    if WellFormed(s) {
      RepairKeepsWellFormed(s);
      return s;
    }
    r := [];
    var i := 0;
    assert r + Repair(s[i..]) == Repair(s) by { assert s[0..] == s; }
    while i < |s|
      invariant 0 <= i <= |s|
      invariant r + Repair(s[i..]) == Repair(s)
    {
      var (rune, size) := DecodeRune(s[i..]);
      var piece := if rune == RUNE_ERROR && size == 1 then REPLACEMENT else EncodeRune(rune);
      RepairStep(s, i);
      assert (r + piece) + Repair(s[i + size..]) == r + (piece + Repair(s[i + size..]));
      r := r + piece;
      i := i + size;
    }
    RepairNonEmpty(s[i..]);
  }

  // ---------------------------------------------------------------------------------------
  // Holding back an incomplete tail
  // ---------------------------------------------------------------------------------------

  /** The tail of `s` that could still grow into a character; empty when there is none. */
  function Held(s: Bytes): (h: Bytes)
    ensures |h| <= |s| && |h| <= 3
  {
    if s == [] then []
    else if !FullRune(s) then s
    else Held(s[1..])
  }

  /** The part of `s` that is safe to repair now. */
  function Settled(s: Bytes): Bytes {
    s[..|s| - |Held(s)|]
  }

  /** Nothing is lost, and what is held back is an incomplete character. */
  lemma {:induction false} SettledAndHeld(s: Bytes)
    ensures Settled(s) + Held(s) == s
    ensures Held(s) != [] ==> !FullRune(Held(s))
    decreases |s|
  {
    if s != [] && FullRune(s) {
      SettledAndHeld(s[1..]);
      assert Settled(s) == [s[0]] + Settled(s[1..]);
    }
  }

  /** A byte string is held back exactly when it is a proper, non-empty prefix of a character. */
  lemma IncompleteIffExtensible(t: Bytes)
    requires t != []
    ensures !FullRune(t) <==> exists ext: Bytes :: ext != [] && IsChar(t + ext)
  {
    if !FullRune(t) {
      var ext := Completion(t);
      assert ext != [] && IsChar(t + ext);
    }
  }

  ghost function Completion(t: Bytes): (ext: Bytes)
    requires t != [] && !FullRune(t)
    ensures ext != [] && IsChar(t + ext)
  {
    var n := LeadSize(t[0]);
    if |t| == 1 then
      if n == 2 then [0x80] else if n == 3 then [AcceptLo(t[0]), 0x80] else [AcceptLo(t[0]), 0x80, 0x80]
    else if n - |t| == 1 then [0x80]
    else [0x80, 0x80]
  }

  /** At most one suffix of `s` is an incomplete character, and `Held` finds it. */
  lemma {:induction false} HeldIsTheIncompleteSuffix(s: Bytes, k: nat)
    requires k < |s| && !FullRune(s[k..])
    ensures Held(s) == s[k..]
    decreases |s|
  {
    if k > 0 {
      assert s[1..][k - 1..] == s[k..];
      assert RuneStart(s[k..][0]);
      HeldIsTheIncompleteSuffix(s[1..], k - 1);
    } else {
      assert s[0..] == s;
    }
  }

  lemma {:induction false} HeldEmptyWhenAllTails(s: Bytes)
    requires forall i :: 0 <= i < |s| ==> IsTail(s[i])
    ensures Held(s) == []
    decreases |s|
  {
    if s == [] {
    } else {
      HeldEmptyWhenAllTails(s[1..]);
    }
  }

  lemma {:induction false} HeldSkips(s: Bytes, n: nat)
    requires n <= |s|
    requires forall i :: 0 <= i < n ==> FullRune(s[i..])
    ensures Held(s) == Held(s[n..])
    decreases n
  {
    if n > 0 {
      assert s[0..] == s;
      forall i | 0 <= i < n - 1
        ensures FullRune(s[1..][i..])
      {
        assert s[1..][i..] == s[i + 1..];
      }
      HeldSkips(s[1..], n - 1);
      assert s[1..][n - 1..] == s[n..];
    } else {
      assert s[0..] == s;
    }
  }

  method TruncateIncompleteUTF8(s: Bytes) returns (valid: Bytes, pending: Bytes)
    ensures valid == Settled(s) && pending == Held(s)
  {
    if s == [] { return [], []; }
    var i := |s| - 1;
    while i >= 0 && i >= |s| - 4
      invariant -1 <= i < |s| && i >= |s| - 5
      invariant forall j :: i < j < |s| ==> IsTail(s[j])
    {
      if RuneStart(s[i]) {
        if FullRune(s[i..]) {
          HeldEmptyAfterFullRune(s, i);
          return s, [];
        }
        HeldIsTheIncompleteSuffix(s, i);
        return s[..i], s[i..];
      }
      i := i - 1;
    }
    HeldEmptyAfterTails(s, i + 1);
    return s, [];
  }

  /** After a full rune at the last rune start, nothing is held back. */
  lemma HeldEmptyAfterFullRune(s: Bytes, i: nat)
    requires i < |s| && RuneStart(s[i]) && FullRune(s[i..])
    requires forall j :: i < j < |s| ==> IsTail(s[j])
    ensures Held(s) == []
  {
    forall k | 0 <= k < |s|
      ensures FullRune(s[k..])
    {
      FullSuffix(s, i, k);
    }
    HeldSkips(s, |s|);
  }

  lemma FullSuffix(s: Bytes, i: nat, k: nat)
    requires i < |s| && RuneStart(s[i]) && FullRune(s[i..])
    requires forall j :: i < j < |s| ==> IsTail(s[j])
    requires k < |s|
    ensures FullRune(s[k..])
  {
    hide FullRune;
    var t := s[k..];
    if k < i && !FullRune(t) {
      assert t[i - k] == s[i];
      NotFullHasOnlyTails(t, i - k);
      assert false;
    } else if k > i {
      assert t[0] == s[k];
      TailIsFull(t);
    }
  }

  lemma {:induction false} TailIsFull(t: Bytes)
    requires t != [] && IsTail(t[0])
    ensures FullRune(t)
  {
  }

  /** An incomplete character has at most 3 bytes, and all but the first are tails. */
  lemma {:induction false} NotFullHasOnlyTails(t: Bytes, k: nat)
    requires t != [] && !FullRune(t) && 0 < k < |t|
    ensures |t| <= 3 && IsTail(t[k])
  {
  }

  /** Four tail bytes at the end, or nothing but tail bytes: nothing is held back. */
  lemma {:induction false} HeldEmptyAfterTails(s: Bytes, i: nat)
    requires i <= |s|
    requires i == 0 || |s| - i >= 4
    requires forall j :: i <= j < |s| ==> IsTail(s[j])
    ensures Held(s) == []
  {
    hide FullRune;
    forall k | 0 <= k < |s|
      ensures FullRune(s[k..])
    {
      var t := s[k..];
      if k >= i {
        assert t[0] == s[k];
        TailIsFull(t);
      } else if !FullRune(t) {
        NotFullHasOnlyTails(t, 1);
        assert false;
      }
    }
    HeldSkips(s, |s|);
  }
}
