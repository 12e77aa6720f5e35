/**
  The two printers that escape text: XML entities for search results, and the CSV export of a conversation.
 */
module Escaping {
  import opened Options
  import opened Messages

  /** Every occurrence of `from`, found from the left, becomes `to`. */
  function ReplaceAll(s: string, from: string, to: string): string
    requires |from| > 0
  {
    if |s| < |from| then s
    else if s[..|from|] == from then to + ReplaceAll(s[|from|..], from, to)
    else [s[0]] + ReplaceAll(s[1..], from, to)
  }

  lemma {:induction false} ReplaceCharAppend(a: string, b: string, c: char, to: string)
    ensures ReplaceAll(a + b, [c], to) == ReplaceAll(a, [c], to) + ReplaceAll(b, [c], to)
  {
    if a == [] {
      assert a + b == b;
    } else {
      assert (a + b)[1..] == a[1..] + b;
      ReplaceCharAppend(a[1..], b, c, to);
    }
  }

  lemma {:induction false} ReplaceAbsent(s: string, c: char, to: string)
    requires c !in s
    ensures ReplaceAll(s, [c], to) == s
  {
    if s == [] {
    } else {
      ReplaceAbsent(s[1..], c, to);
      assert s == [s[0]] + s[1..] && s[..1][0] == s[0];
    }
  }

  // ---------- XML ----------

  function EscapeXml(s: string): string {
    var s := ReplaceAll(s, "&", "&amp;");
    var s := ReplaceAll(s, "<", "&lt;");
    var s := ReplaceAll(s, ">", "&gt;");
    var s := ReplaceAll(s, "\"", "&quot;");
    ReplaceAll(s, "'", "&apos;")
  }

  function Entity(c: char): string {
    match c
    case '&' => "&amp;"
    case '<' => "&lt;"
    case '>' => "&gt;"
    case '"' => "&quot;"
    case '\'' => "&apos;"
    case _ => [c]
  }

  predicate IsMarkup(c: char) { c == '&' || c == '<' || c == '>' || c == '"' || c == '\'' }

  function EntityEach(s: string): string { if s == [] then [] else Entity(s[0]) + EntityEach(s[1..]) }

  lemma EscapeXmlAppend(a: string, b: string)
    ensures EscapeXml(a + b) == EscapeXml(a) + EscapeXml(b)
  {
    ReplaceCharAppend(a, b, '&', "&amp;");
    var a1, b1 := ReplaceAll(a, "&", "&amp;"), ReplaceAll(b, "&", "&amp;");
    ReplaceCharAppend(a1, b1, '<', "&lt;");
    var a2, b2 := ReplaceAll(a1, "<", "&lt;"), ReplaceAll(b1, "<", "&lt;");
    ReplaceCharAppend(a2, b2, '>', "&gt;");
    var a3, b3 := ReplaceAll(a2, ">", "&gt;"), ReplaceAll(b2, ">", "&gt;");
    ReplaceCharAppend(a3, b3, '"', "&quot;");
    var a4, b4 := ReplaceAll(a3, "\"", "&quot;"), ReplaceAll(b3, "\"", "&quot;");
    ReplaceCharAppend(a4, b4, '\'', "&apos;");
  }

  lemma ReplaceOne(c: char, from: char, to: string)
    ensures ReplaceAll([c], [from], to) == if c == from then to else [c]
  {
    assert [c][1..] == [];
  }

  lemma EscapeXmlOne(c: char)
    ensures EscapeXml([c]) == Entity(c)
  {
    var s1 := ReplaceAll([c], "&", "&amp;");
    ReplaceOne(c, '&', "&amp;");
    var s2 := ReplaceAll(s1, "<", "&lt;");
    if c == '&' { ReplaceAbsent(s1, '<', "&lt;"); } else { ReplaceOne(c, '<', "&lt;"); }
    var s3 := ReplaceAll(s2, ">", "&gt;");
    if c == '&' || c == '<' { ReplaceAbsent(s2, '>', "&gt;"); } else { ReplaceOne(c, '>', "&gt;"); }
    var s4 := ReplaceAll(s3, "\"", "&quot;");
    if c == '&' || c == '<' || c == '>' { ReplaceAbsent(s3, '"', "&quot;"); } else { ReplaceOne(c, '"', "&quot;"); }
    if c == '&' || c == '<' || c == '>' || c == '"' {
      ReplaceAbsent(s4, '\'', "&apos;");
    } else {
      ReplaceOne(c, '\'', "&apos;");
    }
  }

  /** The five replacements in that order amount to one entity per character. */
  lemma {:induction false} EscapeXmlPerCharacter(s: string)
    ensures EscapeXml(s) == EntityEach(s)
  {
    if s == [] {
    } else {
      hide EscapeXml;
      assert s == [s[0]] + s[1..];
      EscapeXmlAppend([s[0]], s[1..]);
      EscapeXmlOne(s[0]);
      EscapeXmlPerCharacter(s[1..]);
    }
  }

  predicate StartsWith(s: string, p: string) { |p| <= |s| && s[..|p|] == p }

  /** The predefined entity at the front, as its character and its length (section 4.6 of XML 1.0). */
  function EntityAt(s: string): Option<(char, nat)> {
    if StartsWith(s, "&amp;") then Some(('&', 5))
    else if StartsWith(s, "&lt;") then Some(('<', 4))
    else if StartsWith(s, "&gt;") then Some(('>', 4))
    else if StartsWith(s, "&quot;") then Some(('"', 6))
    else if StartsWith(s, "&apos;") then Some(('\'', 6))
    else None
  }

  function DecodeXml(s: string): string
    decreases |s|
  {
    if s == [] then []
    else match EntityAt(s)
      case Some((c, n)) => EntityFits(s); [c] + DecodeXml(s[n..])
      case None => [s[0]] + DecodeXml(s[1..])
  }

  lemma EntityFits(s: string)
    ensures EntityAt(s).Some? ==>
      var (c, n) := EntityAt(s).value; 0 < n <= |s| && IsMarkup(c) && s[..n] == Entity(c) && n == |Entity(c)|
  {}

  /** No bare markup character, and every ampersand opens a predefined entity. */
  predicate Escaped(s: string)
    decreases |s|
  {
    || s == []
    || match EntityAt(s)
       case Some((c, n)) => EntityFits(s); Escaped(s[n..])
       case None => !IsMarkup(s[0]) && Escaped(s[1..])
  }

  lemma EntityInFront(c: char, rest: string)
    ensures IsMarkup(c) ==> EntityAt(Entity(c) + rest) == Some((c, |Entity(c)|))
    ensures !IsMarkup(c) ==> EntityAt(Entity(c) + rest) == None
    ensures (Entity(c) + rest)[|Entity(c)|..] == rest
  {
    var s := Entity(c) + rest;
    if c == '&' { assert s[..5] == "&amp;"; }
    else if c == '<' { assert s[..4] == "&lt;"; assert s[1] == 'l'; }
    else if c == '>' { assert s[..4] == "&gt;"; assert s[1] == 'g'; }
    else if c == '"' { assert s[..6] == "&quot;"; assert s[1] == 'q'; }
    else if c == '\'' { assert s[..6] == "&apos;"; assert s[1] == 'a' && s[2] == 'p'; }
    else { assert s[0] != '&'; NoEntityHere(s); }
  }

  lemma NoEntityHere(s: string)
    requires s == [] || s[0] != '&'
    ensures EntityAt(s) == None
  {
    if |s| >= 4 { assert s[..4][0] == s[0]; }
    if |s| >= 5 { assert s[..5][0] == s[0]; }
    if |s| >= 6 { assert s[..6][0] == s[0]; }
  }

  lemma {:induction false} EntityEachRoundTrip(s: string)
    ensures Escaped(EntityEach(s)) && DecodeXml(EntityEach(s)) == s
  {
    if s == [] {
    } else {
      EntityEachRoundTrip(s[1..]);
      EntityInFront(s[0], EntityEach(s[1..]));
    }
  }

  /** Decoding the predefined entities returns the input, and the escaped text holds no raw markup. */
  lemma XmlRoundTrip(s: string)
    ensures Escaped(EscapeXml(s)) && DecodeXml(EscapeXml(s)) == s
  {
    EscapeXmlPerCharacter(s);
    EntityEachRoundTrip(s);
  }

  lemma EntityText(c: char, i: nat)
    requires IsMarkup(c) && i < |Entity(c)|
    ensures Entity(c)[i] !in {'<', '>', '"', '\''}
    ensures Entity(c)[i] == '&' <==> i == 0
  {}

  lemma {:induction false} EscapedPositions(s: string, i: nat)
    requires Escaped(s) && i < |s|
    ensures s[i] !in {'<', '>', '"', '\''}
    ensures s[i] == '&' ==> EntityAt(s[i..]).Some?
    decreases |s|
  {
    hide EntityAt, Entity;
    EntityFits(s);
    assert s[0..] == s;
    match EntityAt(s)
    case Some((c, n)) =>
      if i < n {
        assert s[i] == s[..n][i] == Entity(c)[i];
        EntityText(c, i);
      } else {
        EscapedPositions(s[n..], i - n);
        assert s[n..][i - n..] == s[i..];
      }
    case None =>
      if i > 0 {
        EscapedPositions(s[1..], i - 1);
        assert s[1..][i - 1..] == s[i..];
      }
  }

  lemma EntityEachCons(c: char, s: string)
    ensures EntityEach([c] + s) == Entity(c) + EntityEach(s)
    ensures !IsMarkup(c) ==> Entity(c) == [c]
  {
    assert ([c] + s)[1..] == s;
  }

  lemma {:induction false} EscapedIsImage(s: string)
    requires Escaped(s)
    ensures EntityEach(DecodeXml(s)) == s
    decreases |s|
  {
    if s == [] {
    } else {
      EntityFits(s);
      hide EntityAt, EntityEach, Entity, IsMarkup;
      match EntityAt(s)
      case Some((c, n)) =>
        EscapedIsImage(s[n..]);
        EntityEachCons(c, DecodeXml(s[n..]));
        assert s == s[..n] + s[n..];
      case None =>
        EscapedIsImage(s[1..]);
        EntityEachCons(s[0], DecodeXml(s[1..]));
        assert s == [s[0]] + s[1..];
    }
  }

  /** The escaper's outputs are exactly the texts free of raw markup. */
  lemma EscapedIffOutput(s: string)
    ensures Escaped(s) <==> EscapeXml(DecodeXml(s)) == s
  {
    EscapeXmlPerCharacter(DecodeXml(s));
    if Escaped(s) { EscapedIsImage(s); }
    EntityEachRoundTrip(DecodeXml(s));
  }

  /** Where the escaped text can hold a special character: an ampersand, and only in front of an entity. */
  lemma NoRawMarkup(s: string, i: nat)
    requires i < |EscapeXml(s)|
    ensures EscapeXml(s)[i] !in {'<', '>', '"', '\''}
    ensures EscapeXml(s)[i] == '&' ==> EntityAt(EscapeXml(s)[i..]).Some?
  {
    XmlRoundTrip(s);
    EscapedPositions(EscapeXml(s), i);
  }

  // ---------- CSV ----------

  function CsvEscape(s: string): string {
    var s := ReplaceAll(s, "\"", "\"\"");
    var s := ReplaceAll(s, "\r\n", "\n");
    ReplaceAll(s, "\r", "\n")
  }

  /** Both CR LF and a lone CR end a line. */
  function Normalise(s: string): string {
    if s == [] then []
    else if s[0] == '\r' && |s| > 1 && s[1] == '\n' then "\n" + Normalise(s[2..])
    else if s[0] == '\r' then "\n" + Normalise(s[1..])
    else [s[0]] + Normalise(s[1..])
  }

  function Doubled(s: string): string {
    if s == [] then [] else (if s[0] == '"' then "\"\"" else [s[0]]) + Doubled(s[1..])
  }

  lemma {:induction false} QuotesDoubled(s: string)
    ensures ReplaceAll(s, "\"", "\"\"") == Doubled(s)
  {
    if s == [] {
    } else {
      QuotesDoubled(s[1..]);
      assert s[..1] == "\"" <==> s[0] == '"';
    }
  }

  lemma {:induction false} LineEndsNormalised(s: string)
    ensures ReplaceAll(ReplaceAll(s, "\r\n", "\n"), "\r", "\n") == Normalise(s)
  {
    if s == [] {
    } else if |s| > 1 && s[..2] == "\r\n" {
      LineEndsNormalised(s[2..]);
      assert s[0] == '\r' && s[1] == '\n';
      ReplaceCharAppend("\n", ReplaceAll(s[2..], "\r\n", "\n"), '\r', "\n");
      ReplaceOne('\n', '\r', "\n");
    } else {
      LineEndsNormalised(s[1..]);
      if |s| > 1 { assert s[..2] == [s[0], s[1]]; }
      assert ReplaceAll(s, "\r\n", "\n") == [s[0]] + ReplaceAll(s[1..], "\r\n", "\n") by {
        if |s| == 1 { assert s == [s[0]] + s[1..]; }
      }
      ReplaceCharAppend([s[0]], ReplaceAll(s[1..], "\r\n", "\n"), '\r', "\n");
      ReplaceOne(s[0], '\r', "\n");
    }
  }

  lemma NormaliseCons(c: char, s: string)
    requires c != '\r'
    ensures Normalise([c] + s) == [c] + Normalise(s)
  {
    assert ([c] + s)[1..] == s;
  }

  lemma NormaliseReturn(s: string)
    ensures Normalise("\r\n" + s) == "\n" + Normalise(s)
    ensures s == [] || s[0] != '\n' ==> Normalise("\r" + s) == "\n" + Normalise(s)
  {
    assert ("\r\n" + s)[2..] == s && ("\r" + s)[1..] == s;
  }

  lemma DoubledCons(c: char, s: string)
    ensures Doubled([c] + s) == (if c == '"' then "\"\"" else [c]) + Doubled(s)
    ensures Doubled([c] + s)[0] == c
  {
    assert ([c] + s)[1..] == s;
  }

  lemma {:induction false} NormaliseDoubled(s: string)
    ensures Normalise(Doubled(s)) == Doubled(Normalise(s))
  {
    if s == [] {
    } else {
      hide Normalise, Doubled;
      var c, t := s[0], s[1..];
      assert s == [c] + t;
      if t != [] && c == '\r' && t[0] == '\n' {
        assert s == "\r\n" + t[1..];
        NormaliseDoubled(t[1..]);
        ReturnAndFeed(t[1..]);
      } else {
        NormaliseDoubled(t);
        LoneCharacter(c, t);
      }
    }
  }

  lemma ReturnAndFeed(t: string)
    requires Normalise(Doubled(t)) == Doubled(Normalise(t))
    ensures Normalise(Doubled("\r\n" + t)) == Doubled(Normalise("\r\n" + t))
  {
    hide Normalise, Doubled;
    DoubledCons('\n', t);
    DoubledCons('\r', "\n" + t);
    assert "\r\n" + t == "\r" + ("\n" + t);
    assert "\r\n" + Doubled(t) == "\r" + ("\n" + Doubled(t));
    NormaliseReturn(t);
    NormaliseReturn(Doubled(t));
    DoubledCons('\n', Normalise(t));
  }

  lemma DoubledFront(t: string)
    ensures t == [] ==> Doubled(t) == []
    ensures t != [] ==> Doubled(t) != [] && Doubled(t)[0] == t[0]
  {}

  lemma NormaliseQuotes(t: string)
    ensures Normalise("\"\"" + t) == "\"\"" + Normalise(t)
  {
    NormaliseCons('"', t);
    NormaliseCons('"', "\"" + t);
    hide Normalise;
    assert "\"\"" + t == "\"" + ("\"" + t);
    assert "\"\"" + Normalise(t) == "\"" + ("\"" + Normalise(t));
  }

  lemma LoneCharacter(c: char, t: string)
    requires !(c == '\r' && t != [] && t[0] == '\n')
    requires Normalise(Doubled(t)) == Doubled(Normalise(t))
    ensures Normalise(Doubled([c] + t)) == Doubled(Normalise([c] + t))
  {
    hide Normalise, Doubled;
    DoubledCons(c, t);
    if c == '\r' {
      DoubledFront(t);
      NormaliseReturn(t);
      NormaliseReturn(Doubled(t));
      DoubledCons('\n', Normalise(t));
    } else {
      NormaliseCons(c, t);
      DoubledCons(c, Normalise(t));
      if c == '"' { NormaliseQuotes(Doubled(t)); } else { NormaliseCons(c, Doubled(t)); }
    }
  }

  /** The three replacements double the quotes of the text with its line ends normalised. */
  lemma CsvEscapeMeaning(s: string)
    ensures CsvEscape(s) == Doubled(Normalise(s))
  {
    QuotesDoubled(s);
    LineEndsNormalised(Doubled(s));
    NormaliseDoubled(s);
  }

  /** Text survives the normalisation exactly when it holds no carriage return. */
  lemma {:induction false} NormaliseIdentityIff(s: string)
    ensures '\r' !in Normalise(s)
    ensures Normalise(s) == s <==> '\r' !in s
  {
    if s == [] {
    } else if s[0] == '\r' && |s| > 1 && s[1] == '\n' {
      NormaliseIdentityIff(s[2..]);
    } else {
      NormaliseIdentityIff(s[1..]);
      assert s == [s[0]] + s[1..];
    }
  }

  // A reader by the quoting rules of section 2 of RFC 4180, lines ending in LF. Its `Option` is
  // `None` for text outside the grammar; a character beyond ASCII is read as text.

  datatype Read<T> = Read(value: T, rest: string) | Malformed

  /** Inside quotes: up to the first quote that is not doubled. */
  function ReadQuoted(s: string): (r: Read<string>)
    ensures r.Read? ==> |r.rest| < |s|
  {
    if s == [] then Malformed
    else if s[0] != '"' then Prepend(s[0], ReadQuoted(s[1..]))
    else if |s| > 1 && s[1] == '"' then Prepend('"', ReadQuoted(s[2..]))
    else Read([], s[1..])
  }

  function Prepend(c: char, r: Read<string>): Read<string> {
    if r.Read? then r.(value := [c] + r.value) else Malformed
  }

  predicate IsTextData(c: char) { c != '"' && c != ',' && c != '\r' && c != '\n' }

  function ReadBare(s: string): (r: Read<string>)
    ensures r.Read? && |r.rest| <= |s|
  {
    if s == [] || !IsTextData(s[0]) then Read([], s)
    else Prepend(s[0], ReadBare(s[1..]))
  }

  function ReadField(s: string): (r: Read<string>)
    ensures r.Read? ==> |r.rest| <= |s|
  {
    if s != [] && s[0] == '"' then ReadQuoted(s[1..]) else ReadBare(s)
  }

  function ReadRecord(s: string): (r: Read<seq<string>>)
    ensures r.Read? ==> |r.rest| <= |s|
    decreases |s|
  {
    var f := ReadField(s);
    if f.Malformed? then Malformed
    else if f.rest == [] || f.rest[0] != ',' then Read([f.value], f.rest)
    else
      var more := ReadRecord(f.rest[1..]);
      if more.Malformed? then Malformed else Read([f.value] + more.value, more.rest)
  }

  /** A file: records, each but possibly the last ended by a line feed. */
  function ParseCsv(s: string): Option<seq<seq<string>>>
    decreases |s|
  {
    var r := ReadRecord(s);
    if r.Malformed? then None
    else if r.rest == [] || r.rest == "\n" then Some([r.value])
    else if r.rest[0] != '\n' then None
    else
      var more := ParseCsv(r.rest[1..]);
      if more.None? then None else Some([r.value] + more.value)
  }

  const HEADER := "instruction,input,output\n"
  const HEADER_RECORD: seq<seq<string>> := [["instruction", "input", "output"]]

  /** A stored message as the exporter reads it. */
  datatype Stored = Stored(role: Role, content: string)

  predicate HasReply(msgs: seq<Stored>, i: nat)
    requires i < |msgs|
  {
    i + 1 < |msgs| && msgs[i + 1].role == Assistant
  }

  function Reply(msgs: seq<Stored>, i: nat): string
    requires i < |msgs|
  {
    if HasReply(msgs, i) then msgs[i + 1].content else ""
  }

  /** What the file is to say: a record for every user message, with the answer that follows it. */
  function Records(msgs: seq<Stored>, i: nat): seq<seq<string>>
    requires i <= |msgs|
    decreases |msgs| - i
  {
    if i == |msgs| then []
    else if msgs[i].role != User then Records(msgs, i + 1)
    else [["", Normalise(msgs[i].content), Normalise(Reply(msgs, i))]] + Records(msgs, i + 1)
  }

  function Quoted(s: string): string { "\"" + Doubled(s) + "\"" }

  /** Which record a user message gets, by position: the number of user messages before it. */
  function UsersBefore(msgs: seq<Stored>, i: nat): nat
    requires i <= |msgs|
  {
    if i == 0 then 0 else UsersBefore(msgs, i - 1) + if msgs[i - 1].role == User then 1 else 0
  }

  /** One record per user message, in order, with the message right behind it if that is the assistant's. */
  lemma {:induction false} RecordOf(msgs: seq<Stored>, k: nat, i: nat)
    requires k <= i < |msgs| && msgs[i].role == User
    ensures |Records(msgs, k)| == UsersBefore(msgs, |msgs|) - UsersBefore(msgs, k)
    ensures UsersBefore(msgs, k) <= UsersBefore(msgs, i) < UsersBefore(msgs, |msgs|)
    ensures Records(msgs, k)[UsersBefore(msgs, i) - UsersBefore(msgs, k)] ==
            ["", Normalise(msgs[i].content),
             if i + 1 < |msgs| && msgs[i + 1].role == Assistant then Normalise(msgs[i + 1].content) else ""]
    decreases i - k
  {
    hide Normalise;
    if k == i {
      RecordCount(msgs, k);
      RecordCount(msgs, i + 1);
      EmptyNormalised();
    } else {
      RecordOf(msgs, k + 1, i);
    }
  }

  lemma {:induction false} RecordCount(msgs: seq<Stored>, k: nat)
    requires k <= |msgs|
    ensures |Records(msgs, k)| == UsersBefore(msgs, |msgs|) - UsersBefore(msgs, k)
    decreases |msgs| - k
  {
    hide Normalise;
    if k == |msgs| {
    } else {
      RecordCount(msgs, k + 1);
    }
  }

  lemma EmptyNormalised()
    ensures Normalise("") == ""
  {
  }

  function Line(input: string, output: string): string {
    Quoted("") + "," + Quoted(Normalise(input)) + "," + Quoted(Normalise(output)) + "\n"
  }

  function Lines(msgs: seq<Stored>, i: nat): string
    requires i <= |msgs|
    decreases |msgs| - i
  {
    if i == |msgs| then []
    else if msgs[i].role != User then Lines(msgs, i + 1)
    else Line(msgs[i].content, Reply(msgs, i)) + Lines(msgs, i + 1)
  }

  lemma {:induction false} ReadQuotedDoubled(s: string, rest: string)
    requires rest == [] || rest[0] != '"'
    ensures ReadQuoted(Doubled(s) + "\"" + rest) == Read(s, rest)
  {
    var t := Doubled(s) + "\"" + rest;
    if s == [] {
      assert t == "\"" + rest;
      assert t[1..] == rest;
    } else {
      ReadQuotedDoubled(s[1..], rest);
      var u := Doubled(s[1..]) + "\"" + rest;
      assert s == [s[0]] + s[1..];
      if s[0] == '"' {
        assert t == "\"\"" + u;
        assert t[2..] == u;
      } else {
        assert t == [s[0]] + u;
        assert t[1..] == u;
      }
    }
  }

  lemma QuotedField(s: string, rest: string)
    requires rest == [] || rest[0] != '"'
    ensures ReadField(Quoted(s) + rest) == Read(s, rest)
    ensures Quoted(s)[0] == '"'
  {
    var t := Quoted(s) + rest;
    assert t[1..] == Doubled(s) + "\"" + rest;
    ReadQuotedDoubled(s, rest);
  }

  lemma FieldThenComma(s: string, more: string, r: Read<seq<string>>)
    requires r.Read? && ReadRecord(more) == r
    ensures ReadRecord(Quoted(s) + "," + more) == Read([s] + r.value, r.rest)
  {
    hide ReadField, Quoted;
    assert Quoted(s) + ("," + more) == Quoted(s) + "," + more;
    QuotedField(s, "," + more);
    assert ("," + more)[1..] == more;
  }

  lemma LastField(s: string, rest: string)
    requires rest != [] && rest[0] == '\n'
    ensures ReadRecord(Quoted(s) + rest) == Read([s], rest)
  {
    hide ReadField, Quoted;
    QuotedField(s, rest);
  }

  lemma Regroup(a: string, b: string, c: string, rest: string)
    ensures a + "," + b + "," + c + rest == a + "," + (b + "," + (c + rest))
  {
    var left := a + "," + b + ",";
    assert left + c + rest == left + (c + rest);
    assert left + (c + rest) == a + "," + (b + "," + (c + rest));
  }

  lemma ThreeQuoted(a: string, b: string, c: string, rest: string)
    requires rest != [] && rest[0] == '\n'
    ensures ReadRecord(Quoted(a) + "," + Quoted(b) + "," + Quoted(c) + rest) == Read([a, b, c], rest)
  {
    hide ReadRecord, Quoted;
    LastField(c, rest);
    FieldThenComma(b, Quoted(c) + rest, Read([c], rest));
    FieldThenComma(a, Quoted(b) + "," + (Quoted(c) + rest), Read([b] + [c], rest));
    Regroup(Quoted(a), Quoted(b), Quoted(c), rest);
    assert [a] + ([b] + [c]) == [a, b, c];
  }

  lemma ReadLine(input: string, output: string, rest: string)
    ensures ReadRecord(Line(input, output) + rest) ==
            Read(["", Normalise(input), Normalise(output)], "\n" + rest)
  {
    hide ReadRecord, Quoted;
    ThreeQuoted("", Normalise(input), Normalise(output), "\n" + rest);
    var front := Quoted("") + "," + Quoted(Normalise(input)) + "," + Quoted(Normalise(output));
    assert front + "\n" + rest == front + ("\n" + rest);
  }

  /** A record that ends in a line feed is read by itself. */
  lemma RecordThenRest(s: string, rest: string, value: seq<string>)
    requires ReadRecord(s) == Read(value, "\n" + rest)
    ensures rest == [] ==> ParseCsv(s) == Some([value])
    ensures rest != [] && ParseCsv(rest).Some? ==> ParseCsv(s) == Some([value] + ParseCsv(rest).value)
  {
    hide ReadRecord;
    assert ("\n" + rest)[1..] == rest;
    if rest != [] { assert "\n" + rest != "\n"; }
  }

  lemma {:induction false} ParseLines(msgs: seq<Stored>, i: nat)
    requires i <= |msgs|
    ensures Lines(msgs, i) == [] <==> Records(msgs, i) == []
    ensures Lines(msgs, i) != [] ==> ParseCsv(Lines(msgs, i)) == Some(Records(msgs, i))
    decreases |msgs| - i
  {
    if i < |msgs| {
      ParseLines(msgs, i + 1);
      if msgs[i].role == User {
        hide ParseCsv, ReadRecord;
        ReadLine(msgs[i].content, Reply(msgs, i), Lines(msgs, i + 1));
        var value := ["", Normalise(msgs[i].content), Normalise(Reply(msgs, i))];
        RecordThenRest(Lines(msgs, i), Lines(msgs, i + 1), value);
        assert Records(msgs, i) == [value] + Records(msgs, i + 1);
        if Lines(msgs, i + 1) == [] { assert [value] + Records(msgs, i + 1) == [value]; }
      }
    }
  }

  lemma {:induction false} BareText(w: string, rest: string)
    requires forall i :: 0 <= i < |w| ==> IsTextData(w[i])
    requires rest != [] && !IsTextData(rest[0])
    ensures ReadBare(w + rest) == Read(w, rest)
  {
    if w == [] {
      assert w + rest == rest;
    } else {
      assert (w + rest)[1..] == w[1..] + rest;
      BareText(w[1..], rest);
      assert w == [w[0]] + w[1..];
    }
  }

  lemma BareField(w: string, rest: string)
    requires IsBare(w)
    requires rest != [] && !IsTextData(rest[0])
    ensures ReadField(w + rest) == Read(w, rest)
  {
    BareText(w, rest);
    assert (w + rest)[0] == w[0];
  }

  lemma BareThenComma(w: string, more: string, r: Read<seq<string>>)
    requires IsBare(w)
    requires r.Read? && ReadRecord(more) == r
    ensures ReadRecord(w + "," + more) == Read([w] + r.value, r.rest)
  {
    hide ReadField;
    assert w + ("," + more) == w + "," + more;
    BareField(w, "," + more);
    assert ("," + more)[1..] == more;
  }

  predicate IsBare(w: string) { w != [] && forall i :: 0 <= i < |w| ==> IsTextData(w[i]) }

  lemma BareLast(w: string, rest: string)
    requires IsBare(w) && rest != [] && rest[0] == '\n'
    ensures ReadRecord(w + rest) == Read([w], rest)
  {
    hide ReadField;
    BareField(w, rest);
  }

  lemma ThreeBare(a: string, b: string, c: string, rest: string)
    requires IsBare(a) && IsBare(b) && IsBare(c)
    requires rest != [] && rest[0] == '\n'
    ensures ReadRecord(a + "," + b + "," + c + rest) == Read([a, b, c], rest)
  {
    hide ReadRecord, IsBare;
    BareLast(c, rest);
    BareThenComma(b, c + rest, Read([c], rest));
    BareThenComma(a, b + "," + (c + rest), Read([b] + [c], rest));
    Regroup(a, b, c, rest);
    assert [a] + ([b] + [c]) == [a, b, c];
  }

  lemma HeaderRead(rest: string)
    ensures ReadRecord(HEADER + rest) == Read(HEADER_RECORD[0], "\n" + rest)
  {
    hide ReadRecord;
    ThreeBare("instruction", "input", "output", "\n" + rest);
    assert HEADER + rest == "instruction" + "," + "input" + "," + "output" + ("\n" + rest);
  }

  /** Reading the whole file gives the header and one record per user message. */
  lemma CsvRoundTrip(msgs: seq<Stored>)
    ensures ParseCsv(HEADER + Lines(msgs, 0)) == Some([["instruction", "input", "output"]] + Records(msgs, 0))
  {
    hide ParseCsv, ReadRecord;
    HeaderRead(Lines(msgs, 0));
    RecordThenRest(HEADER + Lines(msgs, 0), Lines(msgs, 0), ["instruction", "input", "output"]);
    ParseLines(msgs, 0);
    if Lines(msgs, 0) == [] { assert HEADER_RECORD + Records(msgs, 0) == HEADER_RECORD; }
  }

  /** The pieces one record is written in, put together. */
  lemma Written(before: string, input: string, output: string)
    ensures var a, b := Doubled(Normalise(input)), Doubled(Normalise(output));
            before + "\"" + "" + "\",\"" + a + "\",\"" + b + "\"\n" == before + Line(input, output)
  {
    assert Quoted("") == "\"\"";
    hide Doubled, Normalise;
    var a, b := Doubled(Normalise(input)), Doubled(Normalise(output));
    assert before + "\"" + "" + "\",\"" == before + "\"\",\"";
    WrittenFlat(before, a, b);
  }

  lemma WrittenFlat(before: string, a: string, b: string)
    ensures before + "\"\",\"" + a + "\",\"" + b + "\"\n" ==
            before + ("\"\"" + "," + ("\"" + a + "\"") + "," + ("\"" + b + "\"") + "\n")
  {
    var front := "\"\",\"" + a;
    assert "\"\"" + "," + ("\"" + a + "\"") == front + "\"";
    assert before + "\"\",\"" + a == before + front;
    assert front + "\"" + "," + ("\"" + b + "\"") + "\n" == front + ("\",\"" + b + "\"\n");
  }

  method ExportCsv(msgs: seq<Stored>) returns (text: string)
    ensures ParseCsv(text) == Some([["instruction", "input", "output"]] + Records(msgs, 0))
    ensures text == HEADER + Lines(msgs, 0)
  {
    hide ParseCsv, CsvEscape, Doubled, Normalise;
    text := HEADER;
    for i := 0 to |msgs|
      invariant text + Lines(msgs, i) == HEADER + Lines(msgs, 0)
    {
      if msgs[i].role != User {
        continue;
      }
      var instruction := "";
      var input := CsvEscape(msgs[i].content);
      CsvEscapeMeaning(msgs[i].content);
      var output := "";
      if i + 1 < |msgs| && msgs[i + 1].role == Assistant {
        output := CsvEscape(msgs[i + 1].content);
        CsvEscapeMeaning(msgs[i + 1].content);
      } else {
        NothingEscaped();
      }
      ghost var before := text;
      text := text + "\"";
      text := text + instruction;
      text := text + "\",\"";
      text := text + input;
      text := text + "\",\"";
      text := text + output;
      text := text + "\"\n";
      Written(before, msgs[i].content, Reply(msgs, i));
    }
    assert text + Lines(msgs, |msgs|) == text;
    CsvRoundTrip(msgs);
  }

  lemma NothingEscaped()
    ensures Doubled(Normalise("")) == ""
  {}

  /** The texts as stored, before any line end is touched. */
  function Verbatim(msgs: seq<Stored>, i: nat): seq<seq<string>>
    requires i <= |msgs|
    decreases |msgs| - i
  {
    if i == |msgs| then []
    else if msgs[i].role != User then Verbatim(msgs, i + 1)
    else [["", msgs[i].content, Reply(msgs, i)]] + Verbatim(msgs, i + 1)
  }

  /** The exported records are the stored texts themselves exactly when no exported text has a carriage return. */
  lemma {:induction false} CsvLosslessIff(msgs: seq<Stored>, i: nat)
    requires i <= |msgs|
    ensures Records(msgs, i) == Verbatim(msgs, i) <==>
            forall j :: i <= j < |msgs| && msgs[j].role == User ==>
              '\r' !in msgs[j].content && '\r' !in Reply(msgs, j)
    ensures |Records(msgs, i)| == |Verbatim(msgs, i)|
    decreases |msgs| - i
  {
    if i < |msgs| {
      CsvLosslessIff(msgs, i + 1);
      if msgs[i].role == User {
        NormaliseIdentityIff(msgs[i].content);
        NormaliseIdentityIff(Reply(msgs, i));
        FrontAndRest(Records(msgs, i), Verbatim(msgs, i));
        assert Records(msgs, i)[0][1] == Normalise(msgs[i].content);
        assert Records(msgs, i)[0][2] == Normalise(Reply(msgs, i));
        assert Verbatim(msgs, i)[0][1] == msgs[i].content && Verbatim(msgs, i)[0][2] == Reply(msgs, i);
      }
    }
  }

  lemma FrontAndRest<T>(a: seq<T>, b: seq<T>)
    requires a != [] && b != []
    ensures a == b <==> a[0] == b[0] && a[1..] == b[1..]
  {
    assert a == [a[0]] + a[1..] && b == [b[0]] + b[1..];
  }
}
