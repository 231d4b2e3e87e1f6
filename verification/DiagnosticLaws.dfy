/** What the sanitiser does to control characters, and that the escaped spelling of a key
    is the one a JSON reader takes back. */
module DiagnosticLaws {
  import opened Wrappers
  import opened Bytes
  import opened Redaction
  import opened RedactionLaws
  import opened Diagnostics

  // ---------------------------------------------------------------- control characters

  /** C0 and C1 controls and DEL, but for tab and line feed. */
  predicate Unwanted(c: int) {
    (0 <= c < 32 || 127 <= c < 160) && c != 9 && c != 10
  }

  /** No character of this text, from `i` on, is an unwanted control. */
  predicate Wanted(s: seq<Byte>, i: nat)
    requires i <= |s|
    decreases |s| - i
  {
    i == |s| || (WellFormedWidth(s, i) > 0 && !Unwanted(CodePoint(s, i)) && Wanted(s, i + WellFormedWidth(s, i)))
  }

  lemma {:induction false} WantedShift(head: seq<Byte>, u: seq<Byte>, k: nat)
    requires k <= |u| && Wanted(u, k)
    ensures Wanted(head + u, |head| + k)
    decreases |u| - k
  {
    hide CodePoint, WellFormedWidth, Unwanted;
    if k < |u| {
      var w := WellFormedWidth(u, k);
      assert (head + u)[|head| + k..|head| + k + w] == u[k..k + w];
      CodePointIsLocal(u, k, head + u, |head| + k);
      WantedShift(head, u, k + w);
    }
  }

  /** One wanted character in front of wanted text. */
  lemma WantedCons(s: seq<Byte>, i: nat, rest: seq<Byte>)
    requires i < |s| && WellFormedWidth(s, i) > 0 && !Unwanted(CodePoint(s, i)) && Wanted(rest, 0)
    ensures Wanted(s[i..i + WellFormedWidth(s, i)] + rest, 0)
  {
    hide CodePoint, WellFormedWidth, Unwanted;
    var w := WellFormedWidth(s, i);
    var head := s[i..i + w];
    assert (head + rest)[0..w] == head;
    CodePointIsLocal(s, i, head + rest, 0);
    WantedShift(head, rest, 0);
  }

  lemma ReplacementIsWanted()
    ensures WellFormedWidth(REPLACEMENT_CHARACTER, 0) == 3 && CodePoint(REPLACEMENT_CHARACTER, 0) == 0xFFFD
    ensures REPLACEMENT_CHARACTER[0..3] == REPLACEMENT_CHARACTER
  {
  }

  lemma {:induction false} MappedIsWanted(s: seq<Byte>, i: nat)
    requires i <= |s| && ValidUtf8From(s, i)
    ensures Wanted(MapControls(s, i), 0)
    decreases |s| - i
  {
    hide CodePoint, WellFormedWidth;
    if i < |s| {
      var w, c := WellFormedWidth(s, i), CodePoint(s, i);
      WidthOfChar(s, i);
      MappedIsWanted(s, i + w);
      ReplacementIsWanted();
      if Unwanted(c) {
        WantedCons(REPLACEMENT_CHARACTER, 0, MapControls(s, i + w));
      } else {
        WantedCons(s, i, MapControls(s, i + w));
      }
    }
  }

  /** Normalised text has no control characters but tabs and line feeds. */
  lemma ControlsGone(s: seq<Byte>)
    requires ValidUtf8(s)
    ensures Wanted(NormalizeDiagnosticControls(s), 0)
  {
    AsciiIsValid([13, 10], 0);
    AsciiIsValid([13], 0);
    ReplaceKeepsUtf8(s, 0, [13, 10], [10]);
    ReplaceKeepsUtf8(Replace(s, [13, 10], [10]), 0, [13], [10]);
    MappedIsWanted(Replace(Replace(s, [13, 10], [10]), [13], [10]), 0);
  }

  lemma {:induction false} WantedMapsToItself(s: seq<Byte>, i: nat)
    requires i <= |s| && Wanted(s, i)
    ensures MapControls(s, i) == s[i..]
    decreases |s| - i
  {
    hide CodePoint, WellFormedWidth;
    if i < |s| {
      var w := WellFormedWidth(s, i);
      WidthOfChar(s, i);
      WantedMapsToItself(s, i + w);
      assert s[i..i + w] + s[i + w..] == s[i..];
    }
  }

  /** Text that has none of them, in whatever script, is not changed. */
  lemma WantedUnchanged(s: seq<Byte>)
    requires Wanted(s, 0) && 13 !in s
    ensures NormalizeDiagnosticControls(s) == s
  {
    AbsentByFirstByte(s, [13, 10]);
    ReplaceAbsent(s, [13, 10], [10]);
    AbsentByFirstByte(s, [13]);
    ReplaceAbsent(s, [13], [10]);
    WantedMapsToItself(s, 0);
    assert s[0..] == s;
  }

  /** Each of them alone becomes U+FFFD, whose UTF-8 form is EF BF BD. */
  lemma ControlsReplaced(b: Byte)
    ensures b < 32 && b != 9 && b != 10 && b != 13 ==> NormalizeDiagnosticControls([b]) == [0xEF, 0xBF, 0xBD]
    ensures NormalizeDiagnosticControls([127]) == [0xEF, 0xBF, 0xBD]
    ensures 0x80 <= b < 0xA0 ==> NormalizeDiagnosticControls([0xC2, b]) == [0xEF, 0xBF, 0xBD]
  {
    if b != 13 {
      NoReturns([b]);
    }
    NoReturns([127]);
    if 0x80 <= b < 0xA0 {
      NoReturns([0xC2, b]);
      assert CodePoint([0xC2, b], 0) == b as int;
      assert MapControls([0xC2, b], 2) == [];
    }
  }

  /** A carriage return becomes a line feed, with or without the line feed behind it. */
  lemma ReturnsReplaced()
    ensures NormalizeDiagnosticControls([13]) == [10] && NormalizeDiagnosticControls([13, 10]) == [10]
  {
    assert ReplaceFrom([13, 10], 2, [13, 10], [10]) == [] && [13, 10][0..2] == [13, 10];
    assert Replace([13, 10], [13, 10], [10]) == [10];
    AbsentByFirstByte([10], [13]);
    ReplaceAbsent([10], [13], [10]);
    assert !OccursAt([13], [13, 10], 0);
    assert ReplaceFrom([13], 1, [13, 10], [10]) == [];
    assert Replace([13], [13, 10], [10]) == [13];
    assert [13][0..1] == [13] && ReplaceFrom([13], 1, [13], [10]) == [];
    assert Replace([13], [13], [10]) == [10];
    assert MapControls([10], 1) == [];
    assert MapControls([10], 0) == [10];
  }

  lemma NoReturns(s: seq<Byte>)
    requires 13 !in s
    ensures NormalizeDiagnosticControls(s) == MapControls(s, 0)
  {
    AbsentByFirstByte(s, [13, 10]);
    ReplaceAbsent(s, [13, 10], [10]);
    AbsentByFirstByte(s, [13]);
    ReplaceAbsent(s, [13], [10]);
  }

  // ---------------------------------------------------------------- JSON

  function HexValue(b: Byte): Option<int> {
    var c := b as int;
    if '0' as int <= c <= '9' as int then Some(c - '0' as int)
    else if 'a' as int <= c <= 'f' as int then Some(c - 'a' as int + 10)
    else if 'A' as int <= c <= 'F' as int then Some(c - 'A' as int + 10)
    else None
  }

  /** What a two-character escape stands for. */
  function Unescaped(b: Byte): Option<Byte> {
    match b as int as char
    case '"' => Some(34)
    case '\\' => Some(92)
    case '/' => Some(47)
    case 'b' => Some(8)
    case 'f' => Some(12)
    case 'n' => Some(10)
    case 'r' => Some(13)
    case 't' => Some(9)
    case _ => None
  }

  /** Reading the inside of a JSON string back (section 7 of RFC 8259), as far as escapes
      for single bytes go. */
  function JsonRead(s: seq<Byte>): Option<seq<Byte>> {
    if s == [] then Some([])
    else if s[0] != 92 then
      if s[0] < 32 || s[0] == 34 || JsonRead(s[1..]).None? then None else Some([s[0]] + JsonRead(s[1..]).value)
    else if |s| >= 6 && s[1] == 117 then
      if s[2] != 48 || s[3] != 48 || HexValue(s[4]).None? || HexValue(s[5]).None? || JsonRead(s[6..]).None? then None
      else Some([((HexValue(s[4]).value * 16 + HexValue(s[5]).value) % 128) as Byte] + JsonRead(s[6..]).value)
    else if |s| < 2 || Unescaped(s[1]).None? || JsonRead(s[2..]).None? then None
    else Some([Unescaped(s[1]).value] + JsonRead(s[2..]).value)
  }

  /** Round trip: what JSON makes of a key reads back as the key. */
  lemma {:induction false} JsonReadsBack(key: seq<Byte>, i: nat)
    requires i <= |key|
    ensures JsonRead(JsonInner(key, i)) == Some(key[i..])
    decreases |key| - i
  {
    if i < |key| {
      JsonReadsBack(key, i + 1);
      var e, rest := JsonEscape(key[i]), JsonInner(key, i + 1);
      assert (e + rest)[|e|..] == rest;
      assert key[i..] == [key[i]] + key[i + 1..];
      EscapeReadsBack(key[i], rest);
    } else {
      assert key[i..] == [] && JsonInner(key, i) == [] && JsonRead([]) == Some([]);
    }
  }

  lemma EscapeReadsBack(b: Byte, rest: seq<Byte>)
    requires JsonRead(rest).Some?
    ensures JsonRead(JsonEscape(b) + rest) == Some([b] + JsonRead(rest).value)
  {
    var e := JsonEscape(b);
    var s := e + rest;
    assert s[|e|..] == rest;
    assert forall k :: 0 <= k < |e| ==> s[k] == e[k];
    if |e| == 1 {
      assert e == [b] && b != 92 && b != 34 && b >= 32;
      hide JsonEscape, HexValue, Unescaped;
    } else if |e| == 2 {
      TwoReadBack(b);
      hide JsonEscape, HexValue, JsonRead, Unescaped;
      assert s[0] == e[0] && s[1] == e[1];
      ReadTwo(s);
    } else {
      SixReadBack(b);
      hide JsonEscape, HexValue, JsonRead, Unescaped;
      assert s[0] == e[0] && s[1] == e[1] && s[2] == e[2] && s[3] == e[3] && s[4] == e[4] && s[5] == e[5];
      ReadSix(s);
    }
  }

  lemma ReadTwo(s: seq<Byte>)
    requires |s| >= 2 && s[0] == 92 && s[1] != 117 && Unescaped(s[1]).Some? && JsonRead(s[2..]).Some?
    ensures JsonRead(s) == Some([Unescaped(s[1]).value] + JsonRead(s[2..]).value)
  {
  }

  lemma ReadSix(s: seq<Byte>)
    requires |s| >= 6 && s[0] == 92 && s[1] == 117 && s[2] == 48 && s[3] == 48
    requires HexValue(s[4]).Some? && HexValue(s[5]).Some? && JsonRead(s[6..]).Some?
    requires HexValue(s[4]).value * 16 + HexValue(s[5]).value < 32
    ensures JsonRead(s)
         == Some([(HexValue(s[4]).value * 16 + HexValue(s[5]).value) as Byte] + JsonRead(s[6..]).value)
  {
  }

  lemma TwoReadBack(b: Byte)
    requires |JsonEscape(b)| == 2
    ensures JsonEscape(b)[0] == 92 && JsonEscape(b)[1] != 117 && Unescaped(JsonEscape(b)[1]) == Some(b)
  {
  }

  lemma SixReadBack(b: Byte)
    requires |JsonEscape(b)| != 1 && |JsonEscape(b)| != 2
    ensures var e := JsonEscape(b);
            && |e| == 6 && e[0] == 92 && e[1] == 117 && e[2] == 48 && e[3] == 48
            && HexValue(e[4]).Some? && HexValue(e[5]).Some?
            && HexValue(e[4]).value * 16 + HexValue(e[5]).value == b as int && b < 32
  {
  }

  /** Only what JSON has to escape is escaped, in its shortest form where there is one,
      and otherwise as four lower-case digits. */
  lemma EscapesSpelled(b: Byte)
    ensures JsonEscape(34) == Ascii("\\\"") && JsonEscape(92) == Ascii("\\\\") && JsonEscape(8) == Ascii("\\b")
    ensures JsonEscape(9) == Ascii("\\t") && JsonEscape(10) == Ascii("\\n") && JsonEscape(12) == Ascii("\\f")
    ensures JsonEscape(13) == Ascii("\\r") && JsonEscape(0) == Ascii("\\u0000") && JsonEscape(31) == Ascii("\\u001f")
    ensures b >= 32 && b != 34 && b != 92 ==> JsonEscape(b) == [b]
    ensures b < 32 && b !in {8, 9, 10, 12, 13} ==>
              |JsonEscape(b)| == 6 && forall d :: d in JsonEscape(b) ==> !('A' as int <= d as int <= 'Z' as int)
  {
  }
}
