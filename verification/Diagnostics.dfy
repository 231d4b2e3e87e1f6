/** From the upstream error body to the text that is shown: normalise control
    characters, replace the API key, redact bearer tokens, cut to the limit. */
module Diagnostics {
  import opened Bytes
  import opened Redaction

  const MAX_UPSTREAM_DIAGNOSTIC_BYTES: nat := 16 * 1024

  const REPLACEMENT_CHARACTER: seq<Byte> := [0xEF, 0xBF, 0xBD]

  predicate OccursAt(s: seq<Byte>, key: seq<Byte>, i: nat) {
    i + |key| <= |s| && s[i..i + |key|] == key
  }

  predicate KeyFree(s: seq<Byte>, key: seq<Byte>) {
    forall i :: 0 <= i <= |s| ==> !OccursAt(s, key, i)
  }

  /** `str::replace`: non-overlapping occurrences, leftmost first. */
  function ReplaceFrom(s: seq<Byte>, i: nat, from: seq<Byte>, to: seq<Byte>): seq<Byte>
    requires i <= |s| && from != []
    decreases |s| - i
  {
    if i == |s| then []
    else if OccursAt(s, from, i) then to + ReplaceFrom(s, i + |from|, from, to)
    else [s[i]] + ReplaceFrom(s, i + 1, from, to)
  }

  function Replace(s: seq<Byte>, from: seq<Byte>, to: seq<Byte>): seq<Byte>
    requires from != []
  {
    ReplaceFrom(s, 0, from, to)
  }

  /** Control characters (U+0000 to U+001F and U+007F to U+009F) other than line
      feed and tab become U+FFFD. */
  predicate IsControl(c: int) {
    0 <= c <= 0x1F || 0x7F <= c <= 0x9F
  }

  function MapControls(s: seq<Byte>, i: nat): seq<Byte>
    requires i <= |s|
    decreases |s| - i
  {
    if i == |s| then []
    else
      var c := CodePoint(s, i);
      var next := i + CharWidth(s, i);
      (if IsControl(c) && c != 10 && c != 9 then REPLACEMENT_CHARACTER else s[i..next])
      + MapControls(s, next)
  }

  function NormalizeDiagnosticControls(s: seq<Byte>): seq<Byte> {
    MapControls(Replace(Replace(s, [13, 10], [10]), [13], [10]), 0)
  }

  function HexDigit(n: int): (d: Byte)
    requires 0 <= n < 16
    ensures d < 0x80
  {
    if n < 10 then (48 + n) as Byte else (87 + n) as Byte
  }

  function JsonEscape(b: Byte): (e: seq<Byte>)
    ensures e != []
    ensures b >= 0x80 ==> e == [b]
    ensures b < 0x80 ==> forall k :: 0 <= k < |e| ==> e[k] < 0x80
  {
    match b
    case 34 => [92, 34]
    case 92 => [92, 92]
    case 8 => [92, 98]
    case 12 => [92, 102]
    case 10 => [92, 110]
    case 13 => [92, 114]
    case 9 => [92, 116]
    case _ =>
      if b < 0x20 then [92, 117, 48, 48, HexDigit(b as int / 16), HexDigit(b as int % 16)] else [b]
  }

  /** The inside of the JSON string that serialises `key` (section 7 of RFC 8259). */
  function JsonInner(key: seq<Byte>, i: nat): (inner: seq<Byte>)
    requires i <= |key|
    ensures |inner| >= |key| - i
    decreases |key| - i
  {
    if i == |key| then [] else JsonEscape(key[i]) + JsonInner(key, i + 1)
  }

  function ReplaceKey(s: seq<Byte>, key: seq<Byte>): seq<Byte> {
    if key == [] then s
    else
      var once := Replace(s, key, KEY_PLACEHOLDER);
      if JsonInner(key, 0) == key then once
      else Replace(once, JsonInner(key, 0), KEY_PLACEHOLDER)
  }

  function SanitizeUpstreamDiagnostic(input: seq<Byte>, key: seq<Byte>): seq<Byte> {
    RedactFrom(ReplaceKey(NormalizeDiagnosticControls(input), key), 0)
  }

  // ---------------------------------------------------------------- no key survives

  predicate HasNoBracket(key: seq<Byte>) {
    forall i :: 0 <= i < |key| ==> key[i] != 91 && key[i] != 93
  }

  predicate IsPlaceholder(p: seq<Byte>) {
    |p| >= 2 && p[0] == 91 && p[|p| - 1] == 93
  }

  lemma OccurrenceBytes(s: seq<Byte>, key: seq<Byte>, i: nat)
    requires OccursAt(s, key, i)
    ensures forall k :: 0 <= k < |key| ==> s[i + k] == key[k]
  {
    forall k | 0 <= k < |key| ensures s[i + k] == key[k] {
      assert s[i..i + |key|][k] == s[i + k];
    }
  }

  /** The key and the placeholder cannot overlap: neither lies inside the other, and
      neither ends the way the other begins. */
  predicate Apart(p: seq<Byte>, key: seq<Byte>) {
    && KeyFree(p, key) && KeyFree(key, p)
    && (forall n :: 0 < n <= |key| && n <= |p| ==> key[|key| - n..] != p[..n])
    && (forall n :: 0 < n <= |key| && n <= |p| ==> key[..n] != p[|p| - n..])
  }

  /** Without brackets, a key that is not part of a placeholder is apart from it. */
  lemma BracketFreeApart(p: seq<Byte>, key: seq<Byte>)
    requires HasNoBracket(key) && IsPlaceholder(p) && KeyFree(p, key)
    ensures Apart(p, key)
  {
    forall i | 0 <= i <= |key| ensures !OccursAt(key, p, i) {
      assert i + |p| <= |key| ==> key[i..i + |p|][0] == key[i];
    }
    forall n | 0 < n <= |key| && n <= |p| ensures key[|key| - n..] != p[..n] && key[..n] != p[|p| - n..] {
      assert key[|key| - n..][0] == key[|key| - n] && p[..n][0] == 91;
      assert key[..n][n - 1] == key[n - 1] && p[|p| - n..][n - 1] == 93;
    }
  }

  /** An occurrence cannot reach over an edge of the placeholder, so it lies in one of
      the three parts. */
  lemma JoinKeyFree(left: seq<Byte>, p: seq<Byte>, right: seq<Byte>, key: seq<Byte>)
    requires key != [] && Apart(p, key)
    requires KeyFree(left, key) && KeyFree(right, key)
    ensures KeyFree(left + p + right, key)
  {
    var s := left + p + right;
    forall i | 0 <= i <= |s| ensures !OccursAt(s, key, i) {
      if OccursAt(s, key, i) {
        OccurrenceInPart(left, p, right, key, i);
      }
    }
  }

  lemma OccursInTail(left: seq<Byte>, right: seq<Byte>, key: seq<Byte>, i: nat)
    requires |left| <= i && OccursAt(left + right, key, i)
    ensures OccursAt(right, key, i - |left|)
  {
    assert (left + right)[i..i + |key|] == right[i - |left|..i - |left| + |key|];
  }

  lemma OccurrenceInPart(left: seq<Byte>, p: seq<Byte>, right: seq<Byte>, key: seq<Byte>, i: nat)
    requires key != [] && Apart(p, key)
    requires OccursAt(left + p + right, key, i)
    ensures !KeyFree(left, key) || !KeyFree(right, key)
  {
    var s, open, close := left + p + right, |left|, |left| + |p|;
    assert p == s[open..close];
    if i + |key| <= open {
      assert left[i..i + |key|] == s[i..i + |key|];
      assert OccursAt(left, key, i);
    } else if i >= close {
      OccursInTail(left + p, right, key, i);
    } else {
      OccurrenceMeets(s, p, key, i, open);
    }
  }

  /** Whatever overlaps the placeholder in a text is not the key. */
  lemma OccurrenceMeets(s: seq<Byte>, p: seq<Byte>, key: seq<Byte>, i: nat, open: nat)
    requires key != [] && OccursAt(s, key, i) && OccursAt(s, p, open) && i < open + |p| && open < i + |key|
    ensures !Apart(p, key)
  {
    var end, close := i + |key|, open + |p|;
    if open <= i && end <= close {
      SliceOfSlice(s, open, close, i - open, end - open);
      assert OccursAt(p, key, i - open);
    } else if i <= open && close <= end {
      SliceOfSlice(s, i, end, open - i, close - i);
      assert OccursAt(key, p, open - i);
    } else if i < open {
      var n := end - open;
      assert key[|key| - n..] == s[open..end] == p[..n];
    } else {
      var n := close - i;
      assert key[..n] == s[i..close] == p[|p| - n..];
    }
  }

  /** `piece` stands for the text copied since the last replacement. */
  lemma {:induction false} RedactKeyFree(s: seq<Byte>, a: nat, i: nat, key: seq<Byte>)
    requires a <= i <= |s| && key != [] && Apart(BEARER_PLACEHOLDER, key) && KeyFree(s, key)
    ensures KeyFree(s[a..i] + RedactFrom(s, i), key)
    decreases |s| - i
  {
    if i == |s| {
      NoOccurrenceBetween(s, a, i, key);
      assert s[a..i] + [] == s[a..i];
    } else if TokenAt(s, i) {
      var start := SkipAsciiWhitespace(s, i + 6);
      var end := TokenEnd(s, start);
      RedactKeyFree(s, end, end, key);
      assert s[end..end] + RedactFrom(s, end) == RedactFrom(s, end);
      NoOccurrenceBetween(s, a, start, key);
      JoinKeyFree(s[a..start], BEARER_PLACEHOLDER, RedactFrom(s, end), key);
      TokenOne(s, i);
      JoinSlices(s, a, i, start, BEARER_PLACEHOLDER, RedactFrom(s, end));
    } else {
      RedactKeyFree(s, a, i + 1, key);
      CopyOne(s, i);
      Append(s, a, i, RedactFrom(s, i + 1));
    }
  }

  lemma Append(s: seq<Byte>, a: nat, i: nat, rest: seq<Byte>)
    requires a <= i < |s|
    ensures s[a..i] + ([s[i]] + rest) == s[a..i + 1] + rest
  {
  }

  /** Replacing `from` by the key placeholder leaves no key: either it is the key
      itself, or there was none before. */
  lemma {:induction false} ReplaceKeyFree(s: seq<Byte>, a: nat, i: nat, from: seq<Byte>, key: seq<Byte>)
    requires a <= i <= |s| && from != [] && key != [] && Apart(KEY_PLACEHOLDER, key)
    requires KeyFree(s, key) || (from == key && forall k :: a <= k < i ==> !OccursAt(s, key, k))
    ensures KeyFree(s[a..i] + ReplaceFrom(s, i, from, KEY_PLACEHOLDER), key)
    decreases |s| - i
  {
    if i == |s| || OccursAt(s, from, i) {
      NoOccurrenceBetween(s, a, i, key);
    }
    if i == |s| {
      assert s[a..i] + [] == s[a..i];
    } else if OccursAt(s, from, i) {
      var end := i + |from|;
      var rest := ReplaceFrom(s, end, from, KEY_PLACEHOLDER);
      ReplaceKeyFree(s, end, end, from, key);
      assert s[end..end] + rest == rest;
      JoinKeyFree(s[a..i], KEY_PLACEHOLDER, rest, key);
      assert s[a..i] + (KEY_PLACEHOLDER + rest) == s[a..i] + KEY_PLACEHOLDER + rest;
    } else {
      ReplaceKeyFree(s, a, i + 1, from, key);
      Append(s, a, i, ReplaceFrom(s, i + 1, from, KEY_PLACEHOLDER));
    }
  }

  lemma NoOccurrenceBetween(s: seq<Byte>, a: nat, i: nat, key: seq<Byte>)
    requires a <= i <= |s| && key != []
    requires KeyFree(s, key) || forall k :: a <= k < i ==> !OccursAt(s, key, k)
    ensures KeyFree(s[a..i], key)
  {
    forall k | 0 <= k <= i - a ensures !OccursAt(s[a..i], key, k) {
      if OccursAt(s[a..i], key, k) {
        SliceOfSlice(s, a, i, k, k + |key|);
        assert OccursAt(s, key, a + k);
      }
    }
  }

  /** The sanitised text never contains the key, for any body at all, when the key
      cannot overlap a placeholder. */
  lemma SanitizedIsKeyFree(input: seq<Byte>, key: seq<Byte>)
    requires key != [] && Apart(KEY_PLACEHOLDER, key) && Apart(BEARER_PLACEHOLDER, key)
    ensures KeyFree(SanitizeUpstreamDiagnostic(input, key), key)
  {
    var s := NormalizeDiagnosticControls(input);
    var once := Replace(s, key, KEY_PLACEHOLDER);
    ReplaceKeyFree(s, 0, 0, key, key);
    assert s[0..0] + once == once;
    var clean := ReplaceKey(s, key);
    if clean != once {
      ReplaceKeyFree(once, 0, 0, JsonInner(key, 0), key);
      assert once[0..0] + clean == clean;
    }
    RedactKeyFree(clean, 0, 0, key);
    assert clean[0..0] + RedactFrom(clean, 0) == RedactFrom(clean, 0);
  }

  lemma {:induction false} JsonInnerBytes(key: seq<Byte>, i: nat)
    requires i <= |key| && HasNoBracket(key)
    ensures HasNoBracket(JsonInner(key, i))
    ensures JsonInner(key, i) == key[i..] || 92 in JsonInner(key, i)
    decreases |key| - i
  {
    if i < |key| {
      JsonInnerBytes(key, i + 1);
      assert HasNoBracket(JsonEscape(key[i]));
      assert JsonEscape(key[i]) == [key[i]] || JsonEscape(key[i])[0] == 92;
      assert [key[i]] + key[i + 1..] == key[i..];
    }
  }

  /** Nor does it contain the key as a JSON string would spell it, for any key without
      brackets that JSON spells differently. */
  lemma SanitizedIsEscapedKeyFree(input: seq<Byte>, key: seq<Byte>)
    requires key != [] && HasNoBracket(key) && JsonInner(key, 0) != key
    ensures KeyFree(SanitizeUpstreamDiagnostic(input, key), JsonInner(key, 0))
  {
    var inner := JsonInner(key, 0);
    JsonInnerBytes(key, 0);
    assert key[0..] == key;
    BackslashApart(KEY_PLACEHOLDER, inner);
    BackslashApart(BEARER_PLACEHOLDER, inner);
    var once := Replace(NormalizeDiagnosticControls(input), key, KEY_PLACEHOLDER);
    ReplaceKeyFree(once, 0, 0, inner, inner);
    var clean := Replace(once, inner, KEY_PLACEHOLDER);
    assert once[0..0] + clean == clean;
    RedactKeyFree(clean, 0, 0, inner);
    assert clean[0..0] + RedactFrom(clean, 0) == RedactFrom(clean, 0);
  }

  lemma BackslashApart(p: seq<Byte>, inner: seq<Byte>)
    requires (p == KEY_PLACEHOLDER || p == BEARER_PLACEHOLDER) && HasNoBracket(inner) && 92 in inner
    ensures Apart(p, inner)
  {
    var k :| 0 <= k < |inner| && inner[k] == 92;
    forall i | 0 <= i <= |p| ensures !OccursAt(p, inner, i) {
      assert forall j :: 0 <= j < |p| ==> p[j] != 92;
      if OccursAt(p, inner, i) {
        OccursByte(p, inner, i, k);
      }
    }
    BracketFreeApart(p, inner);
  }

  lemma OccursByte(s: seq<Byte>, key: seq<Byte>, i: nat, k: nat)
    requires OccursAt(s, key, i) && k < |key|
    ensures key[k] in s
  {
    OccurrenceBytes(s, key, i);
    assert s[i + k] == key[k];
  }

  // ---------------------------------------------------------------- exactly which keys

  predicate PlaceholderByte(b: Byte) {
    65 <= b <= 90 || b == 95
  }

  lemma KeyInsidePlaceholder(p: seq<Byte>, key: seq<Byte>)
    requires p == KEY_PLACEHOLDER || p == BEARER_PLACEHOLDER
    requires HasNoBracket(key) && !KeyFree(p, key)
    ensures forall k :: 0 <= k < |key| ==> PlaceholderByte(key[k])
  {
    var i :| 0 <= i <= |p| && OccursAt(p, key, i);
    OccurrenceBytes(p, key, i);
    assert forall j :: 0 <= j < |p| ==> PlaceholderByte(p[j]) || p[j] == 91 || p[j] == 93;
    assert forall k :: 0 <= k < |key| ==> p[i + k] == key[k];
  }

  predicate IsPlain(s: seq<Byte>) {
    forall k :: 0 <= k < |s| ==> 0x20 <= s[k] < 0x7F && s[k] != 34 && s[k] != 92
  }

  lemma {:induction false} ReplaceCopies(s: seq<Byte>, i: nat, j: nat, from: seq<Byte>, to: seq<Byte>)
    requires i <= j <= |s| && from != [] && forall k :: i <= k < j ==> !OccursAt(s, from, k)
    ensures ReplaceFrom(s, i, from, to) == s[i..j] + ReplaceFrom(s, j, from, to)
    decreases j - i
  {
    if i < j {
      ReplaceCopies(s, i + 1, j, from, to);
      Prepend(s, i, j, ReplaceFrom(s, j, from, to));
    }
  }

  lemma ReplaceAbsent(s: seq<Byte>, from: seq<Byte>, to: seq<Byte>)
    requires from != [] && KeyFree(s, from)
    ensures Replace(s, from, to) == s
  {
    ReplaceCopies(s, 0, |s|, from, to);
    assert s[0..|s|] == s;
  }

  lemma AbsentByFirstByte(s: seq<Byte>, from: seq<Byte>)
    requires from != [] && forall k :: 0 <= k < |s| ==> s[k] != from[0]
    ensures KeyFree(s, from)
  {
    forall i | 0 <= i <= |s| ensures !OccursAt(s, from, i) {
      if i + |from| <= |s| {
        assert s[i..i + |from|][0] == s[i];
      }
    }
  }

  lemma {:induction false} PlainMapsToItself(s: seq<Byte>, i: nat)
    requires i <= |s| && IsPlain(s)
    ensures MapControls(s, i) == s[i..]
    decreases |s| - i
  {
    if i < |s| {
      PlainMapsToItself(s, i + 1);
      assert s[i..i + 1] + s[i + 1..] == s[i..];
    }
  }

  lemma PlainNormalizesToItself(s: seq<Byte>)
    requires IsPlain(s)
    ensures NormalizeDiagnosticControls(s) == s
  {
    AbsentByFirstByte(s, [13, 10]);
    ReplaceAbsent(s, [13, 10], [10]);
    AbsentByFirstByte(s, [13]);
    ReplaceAbsent(s, [13], [10]);
    PlainMapsToItself(s, 0);
    assert s[0..] == s;
  }

  lemma {:induction false} PlainJson(key: seq<Byte>, i: nat)
    requires i <= |key| && IsPlain(key)
    ensures JsonInner(key, i) == key[i..]
    decreases |key| - i
  {
    if i < |key| {
      PlainJson(key, i + 1);
      assert [key[i]] + key[i + 1..] == key[i..];
    }
  }

  lemma ReplaceSelf(key: seq<Byte>)
    requires key != []
    ensures Replace(key, key, KEY_PLACEHOLDER) == KEY_PLACEHOLDER
  {
    assert key[0..|key|] == key;
    assert ReplaceFrom(key, |key|, key, KEY_PLACEHOLDER) == [];
  }

  lemma KeyPlaceholderKept()
    ensures RedactFrom(KEY_PLACEHOLDER, 0) == KEY_PLACEHOLDER
  {
    var s := KEY_PLACEHOLDER;
    assert forall k :: 0 <= k < |s| ==> Lower(s[k]) != BEARER[0];
    forall k | 0 <= k < |s| ensures !WordAt(s, k) {
      assert k + 6 <= |s| ==> Lower(s[k + 0]) != BEARER[0];
    }
    CopyRest(s, 0);
  }

  /** The key itself, echoed back. */
  lemma EchoShowsPlaceholder(key: seq<Byte>)
    requires key != [] && IsPlain(key)
    ensures ValidUtf8(key) && SanitizeUpstreamDiagnostic(key, key) == KEY_PLACEHOLDER
  {
    AsciiIsValid(key, 0);
    PlainNormalizesToItself(key);
    PlainJson(key, 0);
    ReplaceSelf(key);
    KeyPlaceholderKept();
  }

  // "bearer x"
  const INTRODUCTION: seq<Byte> := [98, 101, 97, 114, 101, 114, 32, 120]

  lemma IntroductionRedacted(s: seq<Byte>, p: seq<Byte>)
    requires s == INTRODUCTION && p == BEARER_PLACEHOLDER
    ensures RedactFrom(s, 0) == s[..7] + p
  {
    assert SkipAsciiWhitespace(s, 7) == 7;
    assert SkipAsciiWhitespace(s, 6) == 7;
    assert TokenEnd(s, 8) == 8;
    assert CodePoint(s, 7) == 120 && CharWidth(s, 7) == 1;
    assert TokenEnd(s, 7) == 8;
    assert WordAt(s, 0);
    TokenOne(s, 0);
    assert RedactFrom(s, 8) == [];
    assert s[0..7] == s[..7];
  }

  lemma UnrelatedKey(s: seq<Byte>, key: seq<Byte>)
    requires IsPlain(s) && key != [] && IsPlain(key)
    requires forall k :: 0 <= k < |s| ==> s[k] != key[0]
    ensures SanitizeUpstreamDiagnostic(s, key) == RedactFrom(s, 0)
  {
    PlainNormalizesToItself(s);
    PlainJson(key, 0);
    AbsentByFirstByte(s, key);
    ReplaceAbsent(s, key, KEY_PLACEHOLDER);
    assert s[0..] == s;
  }

  lemma OccursInSuffix(left: seq<Byte>, right: seq<Byte>, key: seq<Byte>)
    requires !KeyFree(right, key)
    ensures !KeyFree(left + right, key)
  {
    var i :| 0 <= i <= |right| && OccursAt(right, key, i);
    assert (left + right)[|left| + i..|left| + i + |key|] == right[i..i + |key|];
    assert OccursAt(left + right, key, |left| + i);
  }

  predicate Shows(input: seq<Byte>, key: seq<Byte>) {
    ValidUtf8(input) && !KeyFree(SanitizeUpstreamDiagnostic(input, key), key)
  }

  lemma EchoShows(key: seq<Byte>)
    requires key != [] && HasNoBracket(key) && !KeyFree(KEY_PLACEHOLDER, key)
    ensures Shows(key, key)
  {
    KeyInsidePlaceholder(KEY_PLACEHOLDER, key);
    EchoShowsPlaceholder(key);
  }

  lemma IntroductionShows(s: seq<Byte>, p: seq<Byte>, key: seq<Byte>)
    requires s == INTRODUCTION && p == BEARER_PLACEHOLDER
    requires key != [] && HasNoBracket(key) && !KeyFree(p, key)
    ensures Shows(s, key)
  {
    KeyInsidePlaceholder(p, key);
    AsciiIsValid(s, 0);
    UnrelatedKey(s, key);
    IntroductionRedacted(s, p);
    OccursInSuffix(s[..7], p, key);
  }

  /** Among keys without square brackets, exactly those that are not part of a
      placeholder are never shown. */
  lemma KeysNeverShown(key: seq<Byte>)
    requires key != [] && HasNoBracket(key)
    ensures (forall input :: !Shows(input, key))
       <==> KeyFree(KEY_PLACEHOLDER, key) && KeyFree(BEARER_PLACEHOLDER, key)
  {
    if !KeyFree(KEY_PLACEHOLDER, key) {
      EchoShows(key);
    } else if !KeyFree(BEARER_PLACEHOLDER, key) {
      IntroductionShows(INTRODUCTION, BEARER_PLACEHOLDER, key);
    } else {
      BracketFreeApart(KEY_PLACEHOLDER, key);
      BracketFreeApart(BEARER_PLACEHOLDER, key);
      forall input ensures !Shows(input, key) {
        SanitizedIsKeyFree(input, key);
      }
    }
  }

  /** Keys with brackets can show up without being part of a placeholder: any visible
      character and an opening bracket, after a text that repeats the character. */
  lemma BracketKeyShows(x: Byte)
    requires 0x21 <= x < 0x7F && x != 34 && x != 92 && x != 91
    ensures KeyFree(KEY_PLACEHOLDER, [x, 91]) && KeyFree(BEARER_PLACEHOLDER, [x, 91])
    ensures Shows([x, x, 91], [x, 91])
  {
    var key, s := [x, 91], [x, x, 91];
    var once := [x] + KEY_PLACEHOLDER;
    OpeningOnlyFirst(KEY_PLACEHOLDER, x);
    OpeningOnlyFirst(BEARER_PLACEHOLDER, x);
    AsciiIsValid(s, 0);
    PlainNormalizesToItself(s);
    PlainJson(key, 0);
    assert key[0..] == key;
    assert s[0..2] == [x, x] && s[1..3] == key;
    assert ReplaceFrom(s, 3, key, KEY_PLACEHOLDER) == [];
    assert ReplaceFrom(s, 1, key, KEY_PLACEHOLDER) == KEY_PLACEHOLDER;
    assert ReplaceFrom(s, 0, key, KEY_PLACEHOLDER) == once;
    NoWordIn(once, x);
    CopyRest(once, 0);
    assert once[0..|once|] == once;
    assert once[0..2] == key;
    assert OccursAt(SanitizeUpstreamDiagnostic(s, key), key, 0);
  }

  lemma NoWordIn(once: seq<Byte>, x: Byte)
    requires once == [x] + KEY_PLACEHOLDER
    ensures forall k :: 0 <= k < |once| ==> !WordAt(once, k)
  {
    assert once[1] == 91 && Lower(91) != BEARER[1];
    assert forall k :: 1 <= k < |once| ==> once[k] == KEY_PLACEHOLDER[k - 1] && Lower(once[k]) != BEARER[0];
    forall k | 0 <= k < |once| ensures !WordAt(once, k) {
      assert k + 6 <= |once| ==> k == 0 || Lower(once[k + 0]) != BEARER[0];
      assert k == 0 ==> Lower(once[k + 1]) != BEARER[1];
    }
  }

  lemma OpeningOnlyFirst(p: seq<Byte>, x: Byte)
    requires p == KEY_PLACEHOLDER || p == BEARER_PLACEHOLDER
    ensures KeyFree(p, [x, 91])
  {
    assert forall j :: 0 < j < |p| ==> p[j] != 91;
    forall i | 0 <= i <= |p| ensures !OccursAt(p, [x, 91], i) {
      assert i + 2 <= |p| ==> p[i..i + 2][1] == p[i + 1];
    }
  }

  // ---------------------------------------------------------------- cutting to the limit

  /** `truncate_utf8_bytes`: the longest prefix within the limit that ends
      between two characters. At most three bytes of the limit stay unused. */
  method TruncateUtf8Bytes(input: seq<Byte>, max: nat) returns (bounded: seq<Byte>, truncated: bool)
    requires ValidUtf8(input)
    ensures bounded <= input && |bounded| <= max
    ensures truncated <==> |input| > max
    ensures !truncated ==> bounded == input
    ensures IsCharBoundary(input, |bounded|)
    ensures truncated ==> forall j :: |bounded| < j <= max ==> !IsCharBoundary(input, j)
    ensures truncated ==> max - |bounded| <= 3
  {
    if |input| <= max {
      return input, false;
    }
    var end := max;
    while !IsCharBoundary(input, end)
      invariant 0 <= end <= max
      invariant forall j :: end < j <= max ==> !IsCharBoundary(input, j)
      decreases end
    {
      end := end - 1;
    }
    BoundaryWithinFour(input, 0, max);
    return input[..end], true;
  }

  /** Characters are at most four bytes long. */
  lemma {:induction false} BoundaryWithinFour(s: seq<Byte>, from: nat, at: nat)
    requires from <= at < |s| && ValidUtf8From(s, from)
    ensures exists j :: at - 3 <= j <= at && from <= j && IsCharBoundary(s, j)
    decreases |s| - from
  {
    var next := from + WellFormedWidth(s, from);
    CharStartIsBoundary(s, from);
    if at < next {
      assert at - 3 <= from <= at && IsCharBoundary(s, from);
    } else {
      BoundaryWithinFour(s, next, at);
    }
  }

  // ---------------------------------------------------------------- the text stays text

  lemma {:induction false} RedactKeepsUtf8(s: seq<Byte>, i: nat)
    requires i <= |s| && ValidUtf8From(s, i)
    ensures ValidUtf8(RedactFrom(s, i))
    decreases |s| - i
  {
    if i < |s| && TokenAt(s, i) {
      var start := SkipAsciiWhitespace(s, i + 6);
      var end := TokenEnd(s, start);
      WordIsAscii(s, i, i);
      TokenEndStartsChar(s, start);
      RedactKeepsUtf8(s, end);
      TokenOne(s, i);
      SpliceKeepsUtf8(s, i, start, BEARER_PLACEHOLDER, RedactFrom(s, end));
    } else if i < |s| {
      var next := i + WellFormedWidth(s, i);
      forall k | i <= k < next ensures !TokenAt(s, k) {
        if i < k && WordAt(s, k) { WordStartsWithB(s, k); }
      }
      CopyUpTo(s, i, next);
      RedactKeepsUtf8(s, next);
      ValidPrepend(s, i, next, RedactFrom(s, next));
    }
  }

  lemma SpliceKeepsUtf8(s: seq<Byte>, i: nat, start: nat, p: seq<Byte>, rest: seq<Byte>)
    requires i <= start <= |s| && ValidUtf8From(s, i) && ValidUtf8From(s, start)
    requires (forall k :: 0 <= k < |p| ==> p[k] < 0x80) && ValidUtf8(rest)
    ensures ValidUtf8(s[i..start] + p + rest)
  {
    PlaceholderThenText(p, rest);
    ValidPrepend(s, i, start, p + rest);
    Regroup(s[i..start], p, rest);
  }

  lemma PlaceholderThenText(p: seq<Byte>, rest: seq<Byte>)
    requires (forall k :: 0 <= k < |p| ==> p[k] < 0x80) && ValidUtf8(rest)
    ensures ValidUtf8(p + rest)
  {
    AsciiIsValid(p, 0);
    ValidPrepend(p, 0, |p|, rest);
    assert p[0..|p|] == p;
  }

  lemma OccurrenceStartsChar(s: seq<Byte>, from: seq<Byte>, k: nat)
    requires from != [] && ValidUtf8(from) && OccursAt(s, from, k)
    ensures !IsContinuation(s[k])
  {
    assert s[k..k + |from|][0] == s[k];
  }

  /** A pattern that is itself text is only ever found between characters. */
  lemma {:induction false} ReplaceKeepsUtf8(s: seq<Byte>, i: nat, from: seq<Byte>, to: seq<Byte>)
    requires i <= |s| && ValidUtf8From(s, i) && from != [] && ValidUtf8(from)
    requires forall k :: 0 <= k < |to| ==> to[k] < 0x80
    ensures ValidUtf8(ReplaceFrom(s, i, from, to))
    decreases |s| - i
  {
    if i < |s| && OccursAt(s, from, i) {
      ValidBehindCopy(s, i, from, 0);
      ReplaceKeepsUtf8(s, i + |from|, from, to);
      PlaceholderThenText(to, ReplaceFrom(s, i + |from|, from, to));
    } else if i < |s| {
      var next := i + WellFormedWidth(s, i);
      forall k | 0 <= k < |s| && OccursAt(s, from, k) ensures !IsContinuation(s[k]) {
        OccurrenceStartsChar(s, from, k);
      }
      ReplaceCopies(s, i, next, from, to);
      ReplaceKeepsUtf8(s, next, from, to);
      ValidPrepend(s, i, next, ReplaceFrom(s, next, from, to));
    }
  }

  lemma {:induction false} ControlsKeepUtf8(s: seq<Byte>, i: nat)
    requires i <= |s| && ValidUtf8From(s, i)
    ensures ValidUtf8(MapControls(s, i))
    decreases |s| - i
  {
    if i < |s| {
      var next := i + CharWidth(s, i);
      var rest := MapControls(s, next);
      ControlsKeepUtf8(s, next);
      ValidPrepend(s, i, next, rest);
      var r := REPLACEMENT_CHARACTER;
      assert WellFormedWidth(r, 0) == 3;
      ValidPrepend(r, 0, 3, rest);
      assert r[0..3] == r;
    }
  }

  lemma {:induction false} JsonKeepsUtf8(key: seq<Byte>, i: nat)
    requires i <= |key| && ValidUtf8From(key, i)
    ensures ValidUtf8(JsonInner(key, i))
    decreases |key| - i
  {
    if i < |key| {
      var next := i + WellFormedWidth(key, i);
      JsonKeepsUtf8(key, next);
      if next == i + 1 {
        PlaceholderThenText(JsonEscape(key[i]), JsonInner(key, next));
      } else {
        JsonCopies(key, i, next);
        ValidPrepend(key, i, next, JsonInner(key, next));
      }
    }
  }

  lemma {:induction false} JsonCopies(key: seq<Byte>, i: nat, j: nat)
    requires i <= j <= |key| && forall k :: i <= k < j ==> key[k] >= 0x80
    ensures JsonInner(key, i) == key[i..j] + JsonInner(key, j)
    decreases j - i
  {
    if i < j {
      JsonCopies(key, i + 1, j);
      Prepend(key, i, j, JsonInner(key, j));
    }
  }

  /** No step of the sanitiser cuts a character in two. */
  lemma SanitizeKeepsUtf8(input: seq<Byte>, key: seq<Byte>)
    requires ValidUtf8(input) && ValidUtf8(key)
    ensures ValidUtf8(SanitizeUpstreamDiagnostic(input, key))
  {
    AsciiIsValid([13, 10], 0);
    AsciiIsValid([13], 0);
    ReplaceKeepsUtf8(input, 0, [13, 10], [10]);
    ReplaceKeepsUtf8(Replace(input, [13, 10], [10]), 0, [13], [10]);
    ControlsKeepUtf8(Replace(Replace(input, [13, 10], [10]), [13], [10]), 0);
    ReplaceKeyKeepsUtf8(NormalizeDiagnosticControls(input), key);
    RedactKeepsUtf8(ReplaceKey(NormalizeDiagnosticControls(input), key), 0);
  }

  lemma ReplaceKeyKeepsUtf8(s: seq<Byte>, key: seq<Byte>)
    requires ValidUtf8(s) && ValidUtf8(key)
    ensures ValidUtf8(ReplaceKey(s, key))
  {
    if key != [] {
      var once := Replace(s, key, KEY_PLACEHOLDER);
      ReplaceKeepsUtf8(s, 0, key, KEY_PLACEHOLDER);
      JsonKeepsUtf8(key, 0);
      ReplaceKeepsUtf8(once, 0, JsonInner(key, 0), KEY_PLACEHOLDER);
    }
  }
}
