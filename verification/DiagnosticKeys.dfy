/** Exactly which keys a sanitised diagnostic can show, brackets or not. */
module DiagnosticKeys {
  import opened Bytes
  import opened Redaction
  import opened Diagnostics

  /** Visible ASCII, which is what a header takes, without what JSON would escape. */
  predicate IsVisible(s: seq<Byte>) {
    forall k :: 0 <= k < |s| ==> 0x21 <= s[k] < 0x7F && s[k] != 34 && s[k] != 92
  }

  /** The last `n` bytes of the key are the first of the placeholder. */
  predicate EndsInto(p: seq<Byte>, key: seq<Byte>, n: nat) {
    0 < n < |key| && n <= |p| && key[|key| - n..] == p[..n]
  }

  /** The first `n` bytes of the key are the last of the placeholder. */
  predicate StartsFrom(p: seq<Byte>, key: seq<Byte>, n: nat) {
    0 < n < |key| && n <= |p| && key[..n] == p[|p| - n..]
  }

  /** With `a` in front of it, the key is found before its own place. */
  predicate FoundEarlier(a: seq<Byte>, key: seq<Byte>) {
    exists i :: 0 <= i < |a| && OccursAt(a + key, key, i)
  }

  /** What stands behind or before a placeholder cannot complete it to the key. Behind
      the placeholder of a token stands whatever ended the token. */
  predicate NotCompleted(key: seq<Byte>) {
    && (forall n :: 0 < n < |key| ==> !StartsFrom(KEY_PLACEHOLDER, key, n))
    && (forall n :: 0 < n < |key| && EndsInto(KEY_PLACEHOLDER, key, n) ==> FoundEarlier(key[..|key| - n], key))
    && (forall n :: 0 < n < |key| && StartsFrom(BEARER_PLACEHOLDER, key, n) ==> !EndsToken(key[n] as int))
  }

  /** The key is no part of a placeholder and none is part of it that could stand for
      the key, and no placeholder is completed to it. */
  predicate Hidden(key: seq<Byte>) {
    && KeyFree(KEY_PLACEHOLDER, key) && KeyFree(BEARER_PLACEHOLDER, key) && KeyFree(key, KEY_PLACEHOLDER)
    && NotCompleted(key)
  }

  // ---------------------------------------------------------------- hidden keys stay hidden

  /** How the key can overlap a placeholder in a text. */
  lemma Overlap(s: seq<Byte>, p: seq<Byte>, key: seq<Byte>, i: nat, open: nat)
    requires key != [] && OccursAt(s, key, i) && OccursAt(s, p, open) && i < open + |p| && open < i + |key|
    ensures || !KeyFree(p, key)
            || (i <= open && open + |p| <= i + |key| && OccursAt(key, p, open - i))
            || (i < open && EndsInto(p, key, i + |key| - open))
            || (open < i && StartsFrom(p, key, open + |p| - i))
  {
    var end, close := i + |key|, open + |p|;
    if open <= i && end <= close {
      SliceOfSlice(s, open, close, i - open, end - open);
      assert OccursAt(p, key, i - open);
    } else if i <= open && close <= end {
      SliceOfSlice(s, i, end, open - i, close - i);
    } else if i < open {
      SliceOfSlice(s, i, end, open - i, end - i);
      SliceOfSlice(s, open, close, 0, end - open);
    } else {
      SliceOfSlice(s, i, end, 0, close - i);
      SliceOfSlice(s, open, close, i - open, close - open);
    }
  }

  /** An occurrence in the joined text lies in a part or overlaps the placeholder. */
  lemma InPartOrOverlap(left: seq<Byte>, p: seq<Byte>, right: seq<Byte>, key: seq<Byte>, i: nat)
    requires key != [] && p != [] && KeyFree(left, key) && KeyFree(right, key)
    requires OccursAt(left + p + right, key, i)
    ensures i < |left| + |p| && |left| < i + |key| && OccursAt(left + p + right, p, |left|)
  {
    var s := left + p + right;
    assert s[|left|..|left| + |p|] == p;
    if i + |key| <= |left| {
      assert left[i..i + |key|] == s[i..i + |key|];
      assert OccursAt(left, key, i);
    } else if i >= |left| + |p| {
      OccursInTail(left + p, right, key, i);
    }
  }

  lemma FromSlice(s: seq<Byte>, a: nat, b: nat, key: seq<Byte>, j: nat)
    requires a <= b <= |s| && OccursAt(s[a..b], key, j)
    ensures OccursAt(s, key, a + j)
  {
    SliceOfSlice(s, a, b, j, j + |key|);
  }

  /** If the text in front of an occurrence hides no other, its end is no `a` with
      which the key would be found earlier. */
  lemma NotFoundEarlier(s: seq<Byte>, from: nat, i: nat, key: seq<Byte>, m: nat)
    requires key != [] && from + m <= i && OccursAt(s, key, i) && forall k :: from <= k < i ==> !OccursAt(s, key, k)
    ensures !FoundEarlier(s[i - m..i], key)
  {
    var a := s[i - m..i];
    forall j | 0 <= j < m ensures !OccursAt(a + key, key, j) {
      assert a + key == s[i - m..i + |key|];
      if OccursAt(a + key, key, j) {
        FromSlice(s, i - m, i + |key|, key, j);
      }
    }
  }

  lemma {:induction false} ReplaceHides(s: seq<Byte>, from: nat, i: nat, key: seq<Byte>)
    requires from <= i <= |s| && key != [] && Hidden(key)
    requires forall k :: from <= k < i ==> !OccursAt(s, key, k)
    ensures KeyFree(s[from..i] + ReplaceFrom(s, i, key, KEY_PLACEHOLDER), key)
    decreases |s| - i
  {
    if i == |s| {
      NoOccurrenceBetween(s, from, i, key);
      assert s[from..i] + [] == s[from..i];
    } else if OccursAt(s, key, i) {
      var end := i + |key|;
      var rest := ReplaceFrom(s, end, key, KEY_PLACEHOLDER);
      NoOccurrenceBetween(s, from, i, key);
      ReplaceHides(s, end, end, key);
      assert s[end..end] + rest == rest;
      JoinHides(s, from, i, key, rest);
      assert s[from..i] + (KEY_PLACEHOLDER + rest) == s[from..i] + KEY_PLACEHOLDER + rest;
    } else {
      ReplaceHides(s, from, i + 1, key);
      Append(s, from, i, ReplaceFrom(s, i + 1, key, KEY_PLACEHOLDER));
    }
  }

  lemma JoinHides(s: seq<Byte>, from: nat, i: nat, key: seq<Byte>, rest: seq<Byte>)
    requires key != [] && Hidden(key) && from <= i <= |s| && OccursAt(s, key, i)
    requires forall k :: from <= k < i ==> !OccursAt(s, key, k)
    requires KeyFree(s[from..i], key) && KeyFree(rest, key)
    ensures KeyFree(s[from..i] + KEY_PLACEHOLDER + rest, key)
  {
    var left, p := s[from..i], KEY_PLACEHOLDER;
    var t := left + p + rest;
    forall j | 0 <= j <= |t| ensures !OccursAt(t, key, j) {
      if OccursAt(t, key, j) {
        InPartOrOverlap(left, p, rest, key, j);
        Overlap(t, p, key, j, |left|);
        if j < |left| && EndsInto(p, key, j + |key| - |left|) {
          var m := |left| - j;
          assert key[..m] == t[j..|left|] == s[i - m..i];
          NotFoundEarlier(s, from, i, key, m);
        }
      }
    }
  }

  lemma {:induction false} TokenEnds(s: seq<Byte>, i: nat)
    requires i <= |s|
    ensures TokenEnd(s, i) == |s| || EndsToken(CodePoint(s, TokenEnd(s, i)))
    decreases |s| - i
  {
    if i < |s| && !EndsToken(CodePoint(s, i)) {
      TokenEnds(s, i + CharWidth(s, i));
    }
  }

  lemma FirstOfRest(s: seq<Byte>, i: nat)
    requires i < |s|
    ensures RedactFrom(s, i) != [] && RedactFrom(s, i)[0] == s[i]
  {
  }

  lemma NoWhitespaceInside(t: seq<Byte>, key: seq<Byte>, j: nat, at: nat)
    requires IsVisible(key) && OccursAt(t, key, j) && j <= at < j + |key|
    ensures !IsAsciiWhitespace(t[at])
  {
    OccurrenceBytes(t, key, j);
    assert t[j + (at - j)] == key[at - j];
  }

  lemma BearerJoinHides(s: seq<Byte>, from: nat, start: nat, end: nat, key: seq<Byte>)
    requires key != [] && Hidden(key) && IsVisible(key)
    requires from < start <= end <= |s| && IsAsciiWhitespace(s[start - 1])
    requires end == |s| || EndsToken(CodePoint(s, end))
    requires KeyFree(s[from..start], key) && KeyFree(RedactFrom(s, end), key)
    ensures KeyFree(s[from..start] + BEARER_PLACEHOLDER + RedactFrom(s, end), key)
  {
    var left, p, rest := s[from..start], BEARER_PLACEHOLDER, RedactFrom(s, end);
    var t, open := left + p + rest, start - from;
    forall j | 0 <= j <= |t| ensures !OccursAt(t, key, j) {
      if OccursAt(t, key, j) {
        InPartOrOverlap(left, p, rest, key, j);
        assert t[open - 1] == s[start - 1];
        if j < open {
          NoWhitespaceInside(t, key, j, open - 1);
        } else {
          OccurrenceBytes(t, key, j);
          Overlap(t, p, key, j, open);
          var n := open + |p| - j;
          assert n < |key| && key[..n] == t[j..open + |p|] == p[|p| - n..];
          assert StartsFrom(p, key, n) && key[n] == t[j + n] == rest[0];
          FirstOfRest(s, end);
        }
      }
    }
  }

  lemma {:induction false} RedactHides(s: seq<Byte>, from: nat, i: nat, key: seq<Byte>)
    requires from <= i <= |s| && key != [] && Hidden(key) && IsVisible(key) && KeyFree(s, key)
    ensures KeyFree(s[from..i] + RedactFrom(s, i), key)
    decreases |s| - i
  {
    if i == |s| {
      NoOccurrenceBetween(s, from, i, key);
      assert s[from..i] + [] == s[from..i];
    } else if TokenAt(s, i) {
      var start := SkipAsciiWhitespace(s, i + 6);
      var end := TokenEnd(s, start);
      RedactHides(s, end, end, key);
      assert s[end..end] + RedactFrom(s, end) == RedactFrom(s, end);
      NoOccurrenceBetween(s, from, start, key);
      TokenEnds(s, start);
      BearerJoinHides(s, from, start, end, key);
      TokenOne(s, i);
      JoinSlices(s, from, i, start, BEARER_PLACEHOLDER, RedactFrom(s, end));
    } else {
      RedactHides(s, from, i + 1, key);
      CopyOne(s, i);
      Append(s, from, i, RedactFrom(s, i + 1));
    }
  }

  lemma HiddenKeyNotShown(input: seq<Byte>, key: seq<Byte>)
    requires key != [] && Hidden(key) && IsVisible(key)
    ensures !Shows(input, key)
  {
    var s := NormalizeDiagnosticControls(input);
    var once := Replace(s, key, KEY_PLACEHOLDER);
    ReplaceHides(s, 0, 0, key);
    assert s[0..0] + once == once;
    PlainJson(key, 0);
    assert key[0..] == key;
    RedactHides(once, 0, 0, key);
    assert once[0..0] + RedactFrom(once, 0) == RedactFrom(once, 0);
  }

  // ---------------------------------------------------------------- all others can be shown

  lemma {:induction false} NoWhitespaceNoToken(s: seq<Byte>)
    requires IsVisible(s)
    ensures RedactFrom(s, 0) == s
  {
    CopyUpTo(s, 0, |s|);
    assert s[0..|s|] == s;
  }

  lemma ReplacedBetween(a: seq<Byte>, key: seq<Byte>, b: seq<Byte>, p: seq<Byte>)
    requires key != [] && |b| < |key| && forall j :: 0 <= j < |a| ==> !OccursAt(a + key + b, key, j)
    ensures Replace(a + key + b, key, p) == a + p + b
  {
    var s, at := a + key + b, |a| + |key|;
    assert s[|a|..at] == key;
    ReplaceCopies(s, 0, |a|, key, p);
    ReplaceCopies(s, at, |s|, key, p);
    assert s[0..|a|] == a && s[at..|s|] == b;
    assert ReplaceFrom(s, |s|, key, p) == [] && b + [] == b;
    assert ReplaceFrom(s, |a|, key, p) == p + b;
    assert a + (p + b) == a + p + b;
  }

  /** The key between two texts, found there and nowhere before. */
  lemma BetweenTexts(a: seq<Byte>, key: seq<Byte>, b: seq<Byte>)
    requires key != [] && IsVisible(a) && IsVisible(key) && IsVisible(b) && |b| < |key|
    requires forall j :: 0 <= j < |a| ==> !OccursAt(a + key + b, key, j)
    ensures ValidUtf8(a + key + b)
    ensures SanitizeUpstreamDiagnostic(a + key + b, key) == a + KEY_PLACEHOLDER + b
  {
    assert IsVisible(KEY_PLACEHOLDER);
    BetweenTextsBy(a, key, b, KEY_PLACEHOLDER);
  }

  lemma BetweenTextsBy(a: seq<Byte>, key: seq<Byte>, b: seq<Byte>, p: seq<Byte>)
    requires key != [] && IsVisible(a) && IsVisible(key) && IsVisible(b) && |b| < |key|
    requires forall j :: 0 <= j < |a| ==> !OccursAt(a + key + b, key, j)
    requires p == KEY_PLACEHOLDER && IsVisible(p)
    ensures ValidUtf8(a + key + b)
    ensures SanitizeUpstreamDiagnostic(a + key + b, key) == a + p + b
  {
    hide KEY_PLACEHOLDER;
    VisibleJoined(a, key, b);
    VisibleJoined(a, p, b);
    hide IsVisible;
    VisiblePassesThrough(a + key + b, key);
    ReplacedBetween(a, key, b, p);
    NoWhitespaceNoToken(a + p + b);
  }

  lemma VisibleJoined(a: seq<Byte>, m: seq<Byte>, b: seq<Byte>)
    requires IsVisible(a) && IsVisible(m) && IsVisible(b)
    ensures IsVisible(a + m + b) && IsPlain(a + m + b)
  {
  }

  /** Of the steps before the tokens, only the replacement of the key does anything. */
  lemma VisiblePassesThrough(s: seq<Byte>, key: seq<Byte>)
    requires key != [] && IsVisible(key) && IsPlain(s)
    ensures ValidUtf8(s)
    ensures SanitizeUpstreamDiagnostic(s, key) == RedactFrom(Replace(s, key, KEY_PLACEHOLDER), 0)
  {
    AsciiIsValid(s, 0);
    PlainNormalizesToItself(s);
    PlainJson(key, 0);
    assert key[0..] == key;
  }

  lemma ShownBetween(a: seq<Byte>, key: seq<Byte>, b: seq<Byte>, i: nat)
    requires key != [] && IsVisible(a) && IsVisible(key) && IsVisible(b) && |b| < |key|
    requires forall j :: 0 <= j < |a| ==> !OccursAt(a + key + b, key, j)
    requires OccursAt(a + KEY_PLACEHOLDER + b, key, i)
    ensures Shows(a + key + b, key)
  {
    BetweenTexts(a, key, b);
  }

  lemma PartOfKeyPlaceholderShown(key: seq<Byte>)
    requires key != [] && IsVisible(key) && !KeyFree(KEY_PLACEHOLDER, key)
    ensures Shows([] + key + [], key)
  {
    var i :| 0 <= i <= |KEY_PLACEHOLDER| && OccursAt(KEY_PLACEHOLDER, key, i);
    assert [] + KEY_PLACEHOLDER + [] == KEY_PLACEHOLDER;
    ShownBetween([], key, [], i);
  }

  lemma StartsFromShown(key: seq<Byte>, n: nat)
    requires IsVisible(key) && StartsFrom(KEY_PLACEHOLDER, key, n)
    ensures Shows([] + key + key[n..], key)
  {
    var p, b := KEY_PLACEHOLDER, key[n..];
    StartsAcross(p, key, n);
    assert [] + p + b == p + b;
    ShownBetween([], key, b, |p| - n);
  }

  lemma EndsIntoShown(key: seq<Byte>, n: nat)
    requires IsVisible(key) && EndsInto(KEY_PLACEHOLDER, key, n) && !FoundEarlier(key[..|key| - n], key)
    ensures Shows(key[..|key| - n] + key + [], key)
  {
    var p, a := KEY_PLACEHOLDER, key[..|key| - n];
    var t := a + p + [];
    assert a + key + [] == a + key;
    assert t[0..|key|] == a + p[..n] == key;
    ShownBetween(a, key, [], 0);
  }

  lemma {:induction false} FirstOccurrence(s: seq<Byte>, p: seq<Byte>, from: nat) returns (m: nat)
    requires exists i :: from <= i <= |s| && OccursAt(s, p, i)
    ensures from <= m <= |s| && OccursAt(s, p, m) && forall j :: from <= j < m ==> !OccursAt(s, p, j)
    decreases |s| - from
  {
    if OccursAt(s, p, from) {
      m := from;
    } else {
      m := FirstOccurrence(s, p, from + 1);
    }
  }

  /** A placeholder opens with its only opening bracket, so it has no border. */
  predicate OpensOnce(p: seq<Byte>) {
    p != [] && p[0] == 91 && forall d :: 0 < d < |p| ==> p[d] != 91
  }

  lemma PlaceholdersApart(s: seq<Byte>, p: seq<Byte>, i: nat, j: nat)
    requires OpensOnce(p) && OccursAt(s, p, i) && OccursAt(s, p, j) && i < j
    ensures i + |p| <= j
  {
    OccurrenceBytes(s, p, i);
    OccurrenceBytes(s, p, j);
    assert s[j + 0] == p[0];
    assert forall d :: 0 < d < |p| ==> s[i + d] == p[d];
  }

  lemma NoneBeforeOwnPlace(key: seq<Byte>, p: seq<Byte>, m: nat, b: seq<Byte>, j: nat)
    requires OpensOnce(p) && OccursAt(key, p, m) && (forall k :: 0 <= k < m ==> !OccursAt(key, p, k)) && j < m
    ensures !OccursAt(key[..m] + key + b, key, j)
  {
    var s := key[..m] + key + b;
    assert s[m..m + |key|] == key;
    SliceOfSlice(s, m, m + |key|, m, m + |p|);
    if OccursAt(s, key, j) {
      SliceOfSlice(s, j, j + |key|, m, m + |p|);
      PlaceholdersApart(s, p, j + m, m + m);
      InOwnCopy(s, key, p, m, j);
    }
  }

  lemma InOwnCopy(s: seq<Byte>, key: seq<Byte>, p: seq<Byte>, m: nat, j: nat)
    requires OccursAt(s, key, m) && OccursAt(s, p, m + j) && j + |p| <= |key|
    ensures OccursAt(key, p, j)
  {
    SliceOfSlice(s, m, m + |key|, j, j + |p|);
  }

  /** A key around a whole placeholder is put together from what surrounds the key. */
  lemma AroundPlaceholderShown(key: seq<Byte>) returns (input: seq<Byte>)
    requires IsVisible(key) && !KeyFree(key, KEY_PLACEHOLDER)
    ensures Shows(input, key)
  {
    var m := FirstOccurrence(key, KEY_PLACEHOLDER, 0);
    input := AroundPlaceholder(key, KEY_PLACEHOLDER, m);
  }

  lemma AroundPlaceholder(key: seq<Byte>, p: seq<Byte>, m: nat) returns (input: seq<Byte>)
    requires IsVisible(key) && p == KEY_PLACEHOLDER && OccursAt(key, p, m)
    requires forall k :: 0 <= k < m ==> !OccursAt(key, p, k)
    ensures Shows(input, key)
  {
    var a, b := key[..m], key[m + |p|..];
    assert OpensOnce(p);
    forall j | 0 <= j < |a| ensures !OccursAt(a + key + b, key, j) {
      NoneBeforeOwnPlace(key, p, m, b, j);
    }
    assert a + p + b == key;
    assert (a + p + b)[0..|key|] == key;
    hide Shows, OccursAt;
    OccursWhole(key);
    ShownBetween(a, key, b, 0);
    input := a + key + b;
  }

  lemma OccursWhole(key: seq<Byte>)
    ensures OccursAt(key, key, 0)
  {
    assert key[0..0 + |key|] == key;
  }

  lemma IntroducedTokenRedacted(b: seq<Byte>)
    requires IsVisible(b) && (b == [] || EndsToken(b[0] as int))
    ensures RedactFrom(INTRODUCTION + b, 0) == INTRODUCTION[..7] + BEARER_PLACEHOLDER + b
  {
    var s := INTRODUCTION + b;
    IntroducedTokenEnds(s, b);
    TokenOne(s, 0);
    hide TokenAt, BEARER_PLACEHOLDER;
    NoTokenBehind(s, b);
    CopyUpTo(s, 8, |s|);
    assert s[8..|s|] == b && s[0..7] == INTRODUCTION[..7];
    assert RedactFrom(s, 8) == b + [] == b;
  }

  lemma NoTokenBehind(s: seq<Byte>, b: seq<Byte>)
    requires s == INTRODUCTION + b && IsVisible(b)
    ensures forall k :: 8 <= k < |s| ==> !TokenAt(s, k)
  {
    forall k | 8 <= k < |s| ensures !TokenAt(s, k) {
      assert k + 6 < |s| ==> s[k + 6] == b[k - 2];
    }
  }

  lemma IntroducedTokenEnds(s: seq<Byte>, b: seq<Byte>)
    requires s == INTRODUCTION + b && IsVisible(b) && (b == [] || EndsToken(b[0] as int))
    ensures TokenAt(s, 0) && SkipAsciiWhitespace(s, 6) == 7 && TokenEnd(s, 7) == 8
  {
    assert SkipAsciiWhitespace(s, 7) == 7;
    assert CodePoint(s, 7) == 120 && CharWidth(s, 7) == 1;
    assert b != [] ==> s[8] == b[0] && CodePoint(s, 8) == b[0] as int;
    assert TokenEnd(s, 8) == 8;
    assert WordAt(s, 0);
  }

  /** The introduction is in lower case, the placeholder is not. */
  predicate NotIntroducing(p: seq<Byte>) {
    forall k :: 0 <= k < |p| ==> p[k] !in INTRODUCTION
  }

  lemma KeyNotBehind(b: seq<Byte>, key: seq<Byte>)
    requires key != [] && |b| < |key| && key[0] !in INTRODUCTION
    ensures KeyFree(INTRODUCTION + b, key)
  {
    var s := INTRODUCTION + b;
    assert forall k :: 0 <= k < |INTRODUCTION| ==> s[k] == INTRODUCTION[k] && s[k] != key[0];
    forall k | 0 <= k <= |s| ensures !OccursAt(s, key, k) {
      if OccursAt(s, key, k) {
        OccurrenceBytes(s, key, k);
      }
    }
  }

  lemma IntroducedPlain(b: seq<Byte>)
    requires IsVisible(b)
    ensures IsPlain(INTRODUCTION + b)
  {
  }

  /** Behind the introduction of a token stands what the key ends with. */
  lemma BehindTokenShown(p: seq<Byte>, key: seq<Byte>, b: seq<Byte>, i: nat)
    requires p == BEARER_PLACEHOLDER && key != [] && key[0] !in INTRODUCTION
    requires IsVisible(key) && IsVisible(b) && |b| < |key| && (b == [] || EndsToken(b[0] as int))
    requires OccursAt(p + b, key, i)
    ensures Shows(INTRODUCTION + b, key)
  {
    KeyNotBehind(b, key);
    IntroducedPlain(b);
    IntroducedTokenRedacted(b);
    assert !KeyFree(p + b, key);
    hide OccursAt, INTRODUCTION, BEARER_PLACEHOLDER, KEY_PLACEHOLDER, IsVisible, IsPlain, EndsToken;
    VisiblePassesThrough(INTRODUCTION + b, key);
    ReplaceAbsent(INTRODUCTION + b, key, KEY_PLACEHOLDER);
    Regroup(INTRODUCTION[..7], p, b);
    OccursInSuffix(INTRODUCTION[..7], p + b, key);
  }

  lemma PartOfBearerPlaceholderShown(key: seq<Byte>)
    requires key != [] && IsVisible(key) && !KeyFree(BEARER_PLACEHOLDER, key)
    ensures Shows(INTRODUCTION + [], key)
  {
    var p := BEARER_PLACEHOLDER;
    var i :| 0 <= i <= |p| && OccursAt(p, key, i);
    assert NotIntroducing(p);
    OccurrenceBytes(p, key, i);
    assert p[i + 0] == key[0];
    assert p + [] == p;
    BehindTokenShown(p, key, [], i);
  }

  lemma StartsFromBearerShown(p: seq<Byte>, key: seq<Byte>, n: nat)
    requires p == BEARER_PLACEHOLDER && NotIntroducing(p)
    requires IsVisible(key) && StartsFrom(p, key, n) && EndsToken(key[n] as int)
    ensures Shows(INTRODUCTION + key[n..], key)
  {
    hide INTRODUCTION, BEARER_PLACEHOLDER, Shows;
    StartsAcross(p, key, n);
    assert key[0] == key[..n][0] == p[|p| - n..][0] == p[|p| - n];
    BehindTokenShown(p, key, key[n..], |p| - n);
  }

  lemma StartsAcross(p: seq<Byte>, key: seq<Byte>, n: nat)
    requires StartsFrom(p, key, n)
    ensures OccursAt(p + key[n..], key, |p| - n)
  {
    var t := p + key[n..];
    assert t[|p| - n..|p| - n + |key|] == p[|p| - n..] + key[n..] == key[..n] + key[n..] == key;
  }

  /** Everything that is not hidden can be shown. */
  lemma NotHiddenShown(key: seq<Byte>) returns (input: seq<Byte>)
    requires key != [] && IsVisible(key) && !Hidden(key)
    ensures Shows(input, key)
  {
    hide Shows, IsVisible, FoundEarlier, EndsToken;
    if !KeyFree(KEY_PLACEHOLDER, key) {
      PartOfKeyPlaceholderShown(key);
      return [] + key + [];
    } else if !KeyFree(BEARER_PLACEHOLDER, key) {
      PartOfBearerPlaceholderShown(key);
      return INTRODUCTION + [];
    } else if !KeyFree(key, KEY_PLACEHOLDER) {
      input := AroundPlaceholderShown(key);
    } else {
      hide KeyFree;
      input := CompletedShown(key);
    }
  }

  lemma CompletedShown(key: seq<Byte>) returns (input: seq<Byte>)
    requires key != [] && IsVisible(key) && !NotCompleted(key)
    ensures Shows(input, key)
  {
    hide Shows, IsVisible, FoundEarlier, EndsToken, EndsInto, StartsFrom;
    if n :| 0 < n < |key| && StartsFrom(KEY_PLACEHOLDER, key, n) {
      StartsFromShown(key, n);
      return [] + key + key[n..];
    } else if n :| 0 < n < |key| && EndsInto(KEY_PLACEHOLDER, key, n) && !FoundEarlier(key[..|key| - n], key) {
      EndsIntoShown(key, n);
      return key[..|key| - n] + key + [];
    } else {
      var n :| 0 < n < |key| && StartsFrom(BEARER_PLACEHOLDER, key, n) && EndsToken(key[n] as int);
      IntroductionIsLowerCase();
      StartsFromBearerShown(BEARER_PLACEHOLDER, key, n);
      return INTRODUCTION + key[n..];
    }
  }

  lemma IntroductionIsLowerCase()
    ensures NotIntroducing(BEARER_PLACEHOLDER)
  {
  }

  /** Among visible keys, with brackets or without, exactly the hidden ones are never
      shown, whatever the body. */
  lemma HiddenKeysNeverShown(key: seq<Byte>)
    requires key != [] && IsVisible(key)
    ensures (forall input :: !Shows(input, key)) <==> Hidden(key)
  {
    hide Shows, Hidden;
    if Hidden(key) {
      forall input ensures !Shows(input, key) {
        HiddenKeyNotShown(input, key);
      }
    } else {
      var _ := NotHiddenShown(key);
    }
  }

  /** A hidden key of brackets alone: where the second bracket opens a placeholder, the
      first would have made an earlier occurrence. */
  lemma DoubleBracketIsHidden()
    ensures Hidden([91, 91])
  {
    var key := [91, 91];
    OpensAndCloses(KEY_PLACEHOLDER, key);
    OpensAndCloses(BEARER_PLACEHOLDER, key);
    assert [91] + key == [91, 91, 91] && [91, 91, 91][0..2] == key;
    assert OccursAt([91] + key, key, 0);
    assert key[..1] == [91];
    hide KEY_PLACEHOLDER, BEARER_PLACEHOLDER;
  }

  lemma OpensAndCloses(p: seq<Byte>, key: seq<Byte>)
    requires (p == KEY_PLACEHOLDER || p == BEARER_PLACEHOLDER) && key == [91, 91]
    ensures KeyFree(p, key) && KeyFree(key, p) && !StartsFrom(p, key, 1)
  {
    assert OpensOnce(p) && p[|p| - 1] == 93;
    forall i | 0 <= i <= |p| ensures !OccursAt(p, key, i) {
      assert i + 2 <= |p| ==> p[i..i + 2][1] == p[i + 1];
    }
    assert p[|p| - 1..] == [93] && key[..1] == [91];
  }

  // ---------------------------------------------------------------- what is shown

  lemma PrefixKeyFree(s: seq<Byte>, prefix: seq<Byte>, key: seq<Byte>)
    requires prefix <= s && key != [] && KeyFree(s, key)
    ensures KeyFree(prefix, key)
  {
    NoOccurrenceBetween(s, 0, |prefix|, key);
    assert s[0..|prefix|] == prefix;
  }

  /** `upstream_error_from_bytes` after decoding: what is shown is bounded and key free. */
  method ShownDiagnostic(decoded: seq<Byte>, key: seq<Byte>) returns (shown: seq<Byte>, truncated: bool)
    requires ValidUtf8(decoded) && ValidUtf8(key)
    ensures |shown| <= 16_384 && (truncated <==> |SanitizeUpstreamDiagnostic(decoded, key)| > 16_384)
    ensures if truncated then |shown| >= 16_381 else shown == SanitizeUpstreamDiagnostic(decoded, key)
    ensures shown <= SanitizeUpstreamDiagnostic(decoded, key)
    ensures key != [] && Apart(KEY_PLACEHOLDER, key) && Apart(BEARER_PLACEHOLDER, key) ==> KeyFree(shown, key)
    ensures key != [] && HasNoBracket(key) && KeyFree(KEY_PLACEHOLDER, key) && KeyFree(BEARER_PLACEHOLDER, key)
            ==> KeyFree(shown, key)
    ensures key != [] && IsVisible(key) && Hidden(key) ==> KeyFree(shown, key)
  {
    SanitizeKeepsUtf8(decoded, key);
    var sanitized := SanitizeUpstreamDiagnostic(decoded, key);
    shown, truncated := TruncateUtf8Bytes(sanitized, MAX_UPSTREAM_DIAGNOSTIC_BYTES);
    if HasNoBracket(key) && KeyFree(KEY_PLACEHOLDER, key) && KeyFree(BEARER_PLACEHOLDER, key) {
      BracketFreeApart(KEY_PLACEHOLDER, key);
      BracketFreeApart(BEARER_PLACEHOLDER, key);
    }
    if key != [] && Apart(KEY_PLACEHOLDER, key) && Apart(BEARER_PLACEHOLDER, key) {
      SanitizedIsKeyFree(decoded, key);
      PrefixKeyFree(sanitized, shown, key);
    }
    if key != [] && IsVisible(key) && Hidden(key) {
      HiddenKeyNotShown(decoded, key);
      PrefixKeyFree(sanitized, shown, key);
    }
  }
}
