/** What the bearer redaction does to whole texts: a token is replaced to its last
    character, and everything else stays. */
module RedactionLaws {
  import opened Bytes
  import opened Redaction

  /** White space, or one of the eight characters  " ' , ; } ] ) >  */
  predicate Stops(c: int) {
    || IsWhitespace(c) || c == '"' as int || c == '\'' as int || c == ',' as int || c == ';' as int
    || c == '}' as int || c == ']' as int || c == ')' as int || c == '>' as int
  }

  /** Text of characters none of which ends a token. */
  predicate Unbroken(t: seq<Byte>, i: nat)
    requires i <= |t|
    decreases |t| - i
  {
    i == |t| || (WellFormedWidth(t, i) > 0 && !Stops(CodePoint(t, i)) && Unbroken(t, i + WellFormedWidth(t, i)))
  }

  /** "bearer" in any case. */
  predicate IsWord(word: seq<Byte>) {
    |word| == 6
    && word[0] in {98, 66} && word[1] in {101, 69} && word[2] in {97, 65} && word[3] in {114, 82}
    && word[4] in {101, 69} && word[5] in {114, 82}
  }

  /** ASCII white space: space, tab, line feed, form feed, carriage return. */
  predicate IsGap(gap: seq<Byte>) {
    gap != [] && forall k :: 0 <= k < |gap| ==> gap[k] in {32, 9, 10, 12, 13}
  }

  predicate IsLetterOrDigit(b: Byte) {
    '0' as int <= b as int <= '9' as int || 'A' as int <= b as int <= 'Z' as int || 'a' as int <= b as int <= 'z' as int
  }

  /** Nothing, or text that begins with a character that ends a token. */
  predicate Stopped(rest: seq<Byte>) {
    rest == [] || Stops(CodePoint(rest, 0))
  }

  // ---------------------------------------------------------------- one token

  lemma StopsIsEnds(c: int)
    ensures Stops(c) <==> EndsToken(c)
  {
  }

  lemma CodePointIsLocal(s: seq<Byte>, i: nat, t: seq<Byte>, j: nat)
    requires i < |s| && WellFormedWidth(s, i) > 0 && j + WellFormedWidth(s, i) <= |t|
    requires t[j..j + WellFormedWidth(s, i)] == s[i..i + WellFormedWidth(s, i)]
    ensures WellFormedWidth(t, j) == WellFormedWidth(s, i) && CodePoint(t, j) == CodePoint(s, i)
  {
    var w := WellFormedWidth(s, i);
    WidthIsLocal(s, i, t, j);
    assert t[j..j + w][0] == t[j] && s[i..i + w][0] == s[i];
    assert w > 1 ==> t[j..j + w][1] == t[j + 1] && s[i..i + w][1] == s[i + 1];
    assert w > 2 ==> t[j..j + w][2] == t[j + 2] && s[i..i + w][2] == s[i + 2];
    assert w > 3 ==> t[j..j + w][3] == t[j + 3] && s[i..i + w][3] == s[i + 3];
  }

  /** A character in text that is cut off exactly at its end is read as in the whole. */
  lemma SameTail(s: seq<Byte>, left: nat, rest: seq<Byte>, k: nat)
    requires left + |rest| == |s| && s[left..] == rest && k < |rest|
    ensures CodePoint(s, left + k) == CodePoint(rest, k) && CharWidth(s, left + k) == CharWidth(rest, k)
  {
    assert forall x :: 0 <= x < |rest| ==> s[left + x] == rest[x];
  }

  lemma {:induction false} TokenReaches(s: seq<Byte>, start: nat, t: seq<Byte>, k: nat)
    requires k <= |t| && start + |t| <= |s| && s[start..start + |t|] == t && Unbroken(t, k)
    requires Stopped(s[start + |t|..])
    ensures TokenEnd(s, start + k) == start + |t|
    decreases |t| - k
  {
    hide CodePoint, WellFormedWidth, EndsToken, Stops, CharWidth;
    var rest := s[start + |t|..];
    if k == |t| {
      if rest != [] {
        SameTail(s, start + |t|, rest, 0);
        StopsIsEnds(CodePoint(rest, 0));
      }
    } else {
      var w := WellFormedWidth(t, k);
      SliceOfSlice(s, start, start + |t|, k, k + w);
      CodePointIsLocal(t, k, s, start + k);
      WidthOfChar(s, start + k);
      StopsIsEnds(CodePoint(t, k));
      TokenReaches(s, start, t, k + w);
    }
  }

  lemma WidthOfChar(s: seq<Byte>, i: nat)
    requires i < |s| && WellFormedWidth(s, i) > 0
    ensures CharWidth(s, i) == WellFormedWidth(s, i)
  {
  }

  lemma {:induction false} GapIsSkipped(s: seq<Byte>, i: nat, end: nat)
    requires i <= end <= |s| && (forall k :: i <= k < end ==> s[k] in {32, 9, 10, 12, 13})
    requires end == |s| || s[end] !in {32, 9, 10, 12, 13}
    ensures SkipAsciiWhitespace(s, i) == end
    decreases end - i
  {
    if i < end {
      GapIsSkipped(s, i + 1, end);
    }
  }

  /** Text that does not stop a token has no ASCII white space. */
  lemma UnbrokenStart(t: seq<Byte>)
    requires t != [] && Unbroken(t, 0)
    ensures t[0] !in {32, 9, 10, 12, 13}
  {
  }

  lemma Introduces(s: seq<Byte>, at: nat, word: seq<Byte>, gap: seq<Byte>, start: nat)
    requires IsWord(word) && IsGap(gap) && start == at + 6 + |gap| <= |s|
    requires s[at..at + 6] == word && s[at + 6..start] == gap
    ensures WordAt(s, at) && at + 6 < start && IsAsciiWhitespace(s[at + 6])
    ensures forall k :: at + 6 <= k < start ==> s[k] in {32, 9, 10, 12, 13}
  {
    assert forall k :: 0 <= k < 6 ==> s[at + k] == word[k];
    assert forall k :: at + 6 <= k < start ==> s[k] == gap[k - at - 6];
  }

  lemma IsToken(s: seq<Byte>, at: nat, start: nat)
    requires WordAt(s, at) && (at == 0 || !IsLetterOrDigit(s[at - 1]))
    requires at + 6 < |s| && IsAsciiWhitespace(s[at + 6]) && start == SkipAsciiWhitespace(s, at + 6)
    requires TokenEnd(s, start) > start
    ensures TokenAt(s, at)
  {
  }

  /** Where an introduction stands at the boundary of a word, the token behind it is
      replaced to its end, and the scan goes on there. */
  lemma TokenLaw(s: seq<Byte>, at: nat, word: seq<Byte>, gap: seq<Byte>, start: nat, t: seq<Byte>, end: nat)
    requires start == at + 6 + |gap| && end == start + |t| && end <= |s| && t != []
    requires s[at..at + 6] == word && s[at + 6..start] == gap && s[start..end] == t
    requires IsWord(word) && IsGap(gap) && Unbroken(t, 0) && Stopped(s[end..])
    requires at == 0 || !IsLetterOrDigit(s[at - 1])
    ensures TokenAt(s, at) && RedactFrom(s, at) == s[at..start] + BEARER_PLACEHOLDER + RedactFrom(s, end)
  {
    hide IsWord, IsGap, Unbroken, Stopped, RedactFrom, WordAt, TokenEnd, SkipAsciiWhitespace, TokenAt;
    hide BEARER_PLACEHOLDER, IsAsciiWhitespace, IsLetterOrDigit;
    Introduces(s, at, word, gap, start);
    UnbrokenStart(t);
    FirstOfSlice(s, start, end);
    GapIsSkipped(s, at + 6, start);
    TokenReaches(s, start, t, 0);
    IsToken(s, at, start);
    TokenOne(s, at);
  }

  lemma FirstOfSlice(s: seq<Byte>, i: nat, j: nat)
    requires i < j <= |s|
    ensures s[i..j][0] == s[i]
  {
  }

  // ---------------------------------------------------------------- what follows a token

  /** From the first character on, the scan of the rest does not look back. */
  lemma {:induction false} SkipShifts(s: seq<Byte>, left: nat, rest: seq<Byte>, k: nat)
    requires left + |rest| == |s| && s[left..] == rest && k <= |rest|
    ensures SkipAsciiWhitespace(s, left + k) == left + SkipAsciiWhitespace(rest, k)
    decreases |rest| - k
  {
    if k < |rest| {
      assert s[left + k] == rest[k];
      SkipShifts(s, left, rest, k + 1);
    }
  }

  lemma {:induction false} EndShifts(s: seq<Byte>, left: nat, rest: seq<Byte>, k: nat)
    requires left + |rest| == |s| && s[left..] == rest && k <= |rest|
    ensures TokenEnd(s, left + k) == left + TokenEnd(rest, k)
    decreases |rest| - k
  {
    hide CodePoint, CharWidth, EndsToken;
    if k < |rest| {
      SameTail(s, left, rest, k);
      EndShifts(s, left, rest, k + CharWidth(rest, k));
    }
  }

  lemma WordShifts(s: seq<Byte>, left: nat, rest: seq<Byte>, k: nat)
    requires left + |rest| == |s| && s[left..] == rest && k <= |rest|
    ensures WordAt(s, left + k) <==> WordAt(rest, k)
  {
    if k + 6 <= |rest| {
      SliceOfSlice(s, left, |s|, k, k + 6);
      WordIsSix(s, left + k);
      WordIsSix(rest, k);
    }
  }

  lemma WordIsSix(s: seq<Byte>, i: nat)
    requires i + 6 <= |s|
    ensures WordAt(s, i) <==> IsWord(s[i..i + 6])
  {
    var w := s[i..i + 6];
    assert w[0] == s[i + 0] && w[1] == s[i + 1] && w[2] == s[i + 2];
    assert w[3] == s[i + 3] && w[4] == s[i + 4] && w[5] == s[i + 5];
    if IsWord(w) {
      forall k | 0 <= k < 6 ensures Lower(s[i + k]) == BEARER[k] {
        assert k == 0 || k == 1 || k == 2 || k == 3 || k == 4 || k == 5;
      }
    }
    assert WordAt(s, i) ==> Lower(s[i + 0]) == BEARER[0] && Lower(s[i + 1]) == BEARER[1];
    assert WordAt(s, i) ==> Lower(s[i + 2]) == BEARER[2] && Lower(s[i + 3]) == BEARER[3];
    assert WordAt(s, i) ==> Lower(s[i + 4]) == BEARER[4] && Lower(s[i + 5]) == BEARER[5];
  }

  lemma TokenShifts(s: seq<Byte>, left: nat, rest: seq<Byte>, k: nat)
    requires left + |rest| == |s| && s[left..] == rest && 0 < k <= |rest|
    ensures TokenAt(s, left + k) <==> TokenAt(rest, k)
  {
    hide WordAt, TokenEnd, SkipAsciiWhitespace, IsAsciiWhitespace, IsAsciiAlphanumeric;
    WordShifts(s, left, rest, k);
    assert s[left + k - 1] == rest[k - 1];
    if k + 6 < |rest| {
      assert s[left + k + 6] == rest[k + 6];
      SkipShifts(s, left, rest, k + 6);
      EndShifts(s, left, rest, SkipAsciiWhitespace(rest, k + 6));
    }
  }

  lemma {:induction false} RestShifts(s: seq<Byte>, left: nat, rest: seq<Byte>, k: nat)
    requires left + |rest| == |s| && s[left..] == rest && k <= |rest|
    requires k == 0 ==> rest == [] || (!TokenAt(s, left) && !TokenAt(rest, 0))
    ensures RedactFrom(s, left + k) == RedactFrom(rest, k)
    decreases |rest| - k
  {
    hide TokenAt, TokenEnd, SkipAsciiWhitespace, BEARER_PLACEHOLDER, RedactFrom;
    if k < |rest| {
      if k > 0 {
        TokenShifts(s, left, rest, k);
      }
      if TokenAt(rest, k) {
        TokenRoom(rest, k);
        var start := SkipAsciiWhitespace(rest, k + 6);
        var end := TokenEnd(rest, start);
        RestShifts(s, left, rest, end);
        SkipShifts(s, left, rest, k + 6);
        EndShifts(s, left, rest, start);
        assert s[left..|s|] == rest;
        SliceOfSlice(s, left, |s|, k, start);
        assert SkipAsciiWhitespace(s, left + k + 6) == left + start && TokenEnd(s, left + start) == left + end;
        assert s[left + k..left + start] == rest[k..start];
        TokenOne(s, left + k);
        TokenOne(rest, k);
      } else {
        assert s[left + k] == rest[k];
        RestShifts(s, left, rest, k + 1);
        CopyOne(s, left + k);
        CopyOne(rest, k);
      }
    } else {
      NothingLeft(s);
      NothingLeft(rest);
    }
  }

  lemma NothingLeft(s: seq<Byte>)
    ensures RedactFrom(s, |s|) == []
  {
  }

  lemma TokenRoom(s: seq<Byte>, i: nat)
    requires TokenAt(s, i)
    ensures i + 6 < |s| && TokenEnd(s, SkipAsciiWhitespace(s, i + 6)) > i
  {
  }

  /** A character that stops a token does not start the word. */
  lemma StoppedNoToken(rest: seq<Byte>)
    requires rest != [] && Stopped(rest)
    ensures rest[0] !in {98, 66}
  {
  }

  /** The whole law: "bearer" in any case, white space, and a token of characters none
      of which is white space or one of the eight, before nothing or such a character,
      lose exactly the token, and what follows is redacted on its own. */
  lemma WholeTokenReplaced(word: seq<Byte>, gap: seq<Byte>, t: seq<Byte>, rest: seq<Byte>)
    requires IsWord(word) && IsGap(gap) && t != [] && Unbroken(t, 0) && Stopped(rest)
    ensures RedactFrom(word + gap + t + rest, 0) == word + gap + BEARER_PLACEHOLDER + RedactFrom(rest, 0)
  {
    hide IsGap, Unbroken, Stopped, RedactFrom, BEARER_PLACEHOLDER, TokenAt;
    TokenInTextReplaced([], word, gap, t, rest);
    assert [] + word + gap + t + rest == word + gap + t + rest;
  }

  /** The same behind any text that does not end in the middle of a word. */
  lemma TokenInTextReplaced(left: seq<Byte>, word: seq<Byte>, gap: seq<Byte>, t: seq<Byte>, rest: seq<Byte>)
    requires IsWord(word) && IsGap(gap) && t != [] && Unbroken(t, 0) && Stopped(rest)
    requires left == [] || !IsLetterOrDigit(left[|left| - 1])
    ensures RedactFrom(left + word + gap + t + rest, |left|)
         == word + gap + BEARER_PLACEHOLDER + RedactFrom(rest, 0)
  {
    hide IsGap, Unbroken, Stopped, RedactFrom, BEARER_PLACEHOLDER, TokenAt, IsLetterOrDigit;
    WordLength(word);
    hide IsWord;
    var s := left + word + gap + t + rest;
    var at, start, end := |left|, |left| + 6 + |gap|, |s| - |rest|;
    Parts(left, word, gap, t, rest, s);
    TokenLaw(s, at, word, gap, start, t, end);
    RestAlone(s, end, rest);
    Joined(word, gap, RedactFrom(s, end));
  }

  lemma WordLength(word: seq<Byte>)
    requires IsWord(word)
    ensures |word| == 6
  {
  }

  lemma Joined(word: seq<Byte>, gap: seq<Byte>, rest: seq<Byte>)
    ensures (word + gap) + BEARER_PLACEHOLDER + rest == word + gap + BEARER_PLACEHOLDER + rest
  {
  }

  lemma RestAlone(s: seq<Byte>, end: nat, rest: seq<Byte>)
    requires Stopped(rest) && end + |rest| == |s| && s[end..] == rest
    ensures RedactFrom(s, end) == RedactFrom(rest, 0)
  {
    hide Stopped, RedactFrom, TokenAt;
    if rest != [] {
      StoppedNoToken(rest);
      assert s[end] == rest[0];
      NotB(s, end);
      NotB(rest, 0);
    }
    RestShifts(s, end, rest, 0);
  }

  lemma NotB(s: seq<Byte>, i: nat)
    requires i < |s| && s[i] !in {98, 66}
    ensures !TokenAt(s, i)
  {
    if WordAt(s, i) {
      WordStartsWithB(s, i);
    }
  }

  lemma Parts(left: seq<Byte>, word: seq<Byte>, gap: seq<Byte>, t: seq<Byte>, rest: seq<Byte>, s: seq<Byte>)
    requires s == left + word + gap + t + rest && |word| == 6
    ensures var at, start, end := |left|, |left| + 6 + |gap|, |s| - |rest|;
            && end == start + |t| && s[at..at + 6] == word && s[at + 6..start] == gap && s[start..end] == t
            && s[end..] == rest && s[at..start] == word + gap
            && (at > 0 ==> s[at - 1] == left[at - 1])
  {
    var at, start := |left|, |left| + 6 + |gap|;
    assert s[at..start] == word + gap;
  }

  // ---------------------------------------------------------------- everything else

  /** Somewhere in the text the word stands at a boundary with white space behind it. */
  predicate Introduced(s: seq<Byte>, i: nat) {
    && i + 6 < |s| && IsWord(s[i..i + 6]) && s[i + 6] in {32, 9, 10, 12, 13}
    && (i == 0 || !IsLetterOrDigit(s[i - 1]))
  }

  lemma TokenIsIntroduced(s: seq<Byte>, i: nat)
    requires TokenAt(s, i)
    ensures Introduced(s, i)
  {
    WordIsSix(s, i);
  }

  /** Text without an introduction is not changed, in whole or up to the first one. */
  lemma UntilIntroduced(s: seq<Byte>, i: nat, j: nat)
    requires i <= j <= |s| && forall k :: i <= k < j ==> !Introduced(s, k)
    ensures RedactFrom(s, i) == s[i..j] + RedactFrom(s, j)
  {
    hide TokenAt, Introduced;
    forall k | i <= k < j ensures !TokenAt(s, k) {
      if TokenAt(s, k) {
        TokenIsIntroduced(s, k);
      }
    }
    CopyUpTo(s, i, j);
  }

  lemma UnintroducedUnchanged(s: seq<Byte>)
    requires forall k :: 0 <= k < |s| ==> !Introduced(s, k)
    ensures RedactFrom(s, 0) == s
  {
    UntilIntroduced(s, 0, |s|);
    assert s[0..|s|] == s;
  }

  // ---------------------------------------------------------------- spellings

  /** ASCII text as bytes. */
  function Ascii(text: string): (bytes: seq<Byte>)
    requires forall i :: 0 <= i < |text| ==> text[i] as int < 0x80
    ensures |bytes| == |text|
  {
    seq(|text|, i requires 0 <= i < |text| => text[i] as int as Byte)
  }

  lemma PlaceholdersSpelled()
    ensures BEARER_PLACEHOLDER == Ascii("[REDACTED_BEARER_TOKEN]")
    ensures KEY_PLACEHOLDER == Ascii("[REDACTED_API_KEY]")
  {
  }
}
