/** The diagnostic sanitiser: an upstream error body is shown to the user only
    after the API key and every bearer token have been replaced in it. */
module Redaction {
  import opened Bytes

  const BEARER: seq<Byte> := [98, 101, 97, 114, 101, 114]

  // "[REDACTED_BEARER_TOKEN]"
  const BEARER_PLACEHOLDER: seq<Byte> :=
    [91, 82, 69, 68, 65, 67, 84, 69, 68, 95, 66, 69, 65, 82, 69, 82, 95, 84, 79, 75, 69, 78, 93]

  // "[REDACTED_API_KEY]"
  const KEY_PLACEHOLDER: seq<Byte> :=
    [91, 82, 69, 68, 65, 67, 84, 69, 68, 95, 65, 80, 73, 95, 75, 69, 89, 93]

  function Lower(b: Byte): Byte {
    if 65 <= b <= 90 then b + 32 else b
  }

  predicate IsAsciiAlphanumeric(b: Byte) {
    48 <= b <= 57 || 65 <= b <= 90 || 97 <= b <= 122
  }

  /** `u8::is_ascii_whitespace`, which unlike the Unicode property leaves out the vertical tab. */
  predicate IsAsciiWhitespace(b: Byte) {
    b == 9 || b == 10 || b == 12 || b == 13 || b == 32
  }

  predicate EndsToken(c: int) {
    || IsWhitespace(c)
    || c == 34 || c == 39 || c == 44 || c == 59 || c == 125 || c == 93 || c == 41 || c == 62
  }

  // ---------------------------------------------------------------- specification

  predicate WordAt(s: seq<Byte>, i: nat) {
    i + 6 <= |s| && forall k :: 0 <= k < 6 ==> Lower(s[i + k]) == BEARER[k]
  }

  function SkipAsciiWhitespace(s: seq<Byte>, i: nat): (j: nat)
    requires i <= |s|
    ensures i <= j <= |s|
    ensures forall k :: i <= k < j ==> IsAsciiWhitespace(s[k])
    decreases |s| - i
  {
    if i < |s| && IsAsciiWhitespace(s[i]) then SkipAsciiWhitespace(s, i + 1) else i
  }

  function TokenEnd(s: seq<Byte>, i: nat): (j: nat)
    requires i <= |s|
    ensures i <= j <= |s|
    decreases |s| - i
  {
    if i == |s| || EndsToken(CodePoint(s, i)) then i else TokenEnd(s, i + CharWidth(s, i))
  }

  /** The word `bearer` in any case, not inside a longer word, then ASCII
      whitespace, then at least one character that does not end a token. */
  predicate TokenAt(s: seq<Byte>, i: nat) {
    && WordAt(s, i)
    && (i == 0 || !IsAsciiAlphanumeric(s[i - 1]))
    && i + 6 < |s| && IsAsciiWhitespace(s[i + 6])
    && var start := SkipAsciiWhitespace(s, i + 6);
       TokenEnd(s, start) > start
  }

  /** What redaction means: scan one byte at a time, replace the token of every
      introduction met, copy everything else. */
  function RedactFrom(s: seq<Byte>, i: nat): seq<Byte>
    requires i <= |s|
    decreases |s| - i
  {
    if i == |s| then []
    else if TokenAt(s, i) then
      var start := SkipAsciiWhitespace(s, i + 6);
      s[i..start] + BEARER_PLACEHOLDER + RedactFrom(s, TokenEnd(s, start))
    else [s[i]] + RedactFrom(s, i + 1)
  }

  // ---------------------------------------------------------------- the scanning loop

  /** `&s[from..to]`, which panics off a character boundary. */
  function Slice(s: seq<Byte>, from: nat, to: nat): seq<Byte>
    requires from <= to <= |s| && IsCharBoundary(s, from) && IsCharBoundary(s, to)
  {
    s[from..to]
  }

  method FindWord(s: seq<Byte>, from: nat) returns (found: bool, at: nat)
    requires from <= |s|
    ensures from <= at <= |s|
    ensures forall k :: from <= k < at ==> !WordAt(s, k)
    ensures found ==> WordAt(s, at)
    ensures !found ==> at == |s|
  {
    at := from;
    while at < |s|
      invariant from <= at <= |s|
      invariant forall k :: from <= k < at ==> !WordAt(s, k)
    {
      if WordAt(s, at) {
        return true, at;
      }
      at := at + 1;
    }
    found := false;
  }

  lemma CopyOne(s: seq<Byte>, i: nat)
    requires i < |s| && !TokenAt(s, i)
    ensures RedactFrom(s, i) == [s[i]] + RedactFrom(s, i + 1)
  {
  }

  lemma {:induction false} CopyUpTo(s: seq<Byte>, i: nat, j: nat)
    requires i <= j <= |s|
    requires forall k :: i <= k < j ==> !TokenAt(s, k)
    ensures RedactFrom(s, i) == s[i..j] + RedactFrom(s, j)
    decreases j - i
  {
    if i < j {
      CopyOne(s, i);
      CopyUpTo(s, i + 1, j);
      Prepend(s, i, j, RedactFrom(s, j));
    }
  }

  lemma CopyRest(s: seq<Byte>, i: nat)
    requires i <= |s| && forall k :: i <= k < |s| ==> !WordAt(s, k)
    ensures RedactFrom(s, i) == s[i..|s|]
  {
    CopyUpTo(s, i, |s|);
  }

  lemma Prepend(s: seq<Byte>, i: nat, j: nat, rest: seq<Byte>)
    requires i < j <= |s|
    ensures [s[i]] + (s[i + 1..j] + rest) == s[i..j] + rest
  {
  }

  lemma WordStartsWithB(s: seq<Byte>, i: nat)
    requires WordAt(s, i)
    ensures Lower(s[i]) == BEARER[0] && s[i] < 0x80
  {
    assert Lower(s[i + 0]) == BEARER[0];
  }

  /** The word has no border, so no second one starts inside it. */
  lemma WordsDoNotOverlap(s: seq<Byte>, i: nat, k: nat)
    requires WordAt(s, i) && i < k < i + 6
    ensures !WordAt(s, k)
  {
    assert Lower(s[i + 1]) == BEARER[1] && Lower(s[i + 2]) == BEARER[2] && Lower(s[i + 3]) == BEARER[3]
        && Lower(s[i + 4]) == BEARER[4] && Lower(s[i + 5]) == BEARER[5];
    assert Lower(s[k]) != BEARER[0];
    assert k + 6 <= |s| ==> Lower(s[k + 0]) != BEARER[0];
  }

  /** No token starts between the cursor and an introduction at `at` that is not
      one itself, nor in the whitespace behind it. */
  lemma NothingSkipped(s: seq<Byte>, cursor: nat, at: nat, next: nat)
    requires cursor <= at && at + 6 <= next <= |s|
    requires forall k :: cursor <= k < at ==> !WordAt(s, k)
    requires WordAt(s, at) && !TokenAt(s, at)
    requires forall k :: at + 6 <= k < next ==> IsAsciiWhitespace(s[k])
    ensures RedactFrom(s, cursor) == s[cursor..next] + RedactFrom(s, next)
  {
    forall k | cursor <= k < next ensures !TokenAt(s, k) {
      if at < k < at + 6 {
        WordsDoNotOverlap(s, at, k);
      } else if at + 6 <= k && WordAt(s, k) {
        WordStartsWithB(s, k);
      }
    }
    CopyUpTo(s, cursor, next);
  }

  lemma TokenOne(s: seq<Byte>, at: nat)
    requires TokenAt(s, at)
    ensures var start := SkipAsciiWhitespace(s, at + 6);
            RedactFrom(s, at) == s[at..start] + BEARER_PLACEHOLDER + RedactFrom(s, TokenEnd(s, start))
  {
  }

  /** The next token found is the next one the scan replaces. */
  lemma NextToken(s: seq<Byte>, cursor: nat, at: nat, start: nat)
    requires cursor <= at && TokenAt(s, at) && start == SkipAsciiWhitespace(s, at + 6)
    requires forall k :: cursor <= k < at ==> !WordAt(s, k)
    ensures RedactFrom(s, cursor)
         == s[cursor..start] + BEARER_PLACEHOLDER + RedactFrom(s, TokenEnd(s, start))
  {
    CopyUpTo(s, cursor, at);
    TokenOne(s, at);
    JoinSlices(s, cursor, at, start, BEARER_PLACEHOLDER, RedactFrom(s, TokenEnd(s, start)));
  }

  lemma JoinSlices(s: seq<Byte>, i: nat, j: nat, k: nat, middle: seq<Byte>, rest: seq<Byte>)
    requires i <= j <= k <= |s|
    ensures s[i..j] + (s[j..k] + middle + rest) == s[i..k] + middle + rest
  {
  }

  lemma {:induction false} AsciiRun(s: seq<Byte>, i: nat, j: nat)
    requires i <= j <= |s| && ValidUtf8From(s, i)
    requires forall k :: i <= k < j ==> s[k] < 0x80
    ensures ValidUtf8From(s, j)
    decreases j - i
  {
    if i < j {
      AsciiRun(s, i + 1, j);
    }
  }

  lemma {:induction false} TokenEndStartsChar(s: seq<Byte>, i: nat)
    requires i <= |s| && ValidUtf8From(s, i)
    ensures ValidUtf8From(s, TokenEnd(s, i))
    decreases |s| - i
  {
    if i < |s| && !EndsToken(CodePoint(s, i)) {
      TokenEndStartsChar(s, i + CharWidth(s, i));
    }
  }

  /** From a boundary to the end of the whitespace behind an introduction everything is ASCII. */
  lemma WordIsAscii(s: seq<Byte>, from: nat, at: nat)
    requires from <= at && WordAt(s, at) && ValidUtf8From(s, from)
    ensures forall j :: at <= j <= SkipAsciiWhitespace(s, at + 6) ==> ValidUtf8From(s, j)
  {
    assert Lower(s[at + 0]) == BEARER[0];
    BoundaryStartsChar(s, from, at);
    forall k | at <= k < at + 6 ensures s[k] < 0x80 {
      assert Lower(s[at + (k - at)]) == BEARER[k - at];
    }
    forall j | at <= j <= SkipAsciiWhitespace(s, at + 6) ensures ValidUtf8From(s, j) {
      AsciiRun(s, at, j);
    }
  }

  /** One turn of the loop, for the occurrence of the word at `start`: what it
      appends and where it leaves the cursor. */
  method RedactStep(input: seq<Byte>, cursor: nat, start: nat) returns (piece: seq<Byte>, next: nat)
    requires cursor <= start && WordAt(input, start) && ValidUtf8From(input, cursor)
    requires forall k :: cursor <= k < start ==> !WordAt(input, k)
    ensures cursor < next <= |input| && ValidUtf8From(input, next)
    ensures RedactFrom(input, cursor) == piece + RedactFrom(input, next)
  {
    WordIsAscii(input, cursor, start);
    CharStartIsBoundary(input, cursor);
    CharStartIsBoundary(input, start + |BEARER|);
    var prefixIsBoundary := start == 0 || !IsAsciiAlphanumeric(input[start - 1]);
    var whitespaceStart := start + |BEARER|;
    if !prefixIsBoundary || whitespaceStart >= |input| || !IsAsciiWhitespace(input[whitespaceStart]) {
      NothingSkipped(input, cursor, start, whitespaceStart);
      return Slice(input, cursor, whitespaceStart), whitespaceStart;
    }
    var tokenStart := SkipWhitespace(input, whitespaceStart);
    CharStartIsBoundary(input, tokenStart);
    var tokenEnd := TokenEnd(input, tokenStart);
    if tokenEnd == tokenStart {
      NothingSkipped(input, cursor, start, tokenStart);
      return Slice(input, cursor, tokenStart), tokenStart;
    }
    NextToken(input, cursor, start, tokenStart);
    TokenEndStartsChar(input, tokenStart);
    return Slice(input, cursor, tokenStart) + BEARER_PLACEHOLDER, tokenEnd;
  }

  /** `redact_bearer_tokens`: the loop that jumps from one occurrence of the word
      to the next redacts what the byte-at-a-time scan does, and every slice it
      takes lies on character boundaries. */
  method RedactBearerTokens(input: seq<Byte>) returns (output: seq<Byte>)
    requires ValidUtf8(input)
    ensures output == RedactFrom(input, 0)
  {
    output := [];
    var cursor := 0;
    var found, start := FindWord(input, cursor);
    while found
      invariant cursor <= start <= |input| && ValidUtf8From(input, cursor)
      invariant found ==> WordAt(input, start)
      invariant !found ==> start == |input|
      invariant forall k :: cursor <= k < start ==> !WordAt(input, k)
      invariant RedactFrom(input, 0) == output + RedactFrom(input, cursor)
      decreases |input| - cursor
    {
      var piece, next := RedactStep(input, cursor, start);
      Regroup(output, piece, RedactFrom(input, next));
      output := output + piece;
      cursor := next;
      found, start := FindWord(input, cursor);
    }
    CopyRest(input, cursor);
    CharStartIsBoundary(input, cursor);
    output := output + Slice(input, cursor, |input|);
  }

  method SkipWhitespace(s: seq<Byte>, from: nat) returns (at: nat)
    requires from <= |s|
    ensures at == SkipAsciiWhitespace(s, from)
  {
    at := from;
    while at < |s| && IsAsciiWhitespace(s[at])
      invariant from <= at <= |s|
      invariant SkipAsciiWhitespace(s, at) == SkipAsciiWhitespace(s, from)
    {
      at := at + 1;
    }
  }
}
