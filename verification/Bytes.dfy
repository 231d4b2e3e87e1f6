/** Bytes and the part of UTF-8 (section 3 of RFC 3629) that string slicing relies on. */
module Bytes {

  newtype Byte = x: int | 0 <= x < 256

  lemma Regroup(left: seq<Byte>, middle: seq<Byte>, right: seq<Byte>)
    ensures left + (middle + right) == left + middle + right
  {
  }

  predicate IsContinuation(b: Byte) {
    0x80 <= b < 0xC0
  }

  predicate ContinuationAt(s: seq<Byte>, i: nat, low: Byte, high: Byte) {
    i < |s| && low <= s[i] <= high
  }

  /** Length of the well-formed character that starts at `i`; 0 when there is none. */
  function WellFormedWidth(s: seq<Byte>, i: nat): (w: nat)
    requires i < |s|
    ensures i + w <= |s|
  {
    var b := s[i];
    if b < 0x80 then 1
    else if 0xC2 <= b <= 0xDF && ContinuationAt(s, i + 1, 0x80, 0xBF) then 2
    else if 0xE0 <= b <= 0xEF
         && ContinuationAt(s, i + 1, if b == 0xE0 then 0xA0 else 0x80, if b == 0xED then 0x9F else 0xBF)
         && ContinuationAt(s, i + 2, 0x80, 0xBF) then 3
    else if 0xF0 <= b <= 0xF4
         && ContinuationAt(s, i + 1, if b == 0xF0 then 0x90 else 0x80, if b == 0xF4 then 0x8F else 0xBF)
         && ContinuationAt(s, i + 2, 0x80, 0xBF) && ContinuationAt(s, i + 3, 0x80, 0xBF) then 4
    else 0
  }

  /** The bytes from `i` on are a sequence of well-formed characters. */
  predicate ValidUtf8From(s: seq<Byte>, i: nat)
    requires i <= |s|
    decreases |s| - i
  {
    i == |s| || (WellFormedWidth(s, i) > 0 && ValidUtf8From(s, i + WellFormedWidth(s, i)))
  }

  predicate ValidUtf8(s: seq<Byte>) {
    ValidUtf8From(s, 0)
  }

  /** `str::is_char_boundary`, which every string slice asserts. */
  predicate IsCharBoundary(s: seq<Byte>, i: nat) {
    i == 0 || i == |s| || (i < |s| && !IsContinuation(s[i]))
  }

  /** Width of the character at `i`, counting an ill-formed byte as one character. */
  function CharWidth(s: seq<Byte>, i: nat): (w: nat)
    requires i < |s|
    ensures 0 < w && i + w <= |s|
  {
    if WellFormedWidth(s, i) == 0 then 1 else WellFormedWidth(s, i)
  }

  function CodePoint(s: seq<Byte>, i: nat): int
    requires i < |s|
  {
    var b := s[i] as int;
    match WellFormedWidth(s, i)
    case 2 => (b - 0xC0) * 0x40 + (s[i + 1] as int - 0x80)
    case 3 => (b - 0xE0) * 0x1000 + (s[i + 1] as int - 0x80) * 0x40 + (s[i + 2] as int - 0x80)
    case 4 => (b - 0xF0) * 0x40000 + (s[i + 1] as int - 0x80) * 0x1000
              + (s[i + 2] as int - 0x80) * 0x40 + (s[i + 3] as int - 0x80)
    case _ => b
  }

  /** The Unicode `White_Space` property. */
  predicate IsWhitespace(c: int) {
    || 0x09 <= c <= 0x0D || c == 0x20 || c == 0x85 || c == 0xA0 || c == 0x1680
    || 0x2000 <= c <= 0x200A || c == 0x2028 || c == 0x2029 || c == 0x202F || c == 0x205F
    || c == 0x3000
  }

  /** One by one: 25 characters. */
  lemma WhitespaceListed(c: int)
    ensures IsWhitespace(c)
       <==> c in {9, 10, 11, 12, 13, 32, 133, 160, 5760, 8192, 8193, 8194, 8195, 8196, 8197, 8198, 8199, 8200,
                  8201, 8202, 8232, 8233, 8239, 8287, 12288}
  {
  }

  /** Trimming the text leaves nothing. */
  predicate IsBlank(text: string) {
    forall i :: 0 <= i < |text| ==> IsWhitespace(text[i] as int)
  }

  /** In valid text the byte test for a boundary finds exactly the starts of characters. */
  lemma {:induction false} BoundaryStartsChar(s: seq<Byte>, from: nat, i: nat)
    requires from <= i <= |s| && ValidUtf8From(s, from)
    requires i == from || i == |s| || !IsContinuation(s[i])
    ensures ValidUtf8From(s, i)
    decreases |s| - from
  {
    if from < i {
      var next := from + WellFormedWidth(s, from);
      assert forall k :: from < k < next ==> IsContinuation(s[k]);
      BoundaryStartsChar(s, next, i);
    }
  }

  lemma CharStartIsBoundary(s: seq<Byte>, i: nat)
    requires i <= |s| && ValidUtf8From(s, i)
    ensures IsCharBoundary(s, i)
  {
  }

  // ---------------------------------------------------------------- building valid text

  lemma {:induction false} AsciiIsValid(s: seq<Byte>, i: nat)
    requires i <= |s| && forall k :: 0 <= k < |s| ==> s[k] < 0x80
    ensures ValidUtf8From(s, i)
    decreases |s| - i
  {
    if i < |s| {
      AsciiIsValid(s, i + 1);
    }
  }

  lemma WidthIsLocal(s: seq<Byte>, i: nat, t: seq<Byte>, j: nat)
    requires i < |s| && WellFormedWidth(s, i) > 0 && j + WellFormedWidth(s, i) <= |t|
    requires t[j..j + WellFormedWidth(s, i)] == s[i..i + WellFormedWidth(s, i)]
    ensures WellFormedWidth(t, j) == WellFormedWidth(s, i)
  {
    var w := WellFormedWidth(s, i);
    assert t[j..j + w][0] == t[j];
    assert w > 1 ==> t[j..j + w][1] == t[j + 1];
    assert w > 2 ==> t[j..j + w][2] == t[j + 2];
    assert w > 3 ==> t[j..j + w][3] == t[j + 3];
  }

  lemma {:induction false} ValidShift(head: seq<Byte>, u: seq<Byte>, k: nat)
    requires k <= |u| && ValidUtf8From(u, k)
    ensures ValidUtf8From(head + u, |head| + k)
    decreases |u| - k
  {
    if k < |u| {
      WidthIsLocal(u, k, head + u, |head| + k);
      ValidShift(head, u, k + WellFormedWidth(u, k));
    }
  }

  /** Valid text cut out between two boundaries and put before valid text is valid. */
  lemma {:induction false} ValidPrepend(s: seq<Byte>, i: nat, end: nat, rest: seq<Byte>)
    requires i <= end <= |s| && ValidUtf8From(s, i) && ValidUtf8(rest)
    requires end == |s| || !IsContinuation(s[end])
    ensures ValidUtf8(s[i..end] + rest)
    decreases end - i
  {
    if i == end {
      assert s[i..end] + rest == rest;
    } else {
      var w := WellFormedWidth(s, i);
      assert forall k :: i < k < i + w ==> IsContinuation(s[k]);
      assert i + w <= end;
      var u := s[i + w..end] + rest;
      ValidPrepend(s, i + w, end, rest);
      SplitSlice(s, i, i + w, end, rest);
      WidthIsLocal(s, i, s[i..i + w] + u, 0);
      ValidShift(s[i..i + w], u, 0);
    }
  }

  lemma SliceOfSlice(s: seq<Byte>, a: nat, b: nat, i: nat, j: nat)
    requires a <= b <= |s| && i <= j <= b - a
    ensures s[a..b][i..j] == s[a + i..a + j]
  {
    var t := s[a..b];
    forall k | 0 <= k < j - i ensures t[i..j][k] == s[a + i..a + j][k] {
      assert t[i..j][k] == t[i + k];
    }
  }

  lemma SplitSlice(s: seq<Byte>, i: nat, j: nat, k: nat, rest: seq<Byte>)
    requires i <= j <= k <= |s|
    ensures s[i..k] + rest == s[i..j] + (s[j..k] + rest)
  {
  }

  /** Reading over a copy of valid text ends where a character starts. */
  lemma {:induction false} ValidBehindCopy(s: seq<Byte>, i: nat, copy: seq<Byte>, k: nat)
    requires i + |copy| <= |s| && k <= |copy| && s[i..i + |copy|] == copy
    requires ValidUtf8From(copy, k) && ValidUtf8From(s, i + k)
    ensures ValidUtf8From(s, i + |copy|)
    decreases |copy| - k
  {
    if k < |copy| {
      var w := WellFormedWidth(copy, k);
      assert s[i..i + |copy|][k..k + w] == s[i + k..i + k + w];
      WidthIsLocal(copy, k, s, i + k);
      ValidBehindCopy(s, i, copy, k + WellFormedWidth(copy, k));
    }
  }
}
