/** The lower-case hyphenated text form of a UUID (section 4 of RFC 9562). */
module Uuids {
  import opened Wrappers
  import opened Bytes
  import opened HistoryStore

  type Uuid = u: seq<Byte> | |u| == 16 witness seq(16, _ => 0)

  function HexChar(n: int): char
    requires 0 <= n < 16
  {
    if n < 10 then ('0' as int + n) as char else ('a' as int + n - 10) as char
  }

  function HexValue(c: char): Option<int> {
    if '0' <= c <= '9' then Some(c as int - '0' as int)
    else if 'a' <= c <= 'f' then Some(c as int - 'a' as int + 10)
    else None
  }

  predicate HyphenBefore(i: nat) {
    i == 4 || i == 6 || i == 8 || i == 10
  }

  function ByteText(b: Byte): string {
    [HexChar(b as int / 16), HexChar(b as int % 16)]
  }

  function ParseByte(digits: string): Option<Byte>
    requires |digits| == 2
  {
    match (HexValue(digits[0]), HexValue(digits[1]))
    case (Some(high), Some(low)) => Some((high * 16 + low) as Byte)
    case _ => None
  }

  lemma ByteTextRoundTrip(b: Byte)
    ensures ParseByte(ByteText(b)) == Some(b)
  {
    var n := b as int;
    assert HexValue(HexChar(n / 16)) == Some(n / 16) && HexValue(HexChar(n % 16)) == Some(n % 16);
    assert n / 16 * 16 + n % 16 == n;
  }

  /** The text of bytes `i` to the end. */
  function TextFrom(u: Uuid, i: nat): string
    requires i <= 16
    decreases 16 - i
  {
    if i == 16 then ""
    else
      var digits := ByteText(u[i]) + TextFrom(u, i + 1);
      if HyphenBefore(i) then ['-'] + digits else digits
  }

  function Text(u: Uuid): string {
    TextFrom(u, 0)
  }

  /** Reads the canonical form only. */
  function ParseFrom(s: string, i: nat): (r: Option<seq<Byte>>)
    requires i <= 16
    ensures r.Some? ==> |r.value| == 16 - i
    decreases 16 - i
  {
    if i == 16 then (if s == "" then Some([]) else None)
    else
      var digits := if HyphenBefore(i) then (if s != "" && s[0] == '-' then s[1..] else "") else s;
      if |digits| < 2 then None
      else
        match (ParseByte(digits[..2]), ParseFrom(digits[2..], i + 1))
        case (Some(b), Some(rest)) => Some([b] + rest)
        case _ => None
  }

  function Parse(s: string): Option<Uuid> {
    match ParseFrom(s, 0)
    case Some(u) => Some(u)
    case None => None
  }

  lemma ParsesOneMore(u: Uuid, i: nat, rest: string)
    requires i < 16 && ParseFrom(rest, i + 1) == Some(u[i + 1..])
    ensures ParseFrom(if HyphenBefore(i) then ['-'] + (ByteText(u[i]) + rest) else ByteText(u[i]) + rest, i)
         == Some(u[i..])
  {
    var digits := ByteText(u[i]) + rest;
    assert |ByteText(u[i])| == 2;
    ByteTextRoundTrip(u[i]);
    hide ByteText, ParseByte, HyphenBefore;
    assert digits[..2] == ByteText(u[i]) && digits[2..] == rest;
    assert (['-'] + digits)[1..] == digits;
    assert [u[i]] + u[i + 1..] == u[i..];
  }

  lemma {:induction false} ParseReadsText(u: Uuid, i: nat)
    requires i <= 16
    ensures ParseFrom(TextFrom(u, i), i) == Some(u[i..])
    decreases 16 - i
  {
    if i < 16 {
      ParseReadsText(u, i + 1);
      ParsesOneMore(u, i, TextFrom(u, i + 1));
      hide ParseFrom, ByteText, HyphenBefore;
    } else {
      assert u[i..] == [];
    }
  }

  /** Writing an identity and reading it back is the identity. */
  lemma TextRoundTrip(u: Uuid)
    ensures Parse(Text(u)) == Some(u)
  {
    ParseReadsText(u, 0);
    assert u[0..] == u;
  }

  predicate BytesLess(u: seq<Byte>, v: seq<Byte>) {
    v != [] && (u == [] || u[0] < v[0] || (u[0] == v[0] && BytesLess(u[1..], v[1..])))
  }

  lemma HeadOrder(c: char, d: char, s: string, t: string)
    ensures StringLess([c] + s, [d] + t) <==> c < d || (c == d && StringLess(s, t))
  {
    assert ([c] + s)[1..] == s && ([d] + t)[1..] == t;
  }

  lemma HexPairOrder(a: Byte, b: Byte, s: string, t: string)
    ensures StringLess(ByteText(a) + s, ByteText(b) + t) <==> a < b || (a == b && StringLess(s, t))
  {
    var (a1, a2) := (HexChar(a as int / 16), HexChar(a as int % 16));
    var (b1, b2) := (HexChar(b as int / 16), HexChar(b as int % 16));
    HeadOrder(a1, b1, [a2] + s, [b2] + t);
    HeadOrder(a2, b2, s, t);
    assert ByteText(a) + s == [a1] + ([a2] + s) && ByteText(b) + t == [b1] + ([b2] + t);
  }

  lemma {:induction false} TextOrderFrom(u: Uuid, v: Uuid, i: nat)
    requires i <= 16
    ensures StringLess(TextFrom(u, i), TextFrom(v, i)) <==> BytesLess(u[i..], v[i..])
    decreases 16 - i
  {
    if i < 16 {
      var (s, t) := (TextFrom(u, i + 1), TextFrom(v, i + 1));
      TextOrderFrom(u, v, i + 1);
      HexPairOrder(u[i], v[i], s, t);
      HeadOrder('-', '-', ByteText(u[i]) + s, ByteText(v[i]) + t);
      assert u[i..][1..] == u[i + 1..] && v[i..][1..] == v[i + 1..];
    }
  }

  /** The store orders identities by their text, the controller by their bytes: the same order. */
  lemma TextOrderIsByteOrder(u: Uuid, v: Uuid)
    ensures StringLess(Text(u), Text(v)) <==> BytesLess(u, v)
  {
    TextOrderFrom(u, v, 0);
    assert u[0..] == u && v[0..] == v;
  }

  // ---------------------------------------------------------------- the form itself

  lemma ByteOfText(digits: string)
    requires |digits| == 2 && ParseByte(digits).Some?
    ensures ByteText(ParseByte(digits).value) == digits
  {
  }

  lemma {:induction false} ParsedIsText(s: string, u: Uuid, i: nat)
    requires i <= 16 && ParseFrom(s, i) == Some(u[i..])
    ensures s == TextFrom(u, i)
    decreases 16 - i
  {
    if i < 16 {
      var digits := if HyphenBefore(i) then (if s != "" && s[0] == '-' then s[1..] else "") else s;
      var b, rest := ParseByte(digits[..2]).value, ParseFrom(digits[2..], i + 1).value;
      assert u[i..] == [b] + rest;
      assert u[i..][0] == b == u[i] && u[i..][1..] == rest == u[i + 1..];
      ByteOfText(digits[..2]);
      hide ParseByte, ByteText, ParseFrom;
      ParsedIsText(digits[2..], u, i + 1);
      assert digits == digits[..2] + digits[2..];
      assert HyphenBefore(i) ==> s == ['-'] + digits;
    }
  }

  /** Of an identity exactly its text reads as the identity. */
  lemma ParseIff(s: string, u: Uuid)
    ensures Parse(s) == Some(u) <==> s == Text(u)
  {
    if Parse(s) == Some(u) {
      assert u[0..] == u;
      ParsedIsText(s, u, 0);
    }
    TextRoundTrip(u);
  }

  /** Digits are lower-case, the high one first. */
  lemma ByteSpelled(b: Byte)
    ensures ByteText(b) == ["0123456789abcdef"[b as int / 16], "0123456789abcdef"[b as int % 16]]
  {
  }

  /** Hyphens still to come before byte `i` and the later ones. */
  function Hyphens(i: nat): nat {
    if i <= 4 then 4 else if i <= 6 then 3 else if i <= 8 then 2 else if i <= 10 then 1 else 0
  }

  /** Counted from the end, the hyphens stand at 13, 18, 23 and 28. */
  lemma {:induction false} HyphensFromEnd(u: Uuid, i: nat)
    requires i <= 16
    ensures var t := TextFrom(u, i);
            && |t| == 2 * (16 - i) + Hyphens(i)
            && HyphensStand(t)
    decreases 16 - i
  {
    if i < 16 {
      HyphensFromEnd(u, i + 1);
      var rest := TextFrom(u, i + 1);
      var digits := ByteText(u[i]) + rest;
      assert TextFrom(u, i) == if HyphenBefore(i) then ['-'] + digits else digits;
      assert |ByteText(u[i])| == 2 && ByteText(u[i])[0] != '-' && ByteText(u[i])[1] != '-';
      hide TextFrom, ByteText, HyphensStand;
      LengthsFit(i);
      hide Hyphens, HyphenBefore;
      NoHyphenAdded(ByteText(u[i]), rest);
      if HyphenBefore(i) {
        HyphenAdded(digits);
      }
    }
  }

  lemma LengthsFit(i: nat)
    requires i < 16
    ensures var n := 2 * (16 - (i + 1)) + Hyphens(i + 1);
            && n + 1 !in {13, 18, 23, 28} && n + 2 !in {13, 18, 23, 28}
            && (HyphenBefore(i) ==> n + 3 in {13, 18, 23, 28} && Hyphens(i) == Hyphens(i + 1) + 1)
            && (!HyphenBefore(i) ==> Hyphens(i) == Hyphens(i + 1))
  {
  }

  predicate HyphensStand(t: string) {
    forall j :: 0 <= j < |t| ==> (t[j] == '-' <==> |t| - j in {13, 18, 23, 28})
  }

  lemma NoHyphenAdded(two: string, rest: string)
    requires |two| == 2 && two[0] != '-' && two[1] != '-' && HyphensStand(rest)
    requires |rest| + 1 !in {13, 18, 23, 28} && |rest| + 2 !in {13, 18, 23, 28}
    ensures HyphensStand(two + rest)
  {
    var t := two + rest;
    assert forall j :: 2 <= j < |t| ==> t[j] == rest[j - 2];
  }

  lemma HyphenAdded(digits: string)
    requires HyphensStand(digits) && |digits| + 1 in {13, 18, 23, 28}
    ensures HyphensStand(['-'] + digits)
  {
    var t := ['-'] + digits;
    assert forall j :: 1 <= j < |t| ==> t[j] == digits[j - 1];
  }

  /** The text has 36 characters, with hyphens after 8, 4, 4 and 4 digits. */
  lemma TextSpelled(u: Uuid)
    ensures |Text(u)| == 36 && forall j :: 0 <= j < 36 ==> (Text(u)[j] == '-' <==> j in {8, 13, 18, 23})
  {
    HyphensFromEnd(u, 0);
  }
}
