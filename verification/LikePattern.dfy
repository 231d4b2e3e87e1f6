/** Namespace selection in the secret table: a caller-supplied prefix is escaped
    into a SQLite LIKE pattern, and the rows that match it are deleted. */
module LikePattern {

  /** SQLite compares LIKE literals without ASCII case. */
  function Fold(c: char): char {
    if 'A' <= c <= 'Z' then (c as int + 32) as char else c
  }

  /** `pattern LIKE text ESCAPE '\'`. */
  predicate Like(pattern: string, text: string)
    decreases |pattern| + |text|
  {
    if pattern == "" then text == ""
    else if pattern[0] == '%' then
      Like(pattern[1..], text) || (text != "" && Like(pattern, text[1..]))
    else if pattern[0] == '_' then
      text != "" && Like(pattern[1..], text[1..])
    else if pattern[0] == '\\' then
      && |pattern| > 1 && text != ""
      && Fold(pattern[1]) == Fold(text[0])
      && Like(pattern[2..], text[1..])
    else
      text != "" && Fold(pattern[0]) == Fold(text[0]) && Like(pattern[1..], text[1..])
  }

  /** `str::replace` of one character by a string. */
  function Replace(s: string, from: char, to: string): string {
    if s == "" then "" else (if s[0] == from then to else [s[0]]) + Replace(s[1..], from, to)
  }

  function EscapeLikePattern(value: string): string {
    Replace(Replace(Replace(value, '\\', "\\\\"), '%', "\\%"), '_', "\\_")
  }

  /** The rows a namespace operation selects. */
  predicate InNamespace(ns: string, id: string) {
    Like(EscapeLikePattern(ns) + "%", id)
  }

  // ---------------------------------------------------------------- escaping

  lemma {:induction false} ReplaceConcat(s: string, t: string, from: char, to: string)
    ensures Replace(s + t, from, to) == Replace(s, from, to) + Replace(t, from, to)
  {
    if s == "" {
      assert s + t == t;
    } else {
      assert (s + t)[1..] == s[1..] + t;
      ReplaceConcat(s[1..], t, from, to);
    }
  }

  predicate IsSpecial(c: char) {
    c == '\\' || c == '%' || c == '_'
  }

  /** One character escaped on its own. */
  function EscapeChar(c: char): string {
    if IsSpecial(c) then ['\\', c] else [c]
  }

  lemma EscapeOne(c: char)
    ensures EscapeLikePattern([c]) == EscapeChar(c)
  {
    if c == '\\' {
      assert Replace([c], '\\', "\\\\") == "\\\\";
      assert Replace("\\\\", '%', "\\%") == "\\\\" by {
        assert "\\\\"[1..] == "\\";
      }
      assert Replace("\\\\", '_', "\\_") == "\\\\" by {
        assert "\\\\"[1..] == "\\";
      }
    } else if c == '%' {
      assert "\\%"[1..] == "%";
      assert Replace("\\%", '_', "\\_") == "\\%";
    }
  }

  /** The three whole-string replacements do not disturb one another: together
      they escape character by character. In particular the backslashes that the
      second and third insert are not escaped again. */
  lemma {:induction false} EscapeIsPerCharacter(head: char, tail: string)
    ensures EscapeLikePattern([head] + tail) == EscapeChar(head) + EscapeLikePattern(tail)
  {
    var a, b := Replace([head], '\\', "\\\\"), Replace(tail, '\\', "\\\\");
    ReplaceConcat([head], tail, '\\', "\\\\");
    ReplaceConcat(a, b, '%', "\\%");
    ReplaceConcat(Replace(a, '%', "\\%"), Replace(b, '%', "\\%"), '_', "\\_");
    EscapeOne(head);
  }

  // ---------------------------------------------------------------- matching

  predicate HasPrefixIgnoringAsciiCase(id: string, ns: string) {
    |ns| <= |id| && forall i :: 0 <= i < |ns| ==> Fold(id[i]) == Fold(ns[i])
  }

  lemma {:induction false} PercentMatchesAll(text: string)
    ensures Like("%", text)
  {
    assert "%"[1..] == "";
    if text != "" {
      PercentMatchesAll(text[1..]);
    }
  }

  /** For every namespace, wildcards and backslashes included, the selected ids
      are exactly those that start with it up to ASCII case. */
  lemma {:induction false} NamespaceIsPrefix(ns: string, id: string)
    ensures InNamespace(ns, id) <==> HasPrefixIgnoringAsciiCase(id, ns)
    decreases |ns|
  {
    if ns == "" {
      assert EscapeLikePattern(ns) + "%" == "%";
      PercentMatchesAll(id);
    } else {
      var tail := EscapeLikePattern(ns[1..]) + "%";
      EscapeIsPerCharacter(ns[0], ns[1..]);
      assert [ns[0]] + ns[1..] == ns;
      assert EscapeLikePattern(ns) + "%" == EscapeChar(ns[0]) + tail;
      EscapedCharMatches(ns[0], tail, id);
      if id != "" {
        NamespaceIsPrefix(ns[1..], id[1..]);
        PrefixStep(id, ns);
      }
    }
  }

  lemma EscapedCharMatches(c: char, tail: string, text: string)
    ensures Like(EscapeChar(c) + tail, text)
       <==> text != "" && Fold(c) == Fold(text[0]) && Like(tail, text[1..])
  {
    if IsSpecial(c) {
      assert (EscapeChar(c) + tail)[2..] == tail;
    } else {
      assert (EscapeChar(c) + tail)[1..] == tail;
    }
  }

  lemma PrefixStep(id: string, ns: string)
    requires id != "" && ns != ""
    ensures HasPrefixIgnoringAsciiCase(id, ns)
       <==> Fold(id[0]) == Fold(ns[0]) && HasPrefixIgnoringAsciiCase(id[1..], ns[1..])
  {
    if Fold(id[0]) == Fold(ns[0]) && HasPrefixIgnoringAsciiCase(id[1..], ns[1..]) {
      forall i | 0 <= i < |ns| ensures Fold(id[i]) == Fold(ns[i]) {
        if i > 0 {
          assert id[i] == id[1..][i - 1] && ns[i] == ns[1..][i - 1];
        }
      }
    }
  }

  /** The check `secret_id.starts_with(namespace)` is case sensitive and so
      strictly narrower than the pattern: it guarantees that the written id is
      itself selected. */
  lemma StartsWithIsSelected(ns: string, id: string)
    requires ns <= id
    ensures InNamespace(ns, id)
  {
    NamespaceIsPrefix(ns, id);
  }
}
