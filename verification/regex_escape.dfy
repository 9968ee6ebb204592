/**
 * The `escapeRegex` helper of the listing endpoint, and the facts that make
 * its output safe to splice into a pattern: every regular-expression
 * metacharacter of the input comes out escaped, nothing else changes, and
 * removing the escapes gives the input back.
 */
module RegexEscape {

  /** The characters of the class `[-/\\^$*+?.()|[\]{}]`. */
  const Specials: string := "-/\\^$*+?.()|[]{}"

  predicate IsSpecial(c: char) {
    c in Specials
  }

  function CountSpecial(s: string): nat
  {
    if |s| == 0 then 0 else (if IsSpecial(s[0]) then 1 else 0) + CountSpecial(s[1..])
  }

  /**
   * `str.replace(/[-/\\^$*+?.()|[\]{}]/g, '\\$&')`: every special character is
   * preceded by a backslash; the output is as long as the input plus one for
   * each special character.
   */
  function Escape(s: string): (r: string)
    ensures |r| == |s| + CountSpecial(s)
    decreases |s|
  {
    if |s| == 0 then ""
    else (if IsSpecial(s[0]) then ['\\', s[0]] else [s[0]]) + Escape(s[1..])
  }

  /** Deletes the backslash of every escape pair `\c`, reading left to right. */
  function Unescape(p: string): string
    decreases |p|
  {
    if |p| == 0 then ""
    else if p[0] == '\\' && |p| >= 2 then [p[1]] + Unescape(p[2..])
    else [p[0]] + Unescape(p[1..])
  }

  /**
   * A pattern that denotes a literal string: every metacharacter in it is
   * escaped, and every backslash escapes a metacharacter, so it contains no
   * wildcard, anchor, group, class, quantifier or alternation.
   */
  predicate LiteralPattern(p: string)
    decreases |p|
  {
    if |p| == 0 then true
    else if p[0] == '\\' then |p| >= 2 && IsSpecial(p[1]) && LiteralPattern(p[2..])
    else !IsSpecial(p[0]) && LiteralPattern(p[1..])
  }

  /** Escaping always produces a literal pattern. */
  lemma {:induction false} EscapeIsLiteral(s: string)
    ensures LiteralPattern(Escape(s))
    decreases |s|
  {
    if |s| > 0 {
      EscapeIsLiteral(s[1..]);
      var r := Escape(s);
      if IsSpecial(s[0]) {
        assert r[2..] == Escape(s[1..]);
      } else {
        assert s[0] != '\\';
        assert r[1..] == Escape(s[1..]);
      }
    }
  }

  /** Removing the escapes recovers the input. */
  lemma {:induction false} UnescapeEscape(s: string)
    ensures Unescape(Escape(s)) == s
    decreases |s|
  {
    if |s| > 0 {
      UnescapeEscape(s[1..]);
      var r := Escape(s);
      if IsSpecial(s[0]) {
        assert r[2..] == Escape(s[1..]);
      } else {
        assert s[0] != '\\';
        assert r[1..] == Escape(s[1..]);
      }
      assert [s[0]] + s[1..] == s;
    }
  }

  /** Conversely, every literal pattern is the escaping of what it denotes. */
  lemma {:induction false} EscapeUnescape(p: string)
    requires LiteralPattern(p)
    ensures Escape(Unescape(p)) == p
    decreases |p|
  {
    if |p| > 0 {
      if p[0] == '\\' {
        EscapeUnescape(p[2..]);
        assert [p[0], p[1]] + p[2..] == p;
      } else {
        EscapeUnescape(p[1..]);
        assert [p[0]] + p[1..] == p;
      }
    }
  }

  /** Escaping is one-to-one: different inputs never give the same pattern. */
  lemma EscapeInjective(s: string, t: string)
    requires Escape(s) == Escape(t)
    ensures s == t
  {
    UnescapeEscape(s);
    UnescapeEscape(t);
  }

  /** Escaping leaves a string without special characters as it is. */
  lemma {:induction false} EscapePlain(s: string)
    requires forall i :: 0 <= i < |s| ==> !IsSpecial(s[i])
    ensures Escape(s) == s
    decreases |s|
  {
    if |s| > 0 {
      EscapePlain(s[1..]);
      assert [s[0]] + s[1..] == s;
    }
  }
}
