/** Identifier sanitising of the code generator (`fixIllegalCharsInVars`,
    src/q4.ts:45-46): three global replacements, of '-', '>' and '?', in
    that order. Two different identifiers may sanitise to the same text;
    that is not detected. */
module Identifiers {

  /** `s.replace(/c/gi, rep)`: every occurrence of `c` replaced by `rep`. */
  function ReplaceAll(s: string, c: char, rep: string): (r: string)
    ensures c !in rep ==> c !in r
    ensures c !in s ==> r == s
  {
    if s == [] then []
    else (if s[0] == c then rep else [s[0]]) + ReplaceAll(s[1..], c, rep)
  }

  /** `fixIllegalCharsInVars`. */
  function Sanitize(name: string): string {
    ReplaceAll(ReplaceAll(ReplaceAll(name, '-', "_"), '>', "_right_arrow_"), '?', "_question_mark_")
  }

  /** The characters the three passes rewrite. */
  predicate Rewritten(c: char) {
    c == '-' || c == '>' || c == '?'
  }

  /** `s` holds none of the rewritten characters. This is not JavaScript
      identifier legality: '!', '*', '/', '<' and '=' are kept as they are. */
  predicate NoRewrittenChar(s: string) {
    forall i :: 0 <= i < |s| ==> !Rewritten(s[i])
  }

  /** The replacement of one character, independently of the others. */
  function CharText(c: char): string {
    if c == '-' then "_"
    else if c == '>' then "_right_arrow_"
    else if c == '?' then "_question_mark_"
    else [c]
  }

  /** The reference definition: each character replaced on its own. */
  function PerChar(s: string): string {
    if s == [] then [] else CharText(s[0]) + PerChar(s[1..])
  }

  lemma {:induction false} ReplaceAllAppend(a: string, b: string, c: char, rep: string)
    ensures ReplaceAll(a + b, c, rep) == ReplaceAll(a, c, rep) + ReplaceAll(b, c, rep)
  {
    if a != [] {
      var h := if a[0] == c then rep else [a[0]];
      assert (a + b)[0] == a[0];
      assert (a + b)[1..] == a[1..] + b;
      ReplaceAllAppend(a[1..], b, c, rep);
      assert ReplaceAll(a + b, c, rep) == h + (ReplaceAll(a[1..], c, rep) + ReplaceAll(b, c, rep));
    } else {
      assert a + b == b;
    }
  }

  lemma SanitizeAppend(a: string, b: string)
    ensures Sanitize(a + b) == Sanitize(a) + Sanitize(b)
  {
    ReplaceAllAppend(a, b, '-', "_");
    var a1, b1 := ReplaceAll(a, '-', "_"), ReplaceAll(b, '-', "_");
    ReplaceAllAppend(a1, b1, '>', "_right_arrow_");
    ReplaceAllAppend(ReplaceAll(a1, '>', "_right_arrow_"), ReplaceAll(b1, '>', "_right_arrow_"), '?', "_question_mark_");
  }

  lemma ReplaceAllOne(x: char, c: char, rep: string)
    ensures ReplaceAll([x], c, rep) == if x == c then rep else [x]
  {
    assert [x][1..] == [];
  }

  lemma SanitizeChar(c: char)
    ensures Sanitize([c]) == CharText(c)
  {
    ReplaceAllOne(c, '-', "_");
    var u1 := ReplaceAll([c], '-', "_");
    if c == '-' {
      assert '>' !in u1 && '?' !in u1;
    } else {
      ReplaceAllOne(c, '>', "_right_arrow_");
      if c == '>' {
        assert '?' !in "_right_arrow_";
      } else {
        ReplaceAllOne(c, '?', "_question_mark_");
      }
    }
  }

  /** The three passes in a row replace each character on its own: no pass
      introduces a character a later pass rewrites. */
  lemma {:induction false} SanitizeIsPerChar(s: string)
    ensures Sanitize(s) == PerChar(s)
  {
    if s != [] {
      assert s == [s[0]] + s[1..];
      SanitizeAppend([s[0]], s[1..]);
      SanitizeChar(s[0]);
      SanitizeIsPerChar(s[1..]);
    }
  }

  lemma CharTextClean(c: char)
    ensures NoRewrittenChar(CharText(c))
  {
  }

  lemma CleanConcat(h: string, t: string)
    requires NoRewrittenChar(h) && NoRewrittenChar(t)
    ensures NoRewrittenChar(h + t)
  {
    forall i | 0 <= i < |h + t| ensures !Rewritten((h + t)[i]) {
      if i >= |h| { assert (h + t)[i] == t[i - |h|]; }
    }
  }

  lemma {:induction false} PerCharIsClean(s: string)
    ensures NoRewrittenChar(PerChar(s))
  {
    if s != [] {
      PerCharIsClean(s[1..]);
      CharTextClean(s[0]);
      CleanConcat(CharText(s[0]), PerChar(s[1..]));
    }
  }

  lemma {:induction false} PerCharKeepsClean(s: string)
    requires NoRewrittenChar(s)
    ensures PerChar(s) == s
  {
    if s != [] {
      assert NoRewrittenChar(s[1..]) by {
        forall i | 0 <= i < |s[1..]| ensures !Rewritten(s[1..][i]) { assert s[1..][i] == s[i + 1]; }
      }
      PerCharKeepsClean(s[1..]);
      assert !Rewritten(s[0]);
    }
  }

  /** The sanitised text holds none of '-', '>' and '?'. */
  lemma SanitizeIsClean(s: string)
    ensures NoRewrittenChar(Sanitize(s))
  {
    SanitizeIsPerChar(s);
    PerCharIsClean(s);
  }

  /** A name without '-', '>' and '?' is left as it is. */
  lemma SanitizeKeepsClean(s: string)
    requires NoRewrittenChar(s)
    ensures Sanitize(s) == s
  {
    SanitizeIsPerChar(s);
    PerCharKeepsClean(s);
  }

  /** Sanitising twice is sanitising once. */
  lemma SanitizeIdempotent(s: string)
    ensures Sanitize(Sanitize(s)) == Sanitize(s)
  {
    SanitizeIsClean(s);
    SanitizeKeepsClean(Sanitize(s));
  }
}
