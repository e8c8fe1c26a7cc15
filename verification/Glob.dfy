/**
 * The glob translator and matcher of src/ignore_utils.cpp (glob_to_regex,
 * matches). The emitted text is given its meaning by a parser and matcher for
 * the flat part of the regular expressions of ECMA-262, 3rd edition, section
 * 15.10.2, and the glob its own, so the translation can be compared with what
 * it translates.
 */
module Glob {
  import opened Basics

  // ---------------------------------------------------------------- what a glob means

  /** Every character of s from i up to k satisfies "not a slash". */
  predicate NoSlash(s: string) {
    forall i :: 0 <= i < |s| ==> s[i] != '/'
  }

  /**
   * `**` stands for any text, `*` for any text without a slash, `?` for one
   * character that is not a slash, every other character for itself.
   */
  ghost predicate GlobMatches(pattern: string, s: string)
    decreases |pattern|
  {
    if pattern == "" then s == ""
    else if pattern[0] == '*' && |pattern| > 1 && pattern[1] == '*' then
      exists k :: 0 <= k <= |s| && GlobMatches(pattern[2..], s[k..])
    else if pattern[0] == '*' then
      exists k :: 0 <= k <= |s| && NoSlash(s[..k]) && GlobMatches(pattern[1..], s[k..])
    else if pattern[0] == '?' then
      s != "" && s[0] != '/' && GlobMatches(pattern[1..], s[1..])
    else
      s != "" && s[0] == pattern[0] && GlobMatches(pattern[1..], s[1..])
  }

  /** A wildcard-free text in front of a pattern stands for itself. */
  lemma {:induction false} GlobAfterText(text: string, pattern: string, s: string)
    requires '*' !in text && '?' !in text
    ensures GlobMatches(text + pattern, s) <==> text <= s && GlobMatches(pattern, s[|text|..])
    decreases |text|
  {
    if text == "" {
      assert text + pattern == pattern && s[0..] == s;
    } else {
      var whole := text + pattern;
      assert whole[0] == text[0] && whole[1..] == text[1..] + pattern;
      assert forall i :: 1 <= i < |text| ==> text[1..][i - 1] == text[i];
      if s != "" {
        GlobAfterText(text[1..], pattern, s[1..]);
        assert text <= s <==> text[0] == s[0] && text[1..] <= s[1..] by { PrefixCons(text, s); }
        if text <= s { assert s[1..][|text| - 1..] == s[|text|..]; }
      }
    }
  }

  lemma PrefixCons(a: string, b: string)
    requires a != "" && b != ""
    ensures a <= b <==> a[0] == b[0] && a[1..] <= b[1..]
  {
    if a[0] == b[0] && a[1..] <= b[1..] {
      assert a == [a[0]] + a[1..] && b == [b[0]] + b[1..];
    }
  }

  /** `?`, `*` and `**` on their own. */
  lemma WildcardsAlone(s: string)
    ensures GlobMatches("?", s) <==> |s| == 1 && s[0] != '/'
    ensures GlobMatches("*", s) <==> '/' !in s
    ensures GlobMatches("**", s)
  {
    assert "?"[1..] == "" && "*"[1..] == "" && "**"[2..] == "";
    assert s[|s|..] == "" && s[..|s|] == s;
    assert forall k :: 0 <= k <= |s| && s[k..] == "" ==> k == |s|;
  }

  // ---------------------------------------------------------------- the translation

  /** What one character, or one `**`, is translated to. */
  function Piece(c: char): string {
    if c == '*' then "[^/]*"
    else if c == '?' then "[^/]"
    else if c == '.' then "\\."
    else if c == '\\' then "\\\\"
    else [c]
  }

  function Body(pattern: string): string
    decreases |pattern|
  {
    if pattern == "" then ""
    else if pattern[0] == '*' && |pattern| > 1 && pattern[1] == '*' then ".*" + Body(pattern[2..])
    else Piece(pattern[0]) + Body(pattern[1..])
  }

  function Translation(pattern: string): string {
    "^" + Body(pattern) + "$"
  }

  /** glob_to_regex: the index loop that builds `rx`. */
  method GlobToRegex(pattern: string) returns (rx: string)
    ensures rx == Translation(pattern)
  {
    rx := "^";
    var i := 0;
    while i < |pattern|
      invariant 0 <= i <= |pattern|
      invariant rx + Body(pattern[i..]) == "^" + Body(pattern)
    {
      var c := pattern[i];
      ghost var before, start := rx, i;
      if c == '*' {
        if i + 1 < |pattern| && pattern[i + 1] == '*' {
          rx := rx + ".*";
          i := i + 1;
        } else {
          rx := rx + "[^/]*";
        }
      } else if c == '?' {
        rx := rx + "[^/]";
      } else if c == '.' {
        rx := rx + "\\.";
      } else if c == '\\' {
        rx := rx + "\\\\";
      } else {
        rx := rx + [c];
      }
      i := i + 1;
      BodyFrom(before, pattern, start);
    }
    rx := rx + "$";
  }

  /** The text an index of the pattern adds. */
  lemma BodyFrom(before: string, pattern: string, i: nat)
    requires i < |pattern|
    ensures before + Body(pattern[i..]) ==
            if pattern[i] == '*' && i + 1 < |pattern| && pattern[i + 1] == '*' then (before + ".*") + Body(pattern[i + 2..])
            else (before + Piece(pattern[i])) + Body(pattern[i + 1..])
  {
    var rest := pattern[i..];
    if pattern[i] == '*' && i + 1 < |pattern| && pattern[i + 1] == '*' {
      assert rest[1] == pattern[i + 1] && rest[2..] == pattern[i + 2..];
      Assoc(before, ".*", Body(pattern[i + 2..]));
    } else {
      assert rest[1..] == pattern[i + 1..] && (|rest| > 1 ==> rest[1] == pattern[i + 1]);
      Assoc(before, Piece(pattern[i]), Body(pattern[i + 1..]));
    }
  }

  lemma Assoc(a: string, b: string, c: string)
    ensures a + (b + c) == (a + b) + c
  {
  }

  // ---------------------------------------------------------------- regular expressions

  /** One-character matchers: an ordinary or escaped character, the dot, or the class [^c]. */
  datatype Atom = Lit(c: char) | Dot | Not(c: char)

  datatype Term = Begin | End | One(a: Atom) | Star(a: Atom) | Plus(a: Atom)

  type Alternative = seq<Term>

  predicate LineTerminator(c: char) {
    c == '\n' || c == '\r' || c as int == 0x2028 || c as int == 0x2029
  }

  predicate AtomMatches(a: Atom, c: char) {
    match a
    case Lit(d) => c == d
    case Dot => !LineTerminator(c)
    case Not(d) => c != d
  }

  /** One alternative matches s from position i to its end. */
  predicate TermsMatch(ts: Alternative, s: string, i: nat)
    requires i <= |s|
    decreases |ts|, |s| - i
  {
    if ts == [] then i == |s|
    else
      match ts[0]
      case Begin => i == 0 && TermsMatch(ts[1..], s, i)
      case End => i == |s| && TermsMatch(ts[1..], s, i)
      case One(a) => i < |s| && AtomMatches(a, s[i]) && TermsMatch(ts[1..], s, i + 1)
      case Star(a) =>
        TermsMatch(ts[1..], s, i) || (i < |s| && AtomMatches(a, s[i]) && TermsMatch(ts, s, i + 1))
      case Plus(a) =>
        i < |s| && AtomMatches(a, s[i]) && (TermsMatch(ts[1..], s, i + 1) || TermsMatch(ts, s, i + 1))
  }

  ghost predicate RegexMatches(alternatives: seq<Alternative>, s: string) {
    exists k :: 0 <= k < |alternatives| && TermsMatch(alternatives[k], s, 0)
  }

  predicate Reserved(c: char) {
    c in "^$\\.*+?()[]{}|"
  }

  /** An atom at the head of a text, and the rest of the text. */
  datatype Head = NoAtom | Found(a: Atom, rest: string)

  function ParseAtom(text: string): (h: Head)
    ensures h.Found? ==> |h.rest| < |text|
  {
    if text == "" then NoAtom
    else if text[0] == '.' then Found(Dot, text[1..])
    else if text[0] == '\\' then
      if |text| > 1 && Reserved(text[1]) then Found(Lit(text[1]), text[2..]) else NoAtom
    else if text[0] == '[' then
      if |text| > 3 && text[1] == '^' && text[2] !in "]\\-" && text[3] == ']' then Found(Not(text[2]), text[4..])
      else NoAtom
    else if Reserved(text[0]) then NoAtom
    else Found(Lit(text[0]), text[1..])
  }

  /**
   * The alternatives of a text, or None when it is ill-formed or goes beyond
   * the flat part: groups, counted and lazy repetition, other classes.
   */
  function Parse(text: string): Option<seq<Alternative>>
    decreases |text|
  {
    if text == "" then Some([[]])
    else if text[0] == '|' then
      var rest := Parse(text[1..]);
      if rest.None? then None else Some([[]] + rest.value)
    else if text[0] == '^' then Prepend(Begin, Parse(text[1..]))
    else if text[0] == '$' then Prepend(End, Parse(text[1..]))
    else
      var h := ParseAtom(text);
      if h.NoAtom? then None
      else if h.rest != "" && h.rest[0] == '*' then Prepend(Star(h.a), Parse(h.rest[1..]))
      else if h.rest != "" && h.rest[0] == '+' then Prepend(Plus(h.a), Parse(h.rest[1..]))
      else Prepend(One(h.a), Parse(h.rest))
  }

  /** A term in front of the first alternative. */
  function Prepend(t: Term, parsed: Option<seq<Alternative>>): Option<seq<Alternative>> {
    if parsed.None? || parsed.value == [] then None
    else Some([[t] + parsed.value[0]] + parsed.value[1..])
  }

  lemma PrependOne(t: Term, ts: Alternative)
    ensures Prepend(t, Some([ts])) == Some([[t] + ts])
  {
    assert [ts][1..] == [];
    assert [[t] + ts] + [] == [[t] + ts];
  }

  // ---------------------------------------------------------------- the translation preserves meaning

  /** Characters the translator copies although a regex reads them as operators. */
  predicate Operator(c: char) { c in "+()[]{}^$|" }

  predicate Plain(pattern: string) {
    forall i :: 0 <= i < |pattern| ==> !Operator(pattern[i])
  }

  predicate Bracketless(pattern: string) {
    forall i :: 0 <= i < |pattern| ==> pattern[i] !in "()[]{}"
  }

  /** The terms a plain pattern should become. */
  function GlobTerm(c: char): Term {
    if c == '*' then Star(Not('/')) else if c == '?' then One(Not('/')) else One(Lit(c))
  }

  function GlobTerms(pattern: string): Alternative
    decreases |pattern|
  {
    if pattern == "" then [End]
    else if pattern[0] == '*' && |pattern| > 1 && pattern[1] == '*' then [Star(Dot)] + GlobTerms(pattern[2..])
    else [GlobTerm(pattern[0])] + GlobTerms(pattern[1..])
  }

  /** What the text after a translated piece can start with. */
  lemma BodyStart(pattern: string)
    requires Plain(pattern)
    ensures var rest := Body(pattern) + "$"; rest != "" && rest[0] !in "*+"
  {
    if pattern != "" {
      var rest := Body(pattern) + "$";
      if pattern[0] == '*' && |pattern| > 1 && pattern[1] == '*' {
        assert rest[0] == '.';
      } else {
        assert rest[0] == Piece(pattern[0])[0];
      }
    }
  }

  lemma ParseDouble(rest: string)
    ensures Parse(".*" + rest) == Prepend(Star(Dot), Parse(rest))
  {
    var text := ".*" + rest;
    assert text[1..] == "*" + rest && ("*" + rest)[1..] == rest;
    ParseAfterAtom(text, Dot, "*" + rest);
  }

  lemma {:induction false} ParseBody(pattern: string)
    requires Plain(pattern)
    ensures Parse(Body(pattern) + "$") == Some([GlobTerms(pattern)])
    decreases |pattern|
  {
    var text := Body(pattern) + "$";
    if pattern == "" {
      assert text == "$" && text[1..] == "";
      PrependOne(End, []);
      assert [End] + [] == [End];
    } else if pattern[0] == '*' && |pattern| > 1 && pattern[1] == '*' {
      var rest := Body(pattern[2..]) + "$";
      ParseBody(pattern[2..]);
      Assoc(".*", Body(pattern[2..]), "$");
      ParseDouble(rest);
      PrependOne(Star(Dot), GlobTerms(pattern[2..]));
    } else {
      var rest := Body(pattern[1..]) + "$";
      ParseBody(pattern[1..]);
      BodyStart(pattern[1..]);
      Assoc(Piece(pattern[0]), Body(pattern[1..]), "$");
      ParsePiece(pattern[0], rest, text);
      PrependOne(GlobTerm(pattern[0]), GlobTerms(pattern[1..]));
    }
  }

  /** The atom a piece starts with; a piece for `*` goes on with the quantifier. */
  function PieceAtom(c: char): Atom {
    if c == '*' || c == '?' then Not('/') else Lit(c)
  }

  lemma PieceHead(c: char, rest: string)
    requires !Operator(c)
    ensures var text := Piece(c) + rest;
            && text != "" && text[0] !in "|^$"
            && ParseAtom(text) == Found(PieceAtom(c), if c == '*' then "*" + rest else rest)
  {
    var text := Piece(c) + rest;
    if c == '*' {
      assert text == "[^/]" + ("*" + rest);
      assert text[4..] == "*" + rest;
    } else if c == '?' {
      assert text[4..] == rest;
    } else if c == '.' || c == '\\' {
      assert text[0] == '\\' && text[1] == c && text[2..] == rest;
    } else {
      assert text[0] == c && text[1..] == rest;
    }
  }

  /** How an atom and what follows it are read. */
  lemma ParseAfterAtom(text: string, a: Atom, rest: string)
    requires text != "" && text[0] !in "|^$" && ParseAtom(text) == Found(a, rest)
    ensures Parse(text) ==
            if rest != "" && rest[0] == '*' then Prepend(Star(a), Parse(rest[1..]))
            else if rest != "" && rest[0] == '+' then Prepend(Plus(a), Parse(rest[1..]))
            else Prepend(One(a), Parse(rest))
  {
  }

  /** One piece parses to its term, whatever follows it. */
  lemma ParsePiece(c: char, rest: string, text: string)
    requires !Operator(c) && text == Piece(c) + rest && rest != "" && rest[0] !in "*+"
    ensures Parse(text) == Prepend(GlobTerm(c), Parse(rest))
  {
    PieceHead(c, rest);
    ParseAfterAtom(text, PieceAtom(c), if c == '*' then "*" + rest else rest);
    assert ("*" + rest)[1..] == rest;
  }

  lemma ParseTranslation(pattern: string)
    requires Plain(pattern)
    ensures Parse(Translation(pattern)) == Some([[Begin] + GlobTerms(pattern)])
  {
    ParseBody(pattern);
    assert Translation(pattern)[1..] == Body(pattern) + "$";
    PrependOne(Begin, GlobTerms(pattern));
  }

  predicate OneLine(s: string) {
    forall i :: 0 <= i < |s| ==> !LineTerminator(s[i])
  }

  /** The star takes s[i..k] and the rest of the terms match from there. */
  predicate Splits(a: Atom, ts: Alternative, s: string, i: nat, k: nat) {
    i <= k <= |s| && (forall m :: i <= m < k ==> AtomMatches(a, s[m])) && TermsMatch(ts, s, k)
  }

  /** A star is the choice of how much to take. */
  lemma {:induction false} StarTakes(a: Atom, ts: Alternative, s: string, i: nat)
    requires i <= |s|
    ensures TermsMatch([Star(a)] + ts, s, i) <==> exists k: nat :: Splits(a, ts, s, i, k)
    decreases |s| - i
  {
    var all := [Star(a)] + ts;
    assert all[1..] == ts;
    if i < |s| && AtomMatches(a, s[i]) {
      StarTakes(a, ts, s, i + 1);
    }
    if TermsMatch(all, s, i) {
      if TermsMatch(ts, s, i) {
        assert Splits(a, ts, s, i, i);
      } else {
        var k: nat :| Splits(a, ts, s, i + 1, k);
        assert Splits(a, ts, s, i, k);
      }
    }
    if k: nat :| Splits(a, ts, s, i, k) {
      if k > i {
        assert Splits(a, ts, s, i + 1, k);
      }
    }
  }

  /** Regex and glob agree on what follows n characters taken from position i. */
  ghost predicate TailAgrees(rest: string, s: string, i: nat, n: nat)
    requires i + n <= |s|
  {
    TermsMatch(GlobTerms(rest), s, i + n) <==> GlobMatches(rest, s[i..][n..])
  }

  ghost predicate TailsAgree(rest: string, s: string, i: nat)
    requires i <= |s|
  {
    forall n :: 0 <= n <= |s| - i ==> TailAgrees(rest, s, i, n)
  }

  lemma DoubleStarIsGlob(pattern: string, s: string, i: nat)
    requires |pattern| > 1 && pattern[0] == '*' && pattern[1] == '*' && OneLine(s) && i <= |s|
    requires TailsAgree(pattern[2..], s, i)
    ensures TermsMatch(GlobTerms(pattern), s, i) <==> GlobMatches(pattern, s[i..])
  {
    var rest := pattern[2..];
    var ts := GlobTerms(rest);
    StarTakes(Dot, ts, s, i);
    assert GlobTerms(pattern) == [Star(Dot)] + ts;
    if k: nat :| Splits(Dot, ts, s, i, k) {
      assert i + (k - i) == k && TailAgrees(rest, s, i, k - i);
      assert GlobMatches(rest, s[i..][k - i..]);
    }
    if GlobMatches(pattern, s[i..]) {
      var n :| 0 <= n <= |s[i..]| && GlobMatches(rest, s[i..][n..]);
      assert TailAgrees(rest, s, i, n);
      assert Splits(Dot, ts, s, i, i + n);
    }
  }

  lemma SlashFree(s: string, i: nat, n: nat)
    requires i + n <= |s|
    ensures NoSlash(s[i..][..n]) <==> forall m :: i <= m < i + n ==> AtomMatches(Not('/'), s[m])
  {
    if NoSlash(s[i..][..n]) {
      forall m | i <= m < i + n ensures AtomMatches(Not('/'), s[m]) {
        assert s[i..][..n][m - i] == s[m];
      }
    }
  }

  predicate SingleStar(pattern: string) {
    pattern != "" && pattern[0] == '*' && !(|pattern| > 1 && pattern[1] == '*')
  }

  lemma GlobTakes(pattern: string, text: string, n: nat)
    requires SingleStar(pattern) && n <= |text| && NoSlash(text[..n]) && GlobMatches(pattern[1..], text[n..])
    ensures GlobMatches(pattern, text)
  {
  }

  lemma GlobTook(pattern: string, text: string) returns (n: nat)
    requires SingleStar(pattern) && GlobMatches(pattern, text)
    ensures n <= |text| && NoSlash(text[..n]) && GlobMatches(pattern[1..], text[n..])
  {
    n :| 0 <= n <= |text| && NoSlash(text[..n]) && GlobMatches(pattern[1..], text[n..]);
  }

  lemma StarTermsAreGlob(pattern: string, s: string, i: nat, k: nat)
    requires SingleStar(pattern) && i <= |s| && TailsAgree(pattern[1..], s, i)
    requires Splits(Not('/'), GlobTerms(pattern[1..]), s, i, k)
    ensures GlobMatches(pattern, s[i..])
  {
    var n := k - i;
    assert i + n == k && TailAgrees(pattern[1..], s, i, n);
    SlashFree(s, i, n);
    GlobTakes(pattern, s[i..], n);
  }

  lemma StarGlobIsTerms(pattern: string, s: string, i: nat) returns (k: nat)
    requires SingleStar(pattern) && i <= |s| && TailsAgree(pattern[1..], s, i) && GlobMatches(pattern, s[i..])
    ensures Splits(Not('/'), GlobTerms(pattern[1..]), s, i, k)
  {
    var n := GlobTook(pattern, s[i..]);
    SlashFree(s, i, n);
    assert TailAgrees(pattern[1..], s, i, n);
    k := i + n;
  }

  lemma StarIsGlob(pattern: string, s: string, i: nat)
    requires SingleStar(pattern) && i <= |s| && TailsAgree(pattern[1..], s, i)
    ensures TermsMatch(GlobTerms(pattern), s, i) <==> GlobMatches(pattern, s[i..])
  {
    var ts := GlobTerms(pattern[1..]);
    StarTakes(Not('/'), ts, s, i);
    assert GlobTerms(pattern) == [Star(Not('/'))] + ts;
    if k: nat :| Splits(Not('/'), ts, s, i, k) {
      StarTermsAreGlob(pattern, s, i, k);
    }
    if GlobMatches(pattern, s[i..]) {
      var k := StarGlobIsTerms(pattern, s, i);
    }
  }

  lemma EmptyIsGlob(s: string, i: nat)
    requires i <= |s|
    ensures TermsMatch(GlobTerms(""), s, i) <==> GlobMatches("", s[i..])
  {
    assert TermsMatch([End], s, i) <==> i == |s|;
  }

  /** A character that takes one character. */
  lemma OneIsGlob(pattern: string, s: string, i: nat)
    requires pattern != "" && pattern[0] != '*' && i <= |s|
    requires i < |s| ==> TailAgrees(pattern[1..], s, i, 1)
    ensures TermsMatch(GlobTerms(pattern), s, i) <==> GlobMatches(pattern, s[i..])
  {
    assert GlobTerms(pattern)[1..] == GlobTerms(pattern[1..]);
  }

  /** The terms of a plain pattern match exactly what the glob matches, from any position. */
  lemma {:induction false} TermsAreGlob(pattern: string, s: string, i: nat)
    requires Plain(pattern) && OneLine(s) && i <= |s|
    ensures TermsMatch(GlobTerms(pattern), s, i) <==> GlobMatches(pattern, s[i..])
    decreases |pattern|
  {
    if pattern == "" {
      EmptyIsGlob(s, i);
    } else {
      var doubled := pattern[0] == '*' && |pattern| > 1 && pattern[1] == '*';
      var rest := if doubled then pattern[2..] else pattern[1..];
      forall n | 0 <= n <= |s| - i ensures TailAgrees(rest, s, i, n) {
        TermsAreGlob(rest, s, i + n);
        assert s[i..][n..] == s[i + n..];
      }
      if doubled {
        DoubleStarIsGlob(pattern, s, i);
      } else if pattern[0] == '*' {
        StarIsGlob(pattern, s, i);
      } else {
        OneIsGlob(pattern, s, i);
      }
    }
  }

  /**
   * glob_to_regex preserves meaning: for every pattern without copied regex
   * operators the emitted text is a well-formed regex, and it matches exactly
   * the one-line strings the glob matches.
   */
  lemma TranslationPreservesMeaning(pattern: string, s: string)
    requires Plain(pattern) && OneLine(s)
    ensures Parse(Translation(pattern)).Some?
    ensures RegexMatches(Parse(Translation(pattern)).value, s) <==> GlobMatches(pattern, s)
  {
    ParseTranslation(pattern);
    var ts := [Begin] + GlobTerms(pattern);
    assert ts[1..] == GlobTerms(pattern);
    TermsAreGlob(pattern, s, 0);
    assert s[0..] == s;
    assert [ts][0] == ts;
  }

  // ---------------------------------------------------------------- and exactly for these patterns

  ghost predicate Agrees(pattern: string) {
    && Parse(Translation(pattern)).Some?
    && forall s :: OneLine(s) ==> (RegexMatches(Parse(Translation(pattern)).value, s) <==> GlobMatches(pattern, s))
  }

  /** A text the glob matches. */
  function Sample(pattern: string): string {
    if pattern == "" then ""
    else if pattern[0] == '*' then Sample(pattern[1..])
    else [if pattern[0] == '?' then 'x' else pattern[0]] + Sample(pattern[1..])
  }

  lemma {:induction false} SampleMatches(pattern: string)
    requires OneLine(pattern)
    ensures GlobMatches(pattern, Sample(pattern)) && OneLine(Sample(pattern))
    decreases |pattern|
  {
    if pattern != "" {
      var t := Sample(pattern);
      SampleMatches(pattern[1..]);
      if pattern[0] == '*' {
        if |pattern| > 1 && pattern[1] == '*' {
          assert pattern[1..][1..] == pattern[2..];
          SampleMatches(pattern[2..]);
        }
        assert t[0..] == t && NoSlash(t[..0]);
      } else {
        assert t[1..] == Sample(pattern[1..]);
      }
    }
  }

  /** A character that stands for itself is in every text the glob matches. */
  lemma {:induction false} GlobNeeds(pattern: string, s: string, c: char)
    requires GlobMatches(pattern, s) && c in pattern && c !in "*?"
    ensures c in s
    decreases |pattern|
  {
    if pattern[0] == '*' && |pattern| > 1 && pattern[1] == '*' {
      var k :| 0 <= k <= |s| && GlobMatches(pattern[2..], s[k..]);
      GlobNeeds(pattern[2..], s[k..], c);
    } else if pattern[0] == '*' {
      var k :| 0 <= k <= |s| && NoSlash(s[..k]) && GlobMatches(pattern[1..], s[k..]);
      GlobNeeds(pattern[1..], s[k..], c);
    } else if pattern[0] != c {
      GlobNeeds(pattern[1..], s[1..], c);
    }
  }

  /** No atom insists on c, and none but [^/] excludes anything. */
  predicate Indifferent(a: Atom, c: char) { a != Lit(c) && (a.Not? ==> a.c == '/') }

  predicate TermIndifferent(t: Term, c: char) { t.Begin? || t.End? || Indifferent(t.a, c) }

  predicate AllIndifferent(alternatives: seq<Alternative>, c: char) {
    forall k, j :: 0 <= k < |alternatives| && 0 <= j < |alternatives[k]| ==> TermIndifferent(alternatives[k][j], c)
  }

  lemma PrependIndifferent(t: Term, parsed: Option<seq<Alternative>>, c: char)
    requires TermIndifferent(t, c) && (parsed.Some? ==> AllIndifferent(parsed.value, c))
    ensures var r := Prepend(t, parsed); r.Some? ==> AllIndifferent(r.value, c)
  {
    var r := Prepend(t, parsed);
    if r.Some? {
      forall k, j | 0 <= k < |r.value| && 0 <= j < |r.value[k]| ensures TermIndifferent(r.value[k][j], c) {
        if k > 0 {
          assert r.value[k] == parsed.value[k];
        } else if j > 0 {
          assert r.value[0][j] == parsed.value[0][j - 1];
        }
      }
    }
  }

  /** Read as a regex, a copied operator never ends up as a literal. */
  lemma {:induction false} ParsedIndifferent(pattern: string, c: char)
    requires Bracketless(pattern) && Operator(c)
    ensures var r := Parse(Body(pattern) + "$"); r.Some? ==> AllIndifferent(r.value, c)
    decreases |pattern|
  {
    var text := Body(pattern) + "$";
    if pattern == "" {
      assert text == "$" && text[1..] == "";
      assert AllIndifferent([[]], c);
      PrependIndifferent(End, Some([[]]), c);
    } else if pattern[0] == '*' && |pattern| > 1 && pattern[1] == '*' {
      var rest := Body(pattern[2..]) + "$";
      ParsedIndifferent(pattern[2..], c);
      Assoc(".*", Body(pattern[2..]), "$");
      ParseDouble(rest);
      PrependIndifferent(Star(Dot), Parse(rest), c);
    } else {
      var rest := Body(pattern[1..]) + "$";
      Assoc(Piece(pattern[0]), Body(pattern[1..]), "$");
      ParsedIndifferent(pattern[1..], c);
      if pattern[0] in "|^$+" {
        assert text[1..] == rest;
        OperatorHead(text, rest, c);
      } else {
        if pattern[1..] != "" && pattern[1] == '+' {
          ParsedIndifferent(pattern[2..], c);
          assert pattern[1..][1..] == pattern[2..];
        }
        PieceIndifferent(pattern, rest, c);
      }
    }
  }

  lemma OperatorHead(text: string, rest: string, c: char)
    requires text != "" && text[0] in "|^$+" && text[1..] == rest
    requires Parse(rest).Some? ==> AllIndifferent(Parse(rest).value, c)
    ensures var r := Parse(text); r.Some? ==> AllIndifferent(r.value, c)
  {
    PrependIndifferent(Begin, Parse(rest), c);
    PrependIndifferent(End, Parse(rest), c);
    if text[0] == '|' && Parse(rest).Some? {
      var r := [[]] + Parse(rest).value;
      forall k, j | 0 <= k < |r| && 0 <= j < |r[k]| ensures TermIndifferent(r[k][j], c) {
        assert r[k] == Parse(rest).value[k - 1];
      }
    }
  }

  lemma PieceIndifferent(pattern: string, rest: string, c: char)
    requires Operator(c) && pattern != "" && !Operator(pattern[0]) && rest == Body(pattern[1..]) + "$"
    requires Parse(rest).Some? ==> AllIndifferent(Parse(rest).value, c)
    requires pattern[1..] != "" && pattern[1] == '+' ==>
               var r := Parse(Body(pattern[2..]) + "$"); r.Some? ==> AllIndifferent(r.value, c)
    ensures var r := Parse(Piece(pattern[0]) + rest); r.Some? ==> AllIndifferent(r.value, c)
  {
    var text := Piece(pattern[0]) + rest;
    var a := PieceAtom(pattern[0]);
    PieceHead(pattern[0], rest);
    ParseAfterAtom(text, a, if pattern[0] == '*' then "*" + rest else rest);
    assert ("*" + rest)[1..] == rest;
    PrependIndifferent(Star(a), Parse(rest), c);
    PrependIndifferent(One(a), Parse(rest), c);
    StarNotNext(pattern[1..]);
    if rest[0] == '+' {
      PlusNext(pattern[1..]);
      assert pattern[1..][1..] == pattern[2..];
      PrependIndifferent(Plus(a), Parse(rest[1..]), c);
    }
  }

  /** A translated text starts with a plus only where the pattern does. */
  lemma PlusNext(pattern: string)
    requires (Body(pattern) + "$")[0] == '+'
    ensures pattern != "" && pattern[0] == '+' && (Body(pattern) + "$")[1..] == Body(pattern[1..]) + "$"
  {
  }

  lemma StarNotNext(pattern: string)
    ensures (Body(pattern) + "$")[0] != '*'
  {
  }

  /** Replaces every c by x. */
  function Swap(s: string, c: char): (r: string)
    ensures |r| == |s| && forall i :: 0 <= i < |s| ==> r[i] == if s[i] == c then 'x' else s[i]
  {
    if s == "" then "" else [if s[0] == c then 'x' else s[0]] + Swap(s[1..], c)
  }

  lemma {:induction false} SwapStillMatches(ts: Alternative, s: string, i: nat, c: char)
    requires i <= |s| && TermsMatch(ts, s, i) && forall j :: 0 <= j < |ts| ==> TermIndifferent(ts[j], c)
    ensures TermsMatch(ts, Swap(s, c), i)
    decreases |ts|, |s| - i
  {
    if ts != [] {
      match ts[0]
      case Begin => SwapStillMatches(ts[1..], s, i, c);
      case End => SwapStillMatches(ts[1..], s, i, c);
      case One(_) => SwapStillMatches(ts[1..], s, i + 1, c);
      case Star(_) =>
        if TermsMatch(ts[1..], s, i) { SwapStillMatches(ts[1..], s, i, c); }
        else { SwapStillMatches(ts, s, i + 1, c); }
      case Plus(_) =>
        if TermsMatch(ts[1..], s, i + 1) { SwapStillMatches(ts[1..], s, i + 1, c); }
        else { SwapStillMatches(ts, s, i + 1, c); }
    }
  }

  /**
   * Among patterns without brackets the translation is right exactly for those
   * without the operators + ^ $ |: with one of these the text is ill-formed,
   * or a text that lacks the operator matches, which the glob refuses.
   */
  lemma RightExactlyWhenPlain(pattern: string)
    requires Bracketless(pattern) && OneLine(pattern)
    ensures Agrees(pattern) <==> Plain(pattern)
  {
    if Plain(pattern) {
      ParseTranslation(pattern);
      forall s | OneLine(s)
        ensures RegexMatches(Parse(Translation(pattern)).value, s) <==> GlobMatches(pattern, s)
      {
        TranslationPreservesMeaning(pattern, s);
      }
    } else if Agrees(pattern) {
      var i :| 0 <= i < |pattern| && Operator(pattern[i]);
      OperatorBreaks(pattern, pattern[i]);
    }
  }

  lemma OperatorBreaks(pattern: string, c: char)
    requires Bracketless(pattern) && OneLine(pattern) && Operator(c) && c in pattern
    ensures !Agrees(pattern)
  {
    if Agrees(pattern) {
      var alternatives := Parse(Translation(pattern)).value;
      var s := Sample(pattern);
      SampleMatches(pattern);
      var k :| 0 <= k < |alternatives| && TermsMatch(alternatives[k], s, 0);
      assert Translation(pattern)[1..] == Body(pattern) + "$";
      ParsedIndifferent(pattern, c);
      PrependIndifferent(Begin, Parse(Body(pattern) + "$"), c);
      SwapStillMatches(alternatives[k], s, 0, c);
      assert RegexMatches(alternatives, Swap(s, c));
      GlobNeeds(pattern, Swap(s, c), c);
      assert false;
    }
  }

  // ---------------------------------------------------------------- ignore::matches

  /** What std::regex and regex_match answer for a text and a subject; a bad text throws. */
  datatype RxResult = Throws | Answer(matched: bool)

  type Engine = (string, string) -> RxResult

  /** The engine reads the flat part of the language as ECMA-262 does. */
  ghost predicate Faithful(engine: Engine) {
    forall text: string, s: string :: Parse(text).Some? ==> engine(text, s) == Answer(RegexMatches(Parse(text).value, s))
  }

  predicate HasGlob(pattern: string) { '*' in pattern || '?' in pattern }

  /** The part of the path a pattern is compared with. */
  function Subject(full: string, name: string, pattern: string): string {
    if '/' in pattern then full else name
  }

  function OneResult(full: string, name: string, pattern: string, engine: Engine): RxResult {
    if !HasGlob(pattern) then Answer(Subject(full, name, pattern) == pattern)
    else engine(Translation(pattern), Subject(full, name, pattern))
  }

  /** The first pattern that matches or throws decides. */
  function AnyResult(full: string, name: string, patterns: seq<string>, engine: Engine): RxResult {
    if patterns == [] then Answer(false)
    else
      var r := OneResult(full, name, patterns[0], engine);
      if r == Answer(false) then AnyResult(full, name, patterns[1..], engine) else r
  }

  method Matches(full: string, name: string, patterns: seq<string>, engine: Engine) returns (r: RxResult)
    ensures r == AnyResult(full, name, patterns, engine)
  {
    var i := 0;
    while i < |patterns|
      invariant 0 <= i <= |patterns|
      invariant AnyResult(full, name, patterns, engine) == AnyResult(full, name, patterns[i..], engine)
    {
      var pattern := patterns[i];
      var hasDirsep := '/' in pattern;
      var hasGlob := '*' in pattern || '?' in pattern;
      if !hasGlob {
        if hasDirsep {
          if full == pattern {
            return Answer(true);
          }
        } else {
          if name == pattern {
            return Answer(true);
          }
        }
      } else {
        var rx := GlobToRegex(pattern);
        var one := engine(rx, if !hasDirsep then name else full);
        if one != Answer(false) {
          return one;
        }
      }
      i := i + 1;
    }
    r := Answer(false);
  }

  /** Without glob characters a glob is its own only match: the fast path is the general matcher. */
  lemma {:induction false} GlobFreeIsEquality(pattern: string, s: string)
    requires !HasGlob(pattern)
    ensures GlobMatches(pattern, s) <==> s == pattern
    decreases |pattern|
  {
    if pattern != "" {
      forall c | c in pattern[1..] ensures c in pattern { }
      if s != "" {
        GlobFreeIsEquality(pattern[1..], s[1..]);
        assert s == [s[0]] + s[1..] && pattern == [pattern[0]] + pattern[1..];
      }
    }
  }

  /** A path is ignored exactly when some pattern globs its name, or its full text if the pattern has a slash. */
  lemma {:induction false} MatchesMeansSomeGlob(full: string, name: string, patterns: seq<string>, engine: Engine)
    requires Faithful(engine) && OneLine(full) && OneLine(name)
    requires forall i :: 0 <= i < |patterns| ==> Plain(patterns[i])
    ensures AnyResult(full, name, patterns, engine) ==
            Answer(exists i :: 0 <= i < |patterns| && GlobMatches(patterns[i], if '/' in patterns[i] then full else name))
  {
    if patterns != [] {
      var s := Subject(full, name, patterns[0]);
      if HasGlob(patterns[0]) {
        TranslationPreservesMeaning(patterns[0], s);
      } else {
        GlobFreeIsEquality(patterns[0], s);
      }
      assert OneResult(full, name, patterns[0], engine) == Answer(GlobMatches(patterns[0], s));
      var rest := patterns[1..];
      MatchesMeansSomeGlob(full, name, rest, engine);
      if i :| 0 <= i < |rest| && GlobMatches(rest[i], Subject(full, name, rest[i])) {
        assert rest[i] == patterns[i + 1];
      }
      if i :| 0 <= i < |patterns| && GlobMatches(patterns[i], Subject(full, name, patterns[i])) {
        if i > 0 { assert rest[i - 1] == patterns[i]; }
      }
    }
  }
}
