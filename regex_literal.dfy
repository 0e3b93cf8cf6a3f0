/**
 * How the find engine and the highlight overlay turn a query into a regular expression:
 * metacharacter escaping, the whole-word `\b` wrap and the flag strings, together with a
 * parser for the literal fragment of the pattern language (plain characters, a backslash
 * before a metacharacter, and `\b`) that is the inverse of escaping.
 */
module RegexLiteral {
  import opened Wrappers

  /** The fourteen characters the escape routine prefixes with a backslash: . * + ? ^ $ { } ( ) | [ ] \ */
  predicate IsMeta(c: char) {
    c in {'.', '*', '+', '?', '^', '$', '{', '}', '(', ')', '|', '[', ']', '\\'}
  }

  function EscapeChar(c: char): string {
    if IsMeta(c) then ['\\', c] else [c]
  }

  /** `s.replace(/[.*+?^${}()|[\]\\]/g, '\\$&')`: a backslash before every metacharacter. */
  function EscapeRegExp(s: string): string {
    if s == [] then [] else EscapeChar(s[0]) + EscapeRegExp(s[1..])
  }

  /** Escaping adds at most one backslash per character. */
  lemma {:induction false} EscapeLength(s: string)
    ensures |s| <= |EscapeRegExp(s)| <= 2 * |s|
  {
    if s != [] {
      EscapeLength(s[1..]);
    }
  }

  /** Escaping works character by character. */
  lemma {:induction false} EscapeAppend(a: string, b: string)
    ensures EscapeRegExp(a + b) == EscapeRegExp(a) + EscapeRegExp(b)
  {
    if a == [] {
      assert a + b == b;
    } else {
      assert (a + b)[1..] == a[1..] + b;
      EscapeAppend(a[1..], b);
    }
  }

  /** Escaping leaves a string without metacharacters as it is. */
  lemma {:induction false} EscapePlain(s: string)
    requires forall i :: 0 <= i < |s| ==> !IsMeta(s[i])
    ensures EscapeRegExp(s) == s
  {
    if s != [] {
      EscapePlain(s[1..]);
    }
  }

  /** One element of a pattern in the literal fragment. */
  datatype Atom = Lit(c: char) | WordBoundary

  /** The atoms matching the characters of `s` one by one. */
  function Lits(s: string): (r: seq<Atom>)
    ensures |r| == |s|
    ensures forall i :: 0 <= i < |s| ==> r[i] == Lit(s[i])
  {
    if s == [] then [] else [Lit(s[0])] + Lits(s[1..])
  }

  function PrependAll(xs: seq<Atom>, o: Option<seq<Atom>>): Option<seq<Atom>> {
    match o
    case None => None
    case Some(ys) => Some(xs + ys)
  }

  /**
   * The pattern as a sequence of atoms when it lies in the literal fragment; `None` for any
   * other pattern (a bare metacharacter or another escape).
   */
  function ParseAtoms(src: string): Option<seq<Atom>>
    decreases |src|
  {
    if src == [] then Some([])
    else if src[0] == '\\' then
      if |src| >= 2 && IsMeta(src[1]) then PrependAll([Lit(src[1])], ParseAtoms(src[2..]))
      else if |src| >= 2 && src[1] == 'b' then PrependAll([WordBoundary], ParseAtoms(src[2..]))
      else None
    else if IsMeta(src[0]) then None
    else PrependAll([Lit(src[0])], ParseAtoms(src[1..]))
  }

  /** One escaped character parses back to its literal atom, whatever follows it. */
  lemma ParseEscapedCharThen(c: char, tail: string)
    ensures ParseAtoms(EscapeChar(c) + tail) == PrependAll([Lit(c)], ParseAtoms(tail))
  {
    var e := EscapeChar(c) + tail;
    if IsMeta(c) {
      assert e[0] == '\\' && e[1] == c && e[2..] == tail;
    } else {
      assert e[0] == c && e[1..] == tail;
    }
  }

  /** An escaped string parses back to its characters, whatever follows it. */
  lemma {:induction false} ParseEscapedThen(s: string, rest: string)
    ensures ParseAtoms(EscapeRegExp(s) + rest) == PrependAll(Lits(s), ParseAtoms(rest))
  {
    if s == [] {
      assert EscapeRegExp(s) + rest == rest;
      match ParseAtoms(rest)
      case None =>
      case Some(ys) => assert Lits(s) + ys == ys;
    } else {
      var tail := EscapeRegExp(s[1..]) + rest;
      ParseEscapedThen(s[1..], rest);
      assert EscapeRegExp(s) + rest == EscapeChar(s[0]) + tail;
      ParseEscapedCharThen(s[0], tail);
      assert Lits(s) == [Lit(s[0])] + Lits(s[1..]);
      match ParseAtoms(rest)
      case None =>
      case Some(ys) => assert [Lit(s[0])] + (Lits(s[1..]) + ys) == Lits(s) + ys;
    }
  }

  /** Escaping is undone by parsing: the escaped query denotes exactly its own characters. */
  lemma EscapeRoundTrip(s: string)
    ensures ParseAtoms(EscapeRegExp(s)) == Some(Lits(s))
  {
    ParseEscapedThen(s, []);
    assert EscapeRegExp(s) + [] == EscapeRegExp(s);
  }

  /** Prefixing a `\b` escape adds a word-boundary atom in front. */
  lemma ParseBoundaryThen(rest: string)
    ensures ParseAtoms("\\b" + rest) == PrependAll([WordBoundary], ParseAtoms(rest))
  {
    assert ("\\b" + rest)[2..] == rest;
  }

  /** A compiled regular expression: its source and the two flags the editor uses. */
  datatype RegExp = RegExp(source: string, ignoreCase: bool, global: bool)

  /** `new RegExp(source, flags)` for a flag string made of `i` and `g`. */
  function NewRegExp(source: string, flags: string): RegExp {
    RegExp(source, 'i' in flags, 'g' in flags)
  }

  /** The three search options of the find widget, all off at start. */
  datatype FindOptions = FindOptions(matchCase: bool, matchWholeWord: bool, useRegex: bool)

  const DefaultOptions := FindOptions(false, false, false)

  /** The pattern text shared by both builders: escaped unless in regex mode, then `\b`-wrapped. */
  function SearchPattern(query: string, wholeWord: bool, useRegex: bool): string {
    var base := if useRegex then query else EscapeRegExp(query);
    if wholeWord then "\\b" + base + "\\b" else base
  }

  /** The find engine's builder: flags `i` unless match-case, then `g` when global. */
  function BuildRegex(query: string, opts: FindOptions, global: bool): RegExp {
    var flags := (if opts.matchCase then "" else "i") + (if global then "g" else "");
    NewRegExp(SearchPattern(query, opts.matchWholeWord, opts.useRegex), flags)
  }

  /** The overlay's builder: flags `g` with match-case, `gi` without. */
  function OverlayRegex(query: string, matchCase: bool, wholeWord: bool, useRegex: bool): RegExp {
    var flags := if matchCase then "g" else "gi";
    NewRegExp(SearchPattern(query, wholeWord, useRegex), flags)
  }

  /** The overlay highlights what the engine counts: both build the same global expression. */
  lemma OverlayAgreesWithEngine(query: string, opts: FindOptions)
    ensures OverlayRegex(query, opts.matchCase, opts.matchWholeWord, opts.useRegex)
            == BuildRegex(query, opts, true)
  {
  }

  /** The atoms a literal-mode (not regex) query denotes. */
  function LiteralAtoms(query: string, wholeWord: bool): seq<Atom> {
    if wholeWord then [WordBoundary] + Lits(query) + [WordBoundary] else Lits(query)
  }

  /**
   * Outside regex mode the built expression is case-insensitive exactly when match-case is off,
   * global exactly when asked, and denotes the query's characters literally, between
   * word boundaries when whole-word is on.
   */
  lemma {:induction false} BuildRegexLiteral(query: string, opts: FindOptions, global: bool)
    requires !opts.useRegex
    ensures BuildRegex(query, opts, global).ignoreCase <==> !opts.matchCase
    ensures BuildRegex(query, opts, global).global <==> global
    ensures ParseAtoms(BuildRegex(query, opts, global).source)
            == Some(LiteralAtoms(query, opts.matchWholeWord))
  {
    var e := EscapeRegExp(query);
    if opts.matchWholeWord {
      assert "\\b" + e + "\\b" == "\\b" + (e + "\\b");
      ParseBoundaryThen(e + "\\b");
      ParseEscapedThen(query, "\\b");
      ParseBoundaryThen([]);
      assert "\\b" + [] == "\\b";
      assert ParseAtoms([]) == Some([]);
      assert [WordBoundary] + [] == [WordBoundary];
      assert ParseAtoms("\\b") == Some([WordBoundary]);
      assert ParseAtoms(e + "\\b") == Some(Lits(query) + [WordBoundary]);
      assert [WordBoundary] + (Lits(query) + [WordBoundary]) == [WordBoundary] + Lits(query) + [WordBoundary];
    } else {
      EscapeRoundTrip(query);
    }
  }
}
