/**
 * What `RegExp.prototype.exec` with the global flag finds, and what `String.prototype.replace`
 * with a global expression produces.
 *
 * A pattern in the literal fragment is matched exactly (ASCII case folding under the `i` flag,
 * `\b` over the word characters `[A-Za-z0-9_]`). Any other pattern is handed to the JavaScript
 * engine, which is a parameter here: compiling gives `None` for a syntax error, and a compiled
 * pattern tells the length of its match at a position of a text.
 */
module LiteralMatch {
  import opened Wrappers
  import opened Text
  import opened RegexLiteral

  /** The characters `\w` and `\b` look at. */
  predicate IsWordChar(c: char) {
    ('a' <= c <= 'z') || ('A' <= c <= 'Z') || ('0' <= c <= '9') || c == '_'
  }

  /** `\b` holds at position `p`: exactly one of the characters around it is a word character. */
  predicate AtBoundary(s: string, p: nat)
    requires p <= |s|
  {
    (p > 0 && IsWordChar(s[p - 1])) != (p < |s| && IsWordChar(s[p]))
  }

  /** The case folding of the `i` flag, on ASCII letters. */
  function FoldAscii(c: char): char {
    if 'a' <= c <= 'z' then ((c as int) - 32) as char else c
  }

  predicate CharEq(p: char, c: char, ignoreCase: bool) {
    if ignoreCase then FoldAscii(p) == FoldAscii(c) else p == c
  }

  /** The length of the match of `atoms` at position `p` of `s`, if they match there. */
  function AtomsMatchAt(atoms: seq<Atom>, ignoreCase: bool, s: string, p: nat): (r: Option<nat>)
    requires p <= |s|
    decreases |atoms|
    ensures r.Some? ==> p + r.value <= |s|
  {
    if atoms == [] then Some(0)
    else match atoms[0]
      case WordBoundary =>
        if AtBoundary(s, p) then AtomsMatchAt(atoms[1..], ignoreCase, s, p) else None
      case Lit(c) =>
        if p < |s| && CharEq(c, s[p], ignoreCase) then
          match AtomsMatchAt(atoms[1..], ignoreCase, s, p + 1)
          case None => None
          case Some(n) => Some(n + 1)
        else None
  }

  /** A compiled pattern outside the literal fragment: the length of its match at a position. */
  type PatternRun = (string, nat) -> Option<nat>

  /** The engine's compiler, given a source and the `i` flag; `None` is a `SyntaxError`. */
  type RegexEngine = (string, bool) -> Option<PatternRun>

  datatype Matcher = Literal(atoms: seq<Atom>, ignoreCase: bool) | Engine(run: PatternRun)

  /** `new RegExp(...)` succeeding or throwing. */
  function Compile(re: RegExp, engine: RegexEngine): Option<Matcher> {
    match ParseAtoms(re.source)
    case Some(atoms) => Some(Literal(atoms, re.ignoreCase))
    case None =>
      match engine(re.source, re.ignoreCase)
      case None => None
      case Some(run) => Some(Engine(run))
  }

  /** The length of the match at position `p`, if the pattern matches there. */
  function MatchAt(m: Matcher, s: string, p: nat): (r: Option<nat>)
    requires p <= |s|
    ensures r.Some? ==> p + r.value <= |s|
  {
    match m
    case Literal(atoms, ic) => AtomsMatchAt(atoms, ic, s, p)
    case Engine(run) =>
      match run(s, p)
      case None => None
      case Some(n) => if p + n <= |s| then Some(n) else None
  }

  /** A match: where it starts and how long it is. */
  datatype Found = Found(index: nat, length: nat)

  function End(f: Found): nat {
    f.index + f.length
  }

  /** `exec` with `lastIndex == from`: the leftmost match starting at or after `from`. */
  function FirstMatchFrom(m: Matcher, s: string, from: nat): Option<Found>
    decreases |s| + 1 - from
  {
    if from > |s| then None
    else match MatchAt(m, s, from)
      case Some(n) => Some(Found(from, n))
      case None => FirstMatchFrom(m, s, from + 1)
  }

  /**
   * `exec` finds the leftmost match: a real match at or after `from`, with no match between
   * `from` and it; `null` means there is no match at or after `from`.
   */
  lemma {:induction false} FirstMatchFromSpec(m: Matcher, s: string, from: nat)
    ensures var r := FirstMatchFrom(m, s, from);
            (r.Some? ==> from <= r.value.index <= |s| && End(r.value) <= |s|
                         && MatchAt(m, s, r.value.index) == Some(r.value.length))
            && (r.Some? ==> forall q :: from <= q < r.value.index ==> MatchAt(m, s, q).None?)
            && (r.None? ==> forall q :: from <= q <= |s| ==> MatchAt(m, s, q).None?)
    decreases |s| + 1 - from
  {
    if from <= |s| && MatchAt(m, s, from).None? {
      FirstMatchFromSpec(m, s, from + 1);
    }
  }

  /**
   * `lastIndex` after a match: the end of the match, one further when the match is empty
   * (both loops of the editor bump it, as `String.prototype.replace` does).
   */
  function NextLastIndex(f: Found): nat {
    if f.length == 0 then f.index + 1 else End(f)
  }

  /** After a match `lastIndex` moves forward, and at most one past the end of the text. */
  lemma NextLastIndexAdvances(m: Matcher, s: string, from: nat)
    requires FirstMatchFrom(m, s, from).Some?
    ensures from < NextLastIndex(FirstMatchFrom(m, s, from).value) <= |s| + 1
  {
    FirstMatchFromSpec(m, s, from);
  }

  /** Every match `exec` returns when called until it gives `null`, starting from `lastIndex == from`. */
  function ScanFrom(m: Matcher, s: string, from: nat): seq<Found>
    decreases |s| + 1 - from
  {
    match FirstMatchFrom(m, s, from)
    case None => []
    case Some(f) =>
      NextLastIndexAdvances(m, s, from);
      [f] + ScanFrom(m, s, NextLastIndex(f))
  }

  /** One step of the scan: the first match, then the scan from where it leaves `lastIndex`. */
  lemma ScanStep(m: Matcher, s: string, from: nat)
    ensures FirstMatchFrom(m, s, from).None? ==> ScanFrom(m, s, from) == []
    ensures FirstMatchFrom(m, s, from).Some? ==>
              ScanFrom(m, s, from) == [FirstMatchFrom(m, s, from).value]
                                      + ScanFrom(m, s, NextLastIndex(FirstMatchFrom(m, s, from).value))
  {
  }

  /**
   * The scan yields real matches, inside the text, at or after `from`, each one starting at or
   * after the point where the previous one left `lastIndex` (so they are strictly increasing
   * and do not overlap).
   */
  lemma {:induction false} ScanWellFormed(m: Matcher, s: string, from: nat)
    ensures forall i :: 0 <= i < |ScanFrom(m, s, from)| ==>
              from <= ScanFrom(m, s, from)[i].index && End(ScanFrom(m, s, from)[i]) <= |s|
              && MatchAt(m, s, ScanFrom(m, s, from)[i].index) == Some(ScanFrom(m, s, from)[i].length)
    ensures forall i, j :: 0 <= i < j < |ScanFrom(m, s, from)| ==>
              NextLastIndex(ScanFrom(m, s, from)[i]) <= ScanFrom(m, s, from)[j].index
    decreases |s| + 1 - from
  {
    match FirstMatchFrom(m, s, from)
    case None =>
    case Some(f) =>
      FirstMatchFromSpec(m, s, from);
      NextLastIndexAdvances(m, s, from);
      var rest := ScanFrom(m, s, NextLastIndex(f));
      ScanWellFormed(m, s, NextLastIndex(f));
      var r := ScanFrom(m, s, from);
      assert r == [f] + rest;
      forall i, j | 0 <= i < j < |r| ensures NextLastIndex(r[i]) <= r[j].index {
        if i > 0 {
          assert r[i] == rest[i - 1] && r[j] == rest[j - 1];
        } else {
          assert r[j] == rest[j - 1];
        }
      }
  }

  /**
   * Nothing is skipped but overlapped text: every position from `from` on where the pattern
   * matches is the start of a found match or lies strictly inside one.
   */
  lemma {:induction false} ScanComplete(m: Matcher, s: string, from: nat, q: nat)
    requires from <= q <= |s| && MatchAt(m, s, q).Some?
    ensures exists i :: 0 <= i < |ScanFrom(m, s, from)| &&
              (ScanFrom(m, s, from)[i].index == q ||
               ScanFrom(m, s, from)[i].index < q < End(ScanFrom(m, s, from)[i]))
    decreases |s| + 1 - from
  {
    FirstMatchFromSpec(m, s, from);
    match FirstMatchFrom(m, s, from)
    case None =>
    case Some(f) =>
      NextLastIndexAdvances(m, s, from);
      var r := ScanFrom(m, s, from);
      assert r[0] == f;
      if f.index != q && !(f.index < q < End(f)) {
        ScanComplete(m, s, NextLastIndex(f), q);
        var i :| 0 <= i < |ScanFrom(m, s, NextLastIndex(f))| &&
                 (ScanFrom(m, s, NextLastIndex(f))[i].index == q ||
                  ScanFrom(m, s, NextLastIndex(f))[i].index < q < End(ScanFrom(m, s, NextLastIndex(f))[i]));
        assert r[i + 1] == ScanFrom(m, s, NextLastIndex(f))[i];
      }
  }

  /** Matches in order, each starting at or after `pos` and at or after the end of the one before. */
  ghost predicate Ordered(s: string, ms: seq<Found>, pos: nat) {
    ms == [] || (pos <= ms[0].index && End(ms[0]) <= |s| && Ordered(s, ms[1..], End(ms[0])))
  }

  lemma {:induction false} ScanOrdered(m: Matcher, s: string, from: nat)
    ensures Ordered(s, ScanFrom(m, s, from), from)
    decreases |s| + 1 - from
  {
    match FirstMatchFrom(m, s, from)
    case None =>
    case Some(f) =>
      FirstMatchFromSpec(m, s, from);
      NextLastIndexAdvances(m, s, from);
      ScanOrdered(m, s, NextLastIndex(f));
      OrderedWeaken(s, ScanFrom(m, s, NextLastIndex(f)), End(f), NextLastIndex(f));
      assert ScanFrom(m, s, from)[1..] == ScanFrom(m, s, NextLastIndex(f));
  }

  lemma OrderedWeaken(s: string, ms: seq<Found>, p: nat, q: nat)
    requires p <= q && Ordered(s, ms, q)
    ensures Ordered(s, ms, p)
  {
  }

  /** The result of replacing each of `ms` by the expanded template, copying the text between. */
  function ReplaceMatches(s: string, ms: seq<Found>, template: string, pos: nat): string
    requires pos <= |s| && Ordered(s, ms, pos)
    decreases |ms|
  {
    if ms == [] then s[pos..]
    else
      var f := ms[0];
      s[pos..f.index] + Expand(template, s[f.index..End(f)], s[..f.index], s[End(f)..])
      + ReplaceMatches(s, ms[1..], template, End(f))
  }

  /** `s.replace(re, template)` for a global expression: every match the scan finds is replaced. */
  function JsReplaceAll(m: Matcher, s: string, template: string): string {
    ScanOrdered(m, s, 0);
    ReplaceMatches(s, ScanFrom(m, s, 0), template, 0)
  }

  /** Cutting a match out of the text and putting `text` in its place. */
  function SpliceAt(c: string, f: Found, text: string): string
    requires End(f) <= |c|
  {
    c[..f.index] + text + c[End(f)..]
  }

  /** Splicing `text` into every match, the last one first, so that earlier offsets stay valid. */
  function SpliceAll(s: string, ms: seq<Found>, text: string): (r: string)
    requires Ordered(s, ms, 0)
    decreases |ms|
    ensures ms == [] ==> r == s
    ensures ms != [] ==> ms[0].index <= |r| && r[..ms[0].index] == s[..ms[0].index]
  {
    if ms == [] then s
    else
      OrderedWeaken(s, ms[1..], 0, End(ms[0]));
      SpliceAt(SpliceAll(s, ms[1..], text), ms[0], text)
  }

  /** The replacement from `pos` on, with a template free of `$`, is a sequence of splices. */
  lemma {:induction false} ReplaceMatchesAsSplices(s: string, ms: seq<Found>, text: string, pos: nat)
    requires '$' !in text && pos <= |s| && Ordered(s, ms, pos)
    ensures Ordered(s, ms, 0)
    ensures SpliceAll(s, ms, text) == s[..pos] + ReplaceMatches(s, ms, text, pos)
    decreases |ms|
  {
    OrderedWeaken(s, ms, 0, pos);
    if ms == [] {
    } else {
      var f := ms[0];
      ReplaceMatchesAsSplices(s, ms[1..], text, End(f));
      ExpandPlain(text, s[f.index..End(f)], s[..f.index], s[End(f)..]);
      var t := SpliceAll(s, ms[1..], text);
      assert t == s[..End(f)] + ReplaceMatches(s, ms[1..], text, End(f));
      assert t[..f.index] == s[..f.index];
      assert t[End(f)..] == ReplaceMatches(s, ms[1..], text, End(f));
      assert s[..pos] + s[pos..f.index] == s[..f.index];
    }
  }

  /**
   * A global replace with a `$`-free replacement equals splicing the replacement into every
   * match the scan finds, one at a time from the last to the first.
   */
  lemma ReplaceAllIsSplices(m: Matcher, s: string, text: string)
    requires '$' !in text
    ensures Ordered(s, ScanFrom(m, s, 0), 0)
    ensures JsReplaceAll(m, s, text) == SpliceAll(s, ScanFrom(m, s, 0), text)
  {
    ScanOrdered(m, s, 0);
    ReplaceMatchesAsSplices(s, ScanFrom(m, s, 0), text, 0);
  }

  /** `q` occurs at `p`, letter case aside when `ignoreCase` holds. */
  predicate FoldOccursAt(s: string, q: string, p: nat, ignoreCase: bool) {
    p + |q| <= |s| && forall k :: 0 <= k < |q| ==> CharEq(q[k], s[p + k], ignoreCase)
  }

  /** Case-sensitive folding occurrence is plain occurrence. */
  lemma FoldOccursExact(s: string, q: string, p: nat)
    ensures FoldOccursAt(s, q, p, false) <==> OccursAt(s, q, p)
  {
    if FoldOccursAt(s, q, p, false) {
      assert s[p..p + |q|] == q;
    }
  }

  /** A run of literal atoms matches exactly where its characters occur. */
  lemma {:induction false} LitsMatch(q: string, ic: bool, s: string, p: nat)
    requires p <= |s|
    ensures AtomsMatchAt(Lits(q), ic, s, p) == if FoldOccursAt(s, q, p, ic) then Some(|q|) else None
    decreases |q|
  {
    if q != [] {
      assert Lits(q) == [Lit(q[0])] + Lits(q[1..]);
      AtomsMatchLit(q[0], Lits(q[1..]), ic, s, p);
      if p < |s| {
        FoldOccursStep(s, q, p, ic);
        if CharEq(q[0], s[p], ic) {
          LitsMatch(q[1..], ic, s, p + 1);
        }
      }
    }
  }

  /** A literal atom first: its character must be at `p`, and the rest must match after it. */
  lemma AtomsMatchLit(c: char, rest: seq<Atom>, ic: bool, s: string, p: nat)
    requires p <= |s|
    ensures AtomsMatchAt([Lit(c)] + rest, ic, s, p)
            == if p < |s| && CharEq(c, s[p], ic) && AtomsMatchAt(rest, ic, s, p + 1).Some?
               then Some(AtomsMatchAt(rest, ic, s, p + 1).value + 1) else None
  {
    var atoms := [Lit(c)] + rest;
    assert atoms[0] == Lit(c) && atoms[1..] == rest;
  }

  /** `q` occurs at `p` exactly when its first character is there and the rest follows it. */
  lemma FoldOccursStep(s: string, q: string, p: nat, ic: bool)
    requires q != [] && p < |s|
    ensures FoldOccursAt(s, q, p, ic) <==> CharEq(q[0], s[p], ic) && FoldOccursAt(s, q[1..], p + 1, ic)
  {
    if CharEq(q[0], s[p], ic) && FoldOccursAt(s, q[1..], p + 1, ic) {
      forall k | 0 <= k < |q| ensures CharEq(q[k], s[p + k], ic) {
        if k > 0 {
          assert q[k] == q[1..][k - 1];
        }
      }
    }
    if FoldOccursAt(s, q, p, ic) {
      assert CharEq(q[0], s[p + 0], ic);
      forall k | 0 <= k < |q[1..]| ensures CharEq(q[1..][k], s[p + 1 + k], ic) {
        assert CharEq(q[k + 1], s[p + (k + 1)], ic);
      }
    }
  }

  /** The match of `b` right after a match `r` of length `n` at `p`: `None` when either fails. */
  function Then(r: Option<nat>, b: seq<Atom>, ic: bool, s: string, p: nat): Option<nat>
    requires p <= |s| && (r.Some? ==> p + r.value <= |s|)
  {
    match r
    case None => None
    case Some(n) =>
      match AtomsMatchAt(b, ic, s, p + n)
      case None => None
      case Some(k) => Some(n + k)
  }

  /** Matching a concatenation of atoms is matching the first part and then the second. */
  lemma {:induction false} AtomsAppend(a: seq<Atom>, b: seq<Atom>, ic: bool, s: string, p: nat)
    requires p <= |s|
    ensures AtomsMatchAt(a + b, ic, s, p) == Then(AtomsMatchAt(a, ic, s, p), b, ic, s, p)
    decreases |a|
  {
    if a == [] {
      assert a + b == b;
    } else {
      var ab := a + b;
      assert ab[0] == a[0] && ab[1..] == a[1..] + b;
      match a[0]
      case WordBoundary =>
        if AtBoundary(s, p) {
          AtomsAppend(a[1..], b, ic, s, p);
        }
      case Lit(c) =>
        if p < |s| && CharEq(c, s[p], ic) {
          AtomsAppend(a[1..], b, ic, s, p + 1);
          ThenShift(AtomsMatchAt(a[1..], ic, s, p + 1), b, ic, s, p);
        }
    }
  }

  /** A match of one character followed by a match `r` after it is a match one longer at `p`. */
  lemma ThenShift(r: Option<nat>, b: seq<Atom>, ic: bool, s: string, p: nat)
    requires p < |s| && (r.Some? ==> p + 1 + r.value <= |s|)
    ensures Then(if r.Some? then Some(r.value + 1) else None, b, ic, s, p)
            == (if Then(r, b, ic, s, p + 1).Some? then Some(Then(r, b, ic, s, p + 1).value + 1) else None)
  {
    if r.Some? {
      assert p + (r.value + 1) == p + 1 + r.value;
    }
  }

  /**
   * A whole-word literal query matches at `p` exactly when the query occurs there and word
   * boundaries hold at both ends; the match is as long as the query.
   */
  lemma WholeWordMatch(q: string, ic: bool, s: string, p: nat)
    requires p <= |s|
    ensures AtomsMatchAt([WordBoundary] + Lits(q) + [WordBoundary], ic, s, p) ==
            if FoldOccursAt(s, q, p, ic) && AtBoundary(s, p) && AtBoundary(s, p + |q|)
            then Some(|q|) else None
  {
    var atoms := [WordBoundary] + Lits(q) + [WordBoundary];
    assert atoms == [WordBoundary] + (Lits(q) + [WordBoundary]);
    assert atoms[1..] == Lits(q) + [WordBoundary];
    LitsMatch(q, ic, s, p);
    AtomsAppend(Lits(q), [WordBoundary], ic, s, p);
    if FoldOccursAt(s, q, p, ic) {
      assert [WordBoundary][1..] == [];
    }
  }

  /**
   * Outside regex mode the query compiles without the engine, and the compiled expression
   * matches at `p` exactly where the query's characters occur (letter case aside unless
   * match-case is on), with word boundaries at both ends in whole-word mode.
   */
  lemma LiteralQuerySemantics(query: string, opts: FindOptions, engine: RegexEngine, s: string, p: nat)
    requires !opts.useRegex && p <= |s|
    ensures Compile(BuildRegex(query, opts, true), engine)
            == Some(Literal(LiteralAtoms(query, opts.matchWholeWord), !opts.matchCase))
    ensures MatchAt(Literal(LiteralAtoms(query, opts.matchWholeWord), !opts.matchCase), s, p)
            == if FoldOccursAt(s, query, p, !opts.matchCase)
                  && (opts.matchWholeWord ==> AtBoundary(s, p) && AtBoundary(s, p + |query|))
               then Some(|query|) else None
  {
    BuildRegexLiteral(query, opts, true);
    if opts.matchWholeWord {
      WholeWordMatch(query, !opts.matchCase, s, p);
    } else {
      LitsMatch(query, !opts.matchCase, s, p);
    }
  }
}
