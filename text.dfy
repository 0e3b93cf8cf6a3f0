/**
 * String helpers with JavaScript's meaning: `split` on one-character separators and
 * `pop()` of its last piece, `includes`/`indexOf`/`startsWith`/`endsWith`, the replacement
 * template of `String.prototype.replace`, first-occurrence replacement with a string pattern,
 * `trim() === ''`, decimal formatting of numbers and the `||` default for strings.
 */
module Text {
  import opened Wrappers

  /** `s || d` for a string `s`: the empty string is falsy. */
  function OrElse(s: string, d: string): string {
    if s == "" then d else s
  }

  predicate StartsWith(s: string, p: string) {
    |p| <= |s| && s[..|p|] == p
  }

  predicate EndsWith(s: string, p: string) {
    |p| <= |s| && s[|s| - |p|..] == p
  }

  /** `t` occurs in `s` at position `k`. */
  predicate OccursAt(s: string, t: string, k: nat) {
    k + |t| <= |s| && s[k..k + |t|] == t
  }

  /** `s.indexOf(t, from)`, `None` standing for -1. */
  function IndexOfFrom(s: string, t: string, from: nat): (r: Option<nat>)
    decreases |s| + 1 - from
    ensures r.Some? ==> from <= r.value && OccursAt(s, t, r.value)
    ensures r.Some? ==> forall k :: from <= k < r.value ==> !OccursAt(s, t, k)
    ensures r.None? ==> forall k :: from <= k ==> !OccursAt(s, t, k)
  {
    if from + |t| > |s| then None
    else if s[from..from + |t|] == t then Some(from)
    else IndexOfFrom(s, t, from + 1)
  }

  /** `s.includes(t)`. */
  predicate Contains(s: string, t: string) {
    IndexOfFrom(s, t, 0).Some?
  }

  /** A prefix of `u` is a prefix of `u` followed by anything. */
  lemma StartsWithAppend(u: string, t: string, p: string)
    requires StartsWith(u, p)
    ensures StartsWith(u + t, p)
  {
    assert (u + t)[..|p|] == u[..|p|];
  }

  /** `u + t` ends with `t`. */
  lemma EndsWithAppend(u: string, t: string)
    ensures EndsWith(u + t, t)
  {
    assert (u + t)[|u + t| - |t|..] == t;
  }

  lemma ContainsIff(s: string, t: string)
    ensures Contains(s, t) <==> exists k :: OccursAt(s, t, k)
  {
    if !Contains(s, t) {
      forall k | true ensures !OccursAt(s, t, k) {
      }
    }
  }

  function Last<T>(xs: seq<T>): T
    requires |xs| > 0
  {
    xs[|xs| - 1]
  }

  /**
   * `s.split(sep)` where the separator is any single character of `seps`
   * (`split('\n')`, `split('/')`, `split(/[\/\\]/)`); defined by adding one character at a time.
   */
  function Split(s: string, seps: set<char>): (r: seq<string>)
    ensures |r| >= 1
  {
    if s == [] then [[]]
    else
      var init := Split(s[..|s| - 1], seps);
      if s[|s| - 1] in seps then init + [[]]
      else init[..|init| - 1] + [Last(init) + [s[|s| - 1]]]
  }

  /** `s.split(sep).pop()`: the text after the last separator. */
  function LastSegment(s: string, seps: set<char>): string {
    Last(Split(s, seps))
  }

  /** Splitting at one separator character gives one more piece than there are separators. */
  lemma {:induction false} SplitCount(s: string, c: char)
    ensures |Split(s, {c})| == multiset(s)[c] + 1
  {
    if s != [] {
      var init := s[..|s| - 1];
      SplitCount(init, c);
      assert s == init + [s[|s| - 1]];
      assert multiset(s) == multiset(init) + multiset{s[|s| - 1]};
    }
  }

  /**
   * The last piece is the suffix of `s` that holds no separator and is either all of `s`
   * or preceded by a separator.
   */
  lemma {:induction false} LastSegmentIsSuffix(s: string, seps: set<char>)
    ensures |LastSegment(s, seps)| <= |s|
    ensures LastSegment(s, seps) == s[|s| - |LastSegment(s, seps)|..]
    ensures forall ch :: ch in LastSegment(s, seps) ==> ch !in seps
    ensures |LastSegment(s, seps)| < |s| ==> s[|s| - |LastSegment(s, seps)| - 1] in seps
  {
    if s != [] {
      var init := s[..|s| - 1];
      LastSegmentIsSuffix(init, seps);
      var l := LastSegment(init, seps);
      if s[|s| - 1] !in seps {
        assert LastSegment(s, seps) == l + [s[|s| - 1]];
        assert s[|s| - |l| - 1..] == init[|init| - |l|..] + [s[|s| - 1]];
      }
    }
  }

  /** A string without separators is a single piece. */
  lemma {:induction false} SplitNone(s: string, seps: set<char>)
    requires forall i :: 0 <= i < |s| ==> s[i] !in seps
    ensures Split(s, seps) == [s]
  {
    if s != [] {
      SplitNone(s[..|s| - 1], seps);
      assert s[..|s| - 1] + [s[|s| - 1]] == s;
    }
  }

  /** Two separator-free strings joined by one separator split back into the two. */
  lemma {:induction false} SplitTwo(a: string, sep: char, b: string, seps: set<char>)
    requires sep in seps
    requires forall i :: 0 <= i < |a| ==> a[i] !in seps
    requires forall i :: 0 <= i < |b| ==> b[i] !in seps
    ensures Split(a + [sep] + b, seps) == [a, b]
  {
    if b == [] {
      SplitNone(a, seps);
      assert a + [sep] + b == a + [sep];
      assert (a + [sep])[..|a + [sep]| - 1] == a;
    } else {
      var b0 := b[..|b| - 1];
      SplitTwo(a, sep, b0, seps);
      var s := a + [sep] + b;
      assert s[..|s| - 1] == a + [sep] + b0;
      assert s[|s| - 1] == b[|b| - 1];
      assert b0 + [b[|b| - 1]] == b;
    }
  }

  /** Splitting a string extended by one separator and a separator-free tail adds that tail as a piece. */
  lemma {:induction false} SplitAppend(a: string, sep: char, b: string, seps: set<char>)
    requires sep in seps
    requires forall i :: 0 <= i < |b| ==> b[i] !in seps
    ensures Split(a + [sep] + b, seps) == Split(a, seps) + [b]
  {
    var s := a + [sep] + b;
    if b == [] {
      assert s[..|s| - 1] == a;
      assert s[|s| - 1] == sep;
    } else {
      var b0 := b[..|b| - 1];
      SplitAppend(a, sep, b0, seps);
      assert s[..|s| - 1] == a + [sep] + b0;
      var c := s[|s| - 1];
      assert c == b[|b| - 1] && c !in seps;
      var init := Split(a + [sep] + b0, seps);
      assert init == Split(a, seps) + [b0];
      assert Split(s, seps) == init[..|init| - 1] + [Last(init) + [c]];
      assert init[..|init| - 1] == Split(a, seps);
      assert b0 + [c] == b;
    }
  }

  /** `xs.join(sep)`. */
  function Join(xs: seq<string>, sep: string): string {
    if |xs| == 0 then ""
    else if |xs| == 1 then xs[0]
    else Join(xs[..|xs| - 1], sep) + sep + Last(xs)
  }

  /** Joining pieces without the separator character and splitting again gives the pieces back. */
  lemma {:induction false} SplitJoin(xs: seq<string>, sep: char)
    requires |xs| >= 1
    requires forall k, i :: 0 <= k < |xs| && 0 <= i < |xs[k]| ==> xs[k][i] != sep
    ensures Split(Join(xs, [sep]), {sep}) == xs
  {
    if |xs| == 1 {
      SplitNone(xs[0], {sep});
    } else {
      var init := xs[..|xs| - 1];
      assert forall k, i :: 0 <= k < |init| && 0 <= i < |init[k]| ==> init[k][i] != sep by {
        forall k, i | 0 <= k < |init| && 0 <= i < |init[k]| ensures init[k][i] != sep {
          assert init[k] == xs[k];
        }
      }
      SplitJoin(init, sep);
      SplitAppend(Join(init, [sep]), sep, Last(xs), {sep});
      assert init + [Last(xs)] == xs;
    }
  }

  /** `s.substring(0, n)`: the first `n` characters, or all of `s` when it is shorter. */
  function Prefix(s: string, n: nat): string {
    if n <= |s| then s[..n] else s
  }

  /** `s.substring(n)`: what follows the first `n` characters. */
  function SuffixFrom(s: string, n: nat): string {
    if n <= |s| then s[n..] else []
  }

  /** Every character of `s` equal to `from` becomes `to` (`s.replace(/x/g, 'y')`). */
  function ReplaceChar(s: string, from: char, to: char): (r: string)
    ensures |r| == |s|
    ensures forall i :: 0 <= i < |s| ==> r[i] == (if s[i] == from then to else s[i])
  {
    if s == [] then [] else [if s[0] == from then to else s[0]] + ReplaceChar(s[1..], from, to)
  }

  /**
   * The replacement template of `String.prototype.replace` for a pattern without capture
   * groups: `$$` is a dollar sign, `$&` the matched text, `` $` `` the text before the match,
   * `$'` the text after it; any other `$` is kept as written.
   */
  function Expand(template: string, matched: string, before: string, after: string): string
    decreases |template|
  {
    if template == [] then []
    else if template[0] == '$' && |template| >= 2 && template[1] in {'$', '&', '`', '\''} then
      var piece := match template[1]
        case '$' => "$"
        case '&' => matched
        case '`' => before
        case _ => after;
      piece + Expand(template[2..], matched, before, after)
    else [template[0]] + Expand(template[1..], matched, before, after)
  }

  /** A template without a dollar sign is inserted as written. */
  lemma {:induction false} ExpandPlain(template: string, matched: string, before: string, after: string)
    requires '$' !in template
    ensures Expand(template, matched, before, after) == template
  {
    if template != [] {
      assert template[0] != '$';
      assert '$' !in template[1..];
      ExpandPlain(template[1..], matched, before, after);
    }
  }

  /**
   * `s.replace(pattern, replacement)` with a string pattern: only the first occurrence is
   * replaced, and the replacement is expanded as a template.
   */
  function ReplaceFirst(s: string, pattern: string, replacement: string): string {
    match IndexOfFrom(s, pattern, 0)
    case None => s
    case Some(p) =>
      s[..p] + Expand(replacement, pattern, s[..p], s[p + |pattern|..]) + s[p + |pattern|..]
  }

  /** `k` is where `t` first occurs in `s`. */
  predicate FirstOccurrence(s: string, t: string, k: nat) {
    OccursAt(s, t, k) && forall j: nat :: j < k ==> !OccursAt(s, t, j)
  }

  /** With a dollar-free replacement, `s.replace(pattern, replacement)` swaps exactly the first occurrence. */
  lemma ReplaceFirstAt(s: string, pattern: string, replacement: string, p: nat)
    requires '$' !in replacement && FirstOccurrence(s, pattern, p)
    ensures ReplaceFirst(s, pattern, replacement) == s[..p] + replacement + s[p + |pattern|..]
  {
    var q := IndexOfFrom(s, pattern, 0).value;
    assert q == p;
    ExpandPlain(replacement, pattern, s[..q], s[q + |pattern|..]);
  }

  /** `s.replace(pattern, replacement)` is `s` when the pattern does not occur. */
  lemma ReplaceFirstAbsent(s: string, pattern: string, replacement: string)
    requires forall k: nat :: !OccursAt(s, pattern, k)
    ensures ReplaceFirst(s, pattern, replacement) == s
  {
  }

  /** The characters `String.prototype.trim` removes: white space and line terminators. */
  predicate IsJsSpace(c: char) {
    c in {'\t', '\n', '\r', ' ', '\U{0B}', '\U{0C}', '\U{A0}', '\U{FEFF}', '\U{1680}',
          '\U{2028}', '\U{2029}', '\U{202F}', '\U{205F}', '\U{3000}'}
    || ('\U{2000}' <= c <= '\U{200A}')
  }

  /** `s.trim() === ''`. */
  predicate IsBlank(s: string) {
    forall i :: 0 <= i < |s| ==> IsJsSpace(s[i])
  }

  function DigitChar(d: nat): char
    requires d < 10
  {
    "0123456789"[d]
  }

  /** Decimal notation of a non-negative integer, as template literals print it. */
  function NatToString(n: nat): (r: string)
    ensures |r| >= 1
    ensures forall i :: 0 <= i < |r| ==> '0' <= r[i] <= '9'
  {
    if n < 10 then [DigitChar(n)] else NatToString(n / 10) + [DigitChar(n % 10)]
  }

  /** Decimal notation of an integer, with a leading minus sign when negative. */
  function IntToString(i: int): string {
    if i < 0 then "-" + NatToString(-i) else NatToString(i)
  }

  /** The value of a string of decimal digits. */
  function DigitsValue(s: string): nat
    requires forall i :: 0 <= i < |s| ==> '0' <= s[i] <= '9'
  {
    if s == [] then 0 else DigitsValue(s[..|s| - 1]) * 10 + ((s[|s| - 1] as int) - ('0' as int))
  }

  /** Decimal notation is read back as the same number. */
  lemma {:induction false} NatToStringValue(n: nat)
    ensures DigitsValue(NatToString(n)) == n
  {
    if n >= 10 {
      NatToStringValue(n / 10);
      var r := NatToString(n);
      assert r[..|r| - 1] == NatToString(n / 10);
    }
  }
}
