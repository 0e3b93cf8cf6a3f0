/**
 * The find-and-replace engine of the editor's find widget: a search session over the markdown
 * source with a query, a replacement, three option flags, the ordered list of matches (each
 * with a 1-based line and column), the index of the current match, the count label and the
 * enabled state of the two navigation buttons. It drives the highlight overlay.
 *
 * The editor is `Some(text)` when the widget is present (`getValue`/`setValue` read and write
 * that text) and `None` when it is not (reads give '' and writes do nothing). The page the
 * overlay draws on is a parameter of every operation that draws. Deferred steps (the 100 ms
 * scroll after highlighting, the 50 ms re-search after a replacement) run at the end of the
 * operation that schedules them.
 */
module FindReplace {
  import opened Wrappers
  import opened Text
  import opened RegexLiteral
  import opened LiteralMatch
  import opened HighlightOverlay

  /** One match in the markdown source. */
  datatype FindResult = FindResult(index: nat, length: nat, line: nat, column: nat)

  /** The line and column of a match: the source before it split at line feeds. */
  function ToResult(content: string, f: Found): FindResult {
    var lines := Split(Prefix(content, f.index), {'\n'});
    FindResult(f.index, f.length, |lines|, |Last(lines)| + 1)
  }

  function Annotate(content: string, fs: seq<Found>): (r: seq<FindResult>)
    ensures |r| == |fs|
    ensures forall i :: 0 <= i < |fs| ==> r[i] == ToResult(content, fs[i])
  {
    if fs == [] then [] else [ToResult(content, fs[0])] + Annotate(content, fs[1..])
  }

  /**
   * What `findInText` returns: every match the global expression's `exec` loop finds, in
   * order; none when the expression does not compile.
   */
  function Matches(content: string, query: string, opts: FindOptions, engine: RegexEngine): (r: seq<FindResult>)
    ensures Compile(BuildRegex(query, opts, true), engine).None? ==> r == []
  {
    match Compile(BuildRegex(query, opts, true), engine)
    case None => []
    case Some(m) => Annotate(content, ScanFrom(m, content, 0))
  }

  lemma AnnotateStep(content: string, m: Matcher, from: nat, f: Found)
    requires FirstMatchFrom(m, content, from) == Some(f)
    ensures Annotate(content, ScanFrom(m, content, from))
            == [ToResult(content, f)] + Annotate(content, ScanFrom(m, content, NextLastIndex(f)))
  {
    ScanStep(m, content, from);
    var rest := ScanFrom(m, content, NextLastIndex(f));
    assert ([f] + rest)[1..] == rest;
  }

  /** The record of one match: the source before it split at line feeds gives line and column. */
  method Locate(content: string, f: Found) returns (r: FindResult)
    ensures r == ToResult(content, f)
  {
    var lines := Split(Prefix(content, f.index), {'\n'});
    var line := |lines|;
    var column := |lines[|lines| - 1]| + 1;
    r := FindResult(f.index, f.length, line, column);
  }

  /**
   * `findInText`: runs `exec` until it returns `null`, recording each match with its line and
   * column and moving `lastIndex` past an empty match; a pattern that does not compile gives
   * no results instead of an exception.
   */
  method FindInText(content: string, query: string, opts: FindOptions, engine: RegexEngine)
    returns (results: seq<FindResult>)
    ensures results == Matches(content, query, opts, engine)
  {
    results := [];
    var compiled := Compile(BuildRegex(query, opts, true), engine);
    if compiled.None? {
      return;
    }
    var m := compiled.value;
    ghost var all := Annotate(content, ScanFrom(m, content, 0));
    var lastIndex: nat := 0;
    var found := FirstMatchFrom(m, content, lastIndex);
    while found.Some?
      invariant lastIndex <= |content| + 1
      invariant found == FirstMatchFrom(m, content, lastIndex)
      invariant results + Annotate(content, ScanFrom(m, content, lastIndex)) == all
      decreases |content| + 1 - lastIndex
    {
      results, lastIndex := NextResult(content, m, lastIndex, found.value, results, all);
      found := FirstMatchFrom(m, content, lastIndex);
    }
    assert results == all by {
      ScanStep(m, content, lastIndex);
      assert results + [] == results;
    }
  }

  /** One round of `findInText`: match `f` is recorded and `lastIndex` moves past it. */
  method NextResult(content: string, m: Matcher, lastIndex: nat, f: Found, results: seq<FindResult>,
                    ghost all: seq<FindResult>)
    returns (results': seq<FindResult>, lastIndex': nat)
    requires FirstMatchFrom(m, content, lastIndex) == Some(f)
    requires results + Annotate(content, ScanFrom(m, content, lastIndex)) == all
    ensures results' + Annotate(content, ScanFrom(m, content, lastIndex')) == all
    ensures lastIndex < lastIndex' <= |content| + 1
  {
    var r := Locate(content, f);
    ghost var later := Annotate(content, ScanFrom(m, content, NextLastIndex(f)));
    AnnotateStep(content, m, lastIndex, f);
    SeqAssoc(results, [r], later);
    results' := results + [r];
    NextLastIndexAdvances(m, content, lastIndex);
    lastIndex' := End(f);
    if f.index == lastIndex' {
      lastIndex' := lastIndex' + 1;
    }
    assert lastIndex' == NextLastIndex(f);
  }

  /**
   * The matches lie inside the source, start at strictly increasing offsets and do not
   * overlap.
   */
  lemma MatchesInOrder(content: string, query: string, opts: FindOptions, engine: RegexEngine)
    ensures forall i :: 0 <= i < |Matches(content, query, opts, engine)| ==>
              Matches(content, query, opts, engine)[i].index + Matches(content, query, opts, engine)[i].length <= |content|
    ensures forall i, j :: 0 <= i < j < |Matches(content, query, opts, engine)| ==>
              Matches(content, query, opts, engine)[i].index < Matches(content, query, opts, engine)[j].index
              && Matches(content, query, opts, engine)[i].index + Matches(content, query, opts, engine)[i].length
                 <= Matches(content, query, opts, engine)[j].index
  {
    match Compile(BuildRegex(query, opts, true), engine)
    case None =>
    case Some(m) =>
      ScanWellFormed(m, content, 0);
      AnnotateInOrder(content, ScanFrom(m, content, 0));
  }

  /** Annotating matches keeps their offsets and lengths, so it keeps their order. */
  lemma AnnotateInOrder(content: string, fs: seq<Found>)
    requires forall i :: 0 <= i < |fs| ==> End(fs[i]) <= |content|
    requires forall i, j :: 0 <= i < j < |fs| ==> NextLastIndex(fs[i]) <= fs[j].index
    ensures forall i :: 0 <= i < |Annotate(content, fs)| ==>
              Annotate(content, fs)[i].index + Annotate(content, fs)[i].length <= |content|
    ensures forall i, j :: 0 <= i < j < |Annotate(content, fs)| ==>
              Annotate(content, fs)[i].index < Annotate(content, fs)[j].index
              && Annotate(content, fs)[i].index + Annotate(content, fs)[i].length <= Annotate(content, fs)[j].index
  {
    var rs := Annotate(content, fs);
    forall i | 0 <= i < |rs| ensures rs[i].index == fs[i].index && rs[i].length == fs[i].length {
      assert rs[i] == ToResult(content, fs[i]);
    }
  }

  /**
   * The line of a match is one more than the number of line feeds before it, and its column
   * is one more than the number of characters since the last line feed before it (or since
   * the start of the source).
   */
  predicate Positioned(content: string, r: FindResult) {
    r.index <= |content|
    && r.line == multiset(content[..r.index])['\n'] + 1
    && 1 <= r.column <= r.index + 1
    && (forall k :: r.index + 1 - r.column <= k < r.index ==> content[k] != '\n')
    && (r.column <= r.index ==> content[r.index - r.column] == '\n')
  }

  /** A match inside the source gets the line and column of its offset. */
  lemma {:induction false} ResultPosition(content: string, f: Found)
    requires f.index <= |content|
    ensures Positioned(content, ToResult(content, f))
  {
    var before := content[..f.index];
    assert Prefix(content, f.index) == before;
    SplitCount(before, '\n');
    LastSegmentIsSuffix(before, {'\n'});
    var tail := LastSegment(before, {'\n'});
    forall k | f.index - |tail| <= k < f.index ensures content[k] != '\n' {
      assert content[k] == tail[k - (f.index - |tail|)];
    }
  }

  /** Every match found lies inside the source and carries the line and column of its offset. */
  lemma MatchPosition(content: string, query: string, opts: FindOptions, engine: RegexEngine, i: nat)
    requires i < |Matches(content, query, opts, engine)|
    ensures Positioned(content, Matches(content, query, opts, engine)[i])
  {
    var m := Compile(BuildRegex(query, opts, true), engine).value;
    var fs := ScanFrom(m, content, 0);
    assert Matches(content, query, opts, engine) == Annotate(content, fs);
    ScanWellFormed(m, content, 0);
    ResultPosition(content, fs[i]);
  }

  /**
   * Outside regex mode every match is an occurrence of the query (letter case aside unless
   * match-case is on), as long as the query, between word boundaries in whole-word mode.
   */
  lemma LiteralMatchesAreOccurrences(content: string, query: string, opts: FindOptions, engine: RegexEngine, i: nat)
    requires !opts.useRegex && i < |Matches(content, query, opts, engine)|
    ensures var r := Matches(content, query, opts, engine)[i];
            r.length == |query| && FoldOccursAt(content, query, r.index, !opts.matchCase)
            && (opts.matchWholeWord ==> AtBoundary(content, r.index) && AtBoundary(content, r.index + |query|))
  {
    var m := Literal(LiteralAtoms(query, opts.matchWholeWord), !opts.matchCase);
    LiteralQuerySemantics(query, opts, engine, content, 0);
    ScanWellFormed(m, content, 0);
    var f := ScanFrom(m, content, 0)[i];
    LiteralQuerySemantics(query, opts, engine, content, f.index);
  }

  /**
   * Outside regex mode no occurrence is missed: each one is the start of a match found or lies
   * inside a match found before it.
   */
  lemma LiteralMatchesComplete(content: string, query: string, opts: FindOptions, engine: RegexEngine, p: nat)
    requires !opts.useRegex && FoldOccursAt(content, query, p, !opts.matchCase)
    requires opts.matchWholeWord ==> AtBoundary(content, p) && AtBoundary(content, p + |query|)
    ensures exists i :: 0 <= i < |Matches(content, query, opts, engine)| &&
              (Matches(content, query, opts, engine)[i].index == p ||
               Matches(content, query, opts, engine)[i].index < p
                 < Matches(content, query, opts, engine)[i].index + Matches(content, query, opts, engine)[i].length)
  {
    var m := Literal(LiteralAtoms(query, opts.matchWholeWord), !opts.matchCase);
    LiteralQuerySemantics(query, opts, engine, content, p);
    ScanComplete(m, content, 0, p);
    var i :| 0 <= i < |ScanFrom(m, content, 0)| &&
             (ScanFrom(m, content, 0)[i].index == p ||
              ScanFrom(m, content, 0)[i].index < p < End(ScanFrom(m, content, 0)[i]));
    assert Matches(content, query, opts, engine)[i].index == ScanFrom(m, content, 0)[i].index;
  }

  /**
   * Running `exec` again from a match's own offset finds that very match, so the re-check in
   * `replaceCurrent` replaces exactly the match recorded.
   */
  lemma ReExecFindsTarget(content: string, query: string, opts: FindOptions, engine: RegexEngine, i: nat)
    requires i < |Matches(content, query, opts, engine)|
    ensures Compile(BuildRegex(query, opts, true), engine).Some?
    ensures var r := Matches(content, query, opts, engine)[i];
            FirstMatchFrom(Compile(BuildRegex(query, opts, true), engine).value, content, r.index)
            == Some(Found(r.index, r.length))
  {
    var m := Compile(BuildRegex(query, opts, true), engine).value;
    ScanWellFormed(m, content, 0);
    var f := ScanFrom(m, content, 0)[i];
    assert MatchAt(m, content, f.index) == Some(f.length);
  }

  /** The text of the count label when there is no match. */
  const NoMatchLabel := "无匹配"

  /** The count label: the no-match text for a total of 0, otherwise `current/total`. */
  function FindCountLabel(current: int, total: int): string {
    if total == 0 then NoMatchLabel else IntToString(current) + "/" + IntToString(total)
  }

  /**
   * The label is the no-match text exactly when the total is 0; otherwise it reads back as the
   * two numbers on either side of the one slash.
   */
  lemma FindCountLabelReadsBack(current: nat, total: nat)
    ensures FindCountLabel(current, total) == NoMatchLabel <==> total == 0
    ensures total > 0 ==>
              Split(FindCountLabel(current, total), {'/'}) == [NatToString(current), NatToString(total)]
              && DigitsValue(NatToString(current)) == current && DigitsValue(NatToString(total)) == total
  {
    var a := NatToString(current);
    var b := NatToString(total);
    if total > 0 {
      assert a + "/" + b == a + ['/'] + b;
      SplitTwo(a, '/', b, {'/'});
      NatToStringValue(current);
      NatToStringValue(total);
      assert (a + "/" + b)[|a|] == '/';
      assert '/' !in NoMatchLabel;
    }
  }

  /** JavaScript's `%`: the remainder takes the sign of the dividend. */
  function JsRem(a: int, n: int): int
    requires n > 0
  {
    if a >= 0 then a % n else -((-a) % n)
  }

  /** The index after `findNext`: `(i + 1) % n`. */
  function NextIndex(i: int, n: int): (r: int)
    requires n > 0
    ensures -n < r < n
    ensures i + 1 < 0 ==> r <= 0
  {
    JsRem(i + 1, n)
  }

  /** The index after `findPrevious`: `(i - 1 + n) % n`. */
  function PrevIndex(i: int, n: int): (r: int)
    requires n > 0
    ensures -n < r < n
    ensures i - 1 + n < 0 ==> r <= 0
  {
    JsRem(i - 1 + n, n)
  }

  /** From an index of -1 or more, both steps land on a match. */
  lemma NavigationInRange(i: int, n: int)
    requires n > 0 && i >= -1
    ensures 0 <= NextIndex(i, n) < n && 0 <= PrevIndex(i, n) < n
  {
  }

  /** On a match, stepping forward and back (or back and forward) returns to it. */
  lemma NextPrevInverse(i: int, n: int)
    requires 0 <= i < n
    ensures PrevIndex(NextIndex(i, n), n) == i
    ensures NextIndex(PrevIndex(i, n), n) == i
  {
    ModStep(i + 1, n);
    ModStep(i - 1 + n, n);
    ModUnique(i, n, 0, i);
    ModUnique(i + n, n, 1, i);
  }

  /** The index after `k` calls of `findNext`. */
  function NextSteps(i: int, n: int, k: nat): (r: int)
    requires n > 0 && i >= -1
    ensures r >= -1
  {
    if k == 0 then i
    else
      var j := NextSteps(i, n, k - 1);
      NavigationInRange(j, n);
      NextIndex(j, n)
  }

  /** The index after `k` calls of `findPrevious`. */
  function PrevSteps(i: int, n: int, k: nat): (r: int)
    requires n > 0 && i >= -1
    ensures r >= -1
  {
    if k == 0 then i
    else
      var j := PrevSteps(i, n, k - 1);
      NavigationInRange(j, n);
      PrevIndex(j, n)
  }

  lemma {:induction false} MulAtLeast(k: int, n: int)
    requires k >= 1 && n > 0
    ensures k * n >= n
  {
    if k > 1 {
      MulAtLeast(k - 1, n);
      assert k * n == (k - 1) * n + n;
    }
  }

  /** The remainder is the `r` of any decomposition `x == q * n + r` with `0 <= r < n`. */
  lemma ModUnique(x: int, n: int, q: int, r: int)
    requires n > 0 && 0 <= r < n && x == q * n + r
    ensures x % n == r
  {
    var q2 := x / n;
    var r2 := x % n;
    assert x == q2 * n + r2;
    assert (q - q2) * n == r2 - r;
    if q > q2 {
      MulAtLeast(q - q2, n);
    } else if q < q2 {
      assert (q2 - q) * n == r - r2;
      MulAtLeast(q2 - q, n);
    }
  }

  lemma ModStep(a: int, n: int)
    requires n > 0
    ensures (a % n + 1) % n == (a + 1) % n
    ensures (a % n - 1 + n) % n == (a - 1) % n
  {
    var q := a / n;
    var r := a % n;
    assert a == q * n + r;
    if r + 1 < n {
      ModUnique(a + 1, n, q, r + 1);
      ModUnique(r + 1, n, 0, r + 1);
    } else {
      ModUnique(a + 1, n, q + 1, 0);
      ModUnique(r + 1, n, 1, 0);
    }
    if r > 0 {
      ModUnique(a - 1, n, q, r - 1);
      ModUnique(r - 1 + n, n, 1, r - 1);
    } else {
      ModUnique(a - 1, n, q - 1, n - 1);
      ModUnique(r - 1 + n, n, 0, n - 1);
    }
  }

  /** Forward navigation from a match wraps around: `k` steps advance by `k` modulo the count. */
  lemma {:induction false} NextStepsWrap(i: int, n: int, k: nat)
    requires 0 <= i < n
    ensures NextSteps(i, n, k) == (i + k) % n
  {
    if k > 0 {
      NextStepsWrap(i, n, k - 1);
      ModStep(i + k - 1, n);
    }
  }

  /** Backward navigation from a match wraps around: `k` steps go back by `k` modulo the count. */
  lemma {:induction false} PrevStepsWrap(i: int, n: int, k: nat)
    requires 0 <= i < n
    ensures PrevSteps(i, n, k) == (i - k) % n
  {
    if k > 0 {
      PrevStepsWrap(i, n, k - 1);
      ModStep(i - (k - 1), n);
    }
  }

  /** `n` steps in either direction return to the match one started from. */
  lemma NavigationCycles(i: int, n: int)
    requires 0 <= i < n
    ensures NextSteps(i, n, n) == i && PrevSteps(i, n, n) == i
  {
    NextStepsWrap(i, n, n);
    PrevStepsWrap(i, n, n);
    ModUnique(i + n, n, 1, i);
    ModUnique(i - n, n, -1, i);
  }

  /** `replaceCurrent`'s new source: the text before the match, the replacement, the text after. */
  function ReplaceAt(content: string, r: FindResult, text: string): string {
    Prefix(content, r.index) + text + SuffixFrom(content, r.index + r.length)
  }

  /**
   * Replacing a match inside the source keeps everything before and after it, puts the
   * replacement where it was and changes the length by the difference.
   */
  lemma ReplaceAtFrame(content: string, r: FindResult, text: string)
    requires r.index + r.length <= |content|
    ensures |ReplaceAt(content, r, text)| == |content| - r.length + |text|
    ensures ReplaceAt(content, r, text)[..r.index] == content[..r.index]
    ensures ReplaceAt(content, r, text)[r.index..r.index + |text|] == text
    ensures ReplaceAt(content, r, text)[r.index + |text|..] == content[r.index + r.length..]
  {
    var c := ReplaceAt(content, r, text);
    assert c == content[..r.index] + text + content[r.index + r.length..];
  }

  /**
   * With a single match and a replacement without `$`, replacing all and replacing the current
   * match give the same source.
   */
  lemma ReplaceAllAgreesOnSingleMatch(content: string, query: string, opts: FindOptions, engine: RegexEngine,
                                      text: string)
    requires '$' !in text && |Matches(content, query, opts, engine)| == 1
    ensures Compile(BuildRegex(query, opts, true), engine).Some?
    ensures JsReplaceAll(Compile(BuildRegex(query, opts, true), engine).value, content, text)
            == ReplaceAt(content, Matches(content, query, opts, engine)[0], text)
  {
    var m := Compile(BuildRegex(query, opts, true), engine).value;
    var ms := ScanFrom(m, content, 0);
    ReplaceAllIsSplices(m, content, text);
    ScanWellFormed(m, content, 0);
    assert ms[1..] == [];
    assert SpliceAll(content, ms, text) == SpliceAt(content, ms[0], text);
  }

  /**
   * `replaceAll` expands `$&` in the replacement while `replaceCurrent` inserts it as written:
   * replacing the `a` of `ab` with `$&$&` gives `aab` for all matches and `$&$&b` for the
   * current one.
   */
  lemma ReplaceTemplateDivergence(engine: RegexEngine)
    ensures Compile(BuildRegex("a", DefaultOptions, true), engine) == Some(Literal([Lit('a')], true))
    ensures JsReplaceAll(Literal([Lit('a')], true), "ab", "$&$&") == "aab"
    ensures Matches("ab", "a", DefaultOptions, engine) == [FindResult(0, 1, 1, 1)]
    ensures ReplaceAt("ab", FindResult(0, 1, 1, 1), "$&$&") == "$&$&b"
  {
    BuildRegexLiteral("a", DefaultOptions, true);
    assert Lits("a") == [Lit('a')];
    var m := Literal([Lit('a')], true);
    var s := "ab";
    assert AtomsMatchAt([Lit('a')], true, s, 0) == Some(1);
    assert MatchAt(m, s, 0) == Some(1);
    assert FirstMatchFrom(m, s, 0) == Some(Found(0, 1));
    assert MatchAt(m, s, 1).None?;
    assert MatchAt(m, s, 2).None?;
    assert FirstMatchFrom(m, s, 3).None?;
    assert FirstMatchFrom(m, s, 1).None?;
    assert ScanFrom(m, s, 1) == [];
    assert ScanFrom(m, s, 0) == [Found(0, 1)];
    assert Expand("", "a", "", "b") == "";
    assert Expand("$&", "a", "", "b") == "a";
    assert Expand("$&$&", "a", "", "b") == "aa";
    assert s[..0] == [] && s[0..1] == "a" && s[1..] == "b";
    assert ReplaceMatches(s, [], "$&$&", 1) == "b";
    assert ReplaceMatches(s, [Found(0, 1)], "$&$&", 0) == "aab";
    assert Split(Prefix(s, 0), {'\n'}) == [[]];
  }

  /** The three option buttons. */
  datatype OptionName = MatchCase | MatchWholeWord | UseRegex

  /** The options after the button for `which` is pressed: that flag flips, the others stay. */
  function Toggle(opts: FindOptions, which: OptionName): (r: FindOptions)
    ensures r.matchCase == (if which == MatchCase then !opts.matchCase else opts.matchCase)
    ensures r.matchWholeWord == (if which == MatchWholeWord then !opts.matchWholeWord else opts.matchWholeWord)
    ensures r.useRegex == (if which == UseRegex then !opts.useRegex else opts.useRegex)
  {
    match which
    case MatchCase => opts.(matchCase := !opts.matchCase)
    case MatchWholeWord => opts.(matchWholeWord := !opts.matchWholeWord)
    case UseRegex => opts.(useRegex := !opts.useRegex)
  }

  /** Pressing the same option button twice restores the options. */
  lemma ToggleTwice(opts: FindOptions, which: OptionName)
    ensures Toggle(Toggle(opts, which), which) == opts
  {
  }

  class FindReplaceHandler {
    /** Whether the panel carries the `visible` class. */
    var visible: bool
    /** Whether the replace row is displayed. */
    var replaceRowShown: bool
    /** The find and replace input values. */
    var findValue: string
    var replaceValue: string
    var options: FindOptions
    var results: seq<FindResult>
    var currentIndex: int
    /** The text of the count label. */
    var countLabel: string
    /** Whether the previous/next buttons are enabled. */
    var navEnabled: bool
    /** The editor widget's markdown source, when there is a widget. */
    var editor: Option<string>
    const overlay: Overlay
    /** The JavaScript regular-expression engine. */
    const engine: RegexEngine

    ghost predicate Valid()
      reads this, overlay
    {
      currentIndex >= -1 && overlay.Valid() && overlay.engine == engine
    }

    /** `getEditorContent()`. */
    function Content(): string
      reads this
    {
      editor.GetOr("")
    }

    /** The overlay arguments for the current query, options and index `ci`. */
    function Args(ci: int): ShowArgs
      reads this
    {
      ShowArgs(findValue, ci, options.matchCase, options.matchWholeWord, options.useRegex)
    }

    /** The panel inputs and the overlay's liveness are what they were. */
    twostate predicate InputsKept()
      reads this, overlay
    {
      visible == old(visible) && replaceRowShown == old(replaceRowShown)
      && findValue == old(findValue) && replaceValue == old(replaceValue) && options == old(options)
      && overlay.alive == old(overlay.alive)
    }

    /** The overlay is unchanged and so are the matches, the index and the label. */
    twostate predicate SessionKept()
      reads this, overlay
    {
      editor == old(editor) && results == old(results) && currentIndex == old(currentIndex)
      && countLabel == old(countLabel) && navEnabled == old(navEnabled)
      && overlay.elements == old(overlay.elements) && overlay.lastArgs == old(overlay.lastArgs)
      && overlay.scrolls == old(overlay.scrolls)
    }

    /**
     * The overlay after `highlightResults` (and, with `twice`, one more restyle and scroll):
     * the boxes of the current query with the current index, the scroll to the current box,
     * or nothing drawn and nothing recorded for an empty query or a removed overlay.
     */
    ghost predicate Shown(page: Page, lastArgs0: Option<ShowArgs>, scrolls0: seq<ScrollTarget>, twice: bool)
      reads this, overlay
    {
      var args := Args(currentIndex);
      var req := ScrollRequest(overlay.alive, overlay.elements, currentIndex, page);
      (if findValue != "" && overlay.alive
       then overlay.lastArgs == Some(args) && overlay.elements == ShownElements(args, page, engine)
       else overlay.lastArgs == lastArgs0 && overlay.elements == [])
      && overlay.scrolls == scrolls0 + req + (if twice then req else [])
    }

    /** Drawing the current query throws: the overlay's expression does not compile. */
    ghost predicate Throws(page: Page)
      reads this, overlay
    {
      findValue != "" && overlay.alive && ShowResult(Args(currentIndex), page, engine).None?
    }

    /**
     * The session after `performFind`: no query or no match gives no results, index -1, the
     * no-match label, disabled buttons and an empty overlay; otherwise the matches of the source,
     * index 0, the label `1/n`, enabled buttons and the matches highlighted.
     */
    ghost predicate Searched(page: Page, lastArgs0: Option<ShowArgs>, scrolls0: seq<ScrollTarget>)
      reads this, overlay
    {
      var ms := Matches(Content(), findValue, options, engine);
      if findValue == "" || ms == [] then
        results == [] && currentIndex == -1 && countLabel == NoMatchLabel && !navEnabled
        && overlay.elements == [] && overlay.lastArgs == lastArgs0 && overlay.scrolls == scrolls0
      else
        results == ms && currentIndex == 0 && countLabel == FindCountLabel(1, |ms|) && navEnabled
        && Shown(page, lastArgs0, scrolls0, false)
    }

    /** `performFind` throws: there are matches and drawing them throws. */
    ghost predicate SearchThrows(page: Page)
      reads this, overlay
    {
      findValue != "" && Matches(Content(), findValue, options, engine) != [] && Throws(page)
    }

    /** The handler once initialised: panel hidden, empty inputs, default options, no match. */
    constructor (engine: RegexEngine, editor: Option<string>)
      ensures Valid() && fresh(overlay)
      ensures !visible && !replaceRowShown && findValue == "" && replaceValue == ""
      ensures options == DefaultOptions && results == [] && currentIndex == -1
      ensures countLabel == NoMatchLabel && navEnabled && this.editor == editor && this.engine == engine
      ensures overlay.alive && overlay.elements == [] && overlay.lastArgs.None? && overlay.scrolls == []
    {
      visible := false;
      replaceRowShown := false;
      findValue := "";
      replaceValue := "";
      options := DefaultOptions;
      results := [];
      currentIndex := -1;
      countLabel := NoMatchLabel;
      navEnabled := true;
      this.editor := editor;
      this.engine := engine;
      overlay := new Overlay(engine);
    }

    /** `setEditorContent`: writes the source into the widget, when there is one. */
    method SetEditorContent(content: string)
      modifies this
      ensures editor == (if old(editor).Some? then Some(content) else None)
      ensures visible == old(visible) && replaceRowShown == old(replaceRowShown)
      ensures findValue == old(findValue) && replaceValue == old(replaceValue) && options == old(options)
      ensures results == old(results) && currentIndex == old(currentIndex)
      ensures countLabel == old(countLabel) && navEnabled == old(navEnabled)
    {
      if editor.Some? {
        editor := Some(content);
      }
    }

    /** `updateFindCount`: the label, and the buttons enabled exactly when the total is positive. */
    method UpdateFindCount(current: int, total: int)
      modifies this
      ensures countLabel == FindCountLabel(current, total) && navEnabled == (total > 0)
      ensures visible == old(visible) && replaceRowShown == old(replaceRowShown)
      ensures findValue == old(findValue) && replaceValue == old(replaceValue) && options == old(options)
      ensures results == old(results) && currentIndex == old(currentIndex) && editor == old(editor)
    {
      if total == 0 {
        countLabel := NoMatchLabel;
      } else {
        countLabel := IntToString(current) + "/" + IntToString(total);
      }
      navEnabled := total > 0;
    }

    /** `clearHighlights`: empties the overlay, the results and the index. */
    method ClearHighlights()
      requires Valid()
      modifies this, overlay
      ensures Valid() && InputsKept()
      ensures results == [] && currentIndex == -1 && overlay.elements == []
      ensures editor == old(editor) && countLabel == old(countLabel) && navEnabled == old(navEnabled)
      ensures overlay.lastArgs == old(overlay.lastArgs) && overlay.scrolls == old(overlay.scrolls)
    {
      overlay.ClearHighlights();
      results := [];
      currentIndex := -1;
    }

    /** `highlightResults`: draws the current query, then restyles and scrolls to the current box. */
    method HighlightResults(page: Page) returns (threw: bool)
      requires Valid()
      modifies overlay
      ensures Valid() && overlay.alive == old(overlay.alive)
      ensures Shown(page, old(overlay.lastArgs), old(overlay.scrolls), false)
      ensures threw <==> Throws(page)
    {
      if findValue == "" {
        overlay.ClearHighlights();
        return false;
      }
      var args := Args(currentIndex);
      var count := overlay.ShowHighlights(args, page);
      if count.None? {
        return true;
      }
      if currentIndex >= 0 && count.value > 0 {
        if overlay.alive {
          RestyleRender(ShowResult(args, page, engine).value, currentIndex, currentIndex);
        }
        overlay.UpdateCurrentHighlight(currentIndex);
        overlay.ScrollToHighlight(currentIndex, page);
      }
      threw := false;
    }

    /** `performFind`: searches the source for the query and shows the outcome. */
    method PerformFind(page: Page) returns (threw: bool)
      requires Valid()
      modifies this, overlay
      ensures Valid() && InputsKept() && editor == old(editor)
      ensures Searched(page, old(overlay.lastArgs), old(overlay.scrolls))
      ensures threw <==> SearchThrows(page)
    {
      if findValue == "" {
        ClearHighlights();
        UpdateFindCount(0, 0);
        return false;
      }
      var content := Content();
      results := FindInText(content, findValue, options, engine);
      if |results| > 0 {
        currentIndex := 0;
        UpdateFindCount(1, |results|);
        threw := HighlightResults(page);
      } else {
        ClearHighlights();
        UpdateFindCount(0, 0);
        threw := false;
      }
    }

    /**
     * `findNext`: with no results, a new search; otherwise the next index with wrap-around, the
     * label `i+1/n`, the matches redrawn and the current box restyled and scrolled to.
     */
    method FindNext(page: Page) returns (threw: bool)
      requires Valid()
      modifies this, overlay
      ensures Valid() && InputsKept() && editor == old(editor)
      ensures old(results) == [] ==>
                Searched(page, old(overlay.lastArgs), old(overlay.scrolls)) && (threw <==> SearchThrows(page))
      ensures old(results) != [] ==>
                results == old(results) && currentIndex == NextIndex(old(currentIndex), |results|)
                && countLabel == FindCountLabel(currentIndex + 1, |results|) && navEnabled
                && Shown(page, old(overlay.lastArgs), old(overlay.scrolls), true)
                && (threw <==> Throws(page))
    {
      if |results| == 0 {
        threw := PerformFind(page);
      } else {
        var index := NextIndex(currentIndex, |results|);
        assert 0 <= index < |results| by {
          NavigationInRange(currentIndex, |results|);
        }
        threw := MoveTo(page, index);
      }
    }

    /**
     * `findPrevious`: like `findNext`, stepping back with wrap-around.
     */
    method FindPrevious(page: Page) returns (threw: bool)
      requires Valid()
      modifies this, overlay
      ensures Valid() && InputsKept() && editor == old(editor)
      ensures old(results) == [] ==>
                Searched(page, old(overlay.lastArgs), old(overlay.scrolls)) && (threw <==> SearchThrows(page))
      ensures old(results) != [] ==>
                results == old(results) && currentIndex == PrevIndex(old(currentIndex), |results|)
                && countLabel == FindCountLabel(currentIndex + 1, |results|) && navEnabled
                && Shown(page, old(overlay.lastArgs), old(overlay.scrolls), true)
                && (threw <==> Throws(page))
    {
      if |results| == 0 {
        threw := PerformFind(page);
      } else {
        var index := PrevIndex(currentIndex, |results|);
        assert 0 <= index < |results| by {
          NavigationInRange(currentIndex, |results|);
        }
        threw := MoveTo(page, index);
      }
    }

    /**
     * The common part of `findNext` and `findPrevious` once the new index is known: the label
     * `index+1/n`, the matches redrawn, then the current box restyled and scrolled to again.
     */
    method MoveTo(page: Page, index: int) returns (threw: bool)
      requires Valid() && 0 <= index < |results|
      modifies this, overlay
      ensures Valid() && InputsKept() && editor == old(editor)
      ensures results == old(results) && currentIndex == index
      ensures countLabel == FindCountLabel(index + 1, |results|) && navEnabled
      ensures Shown(page, old(overlay.lastArgs), old(overlay.scrolls), true)
      ensures threw <==> Throws(page)
    {
      ghost var lastArgs0, scrolls0 := overlay.lastArgs, overlay.scrolls;
      currentIndex := index;
      UpdateFindCount(currentIndex + 1, |results|);
      threw := HighlightResults(page);
      if threw {
        return;
      }
      Reselect(page, lastArgs0, scrolls0);
    }

    /** The restyle and scroll that `findNext` and `findPrevious` make after redrawing. */
    method Reselect(page: Page, ghost lastArgs0: Option<ShowArgs>, ghost scrolls0: seq<ScrollTarget>)
      requires Valid()
      requires Shown(page, lastArgs0, scrolls0, false)
      modifies overlay
      ensures Valid() && overlay.alive == old(overlay.alive)
      ensures Shown(page, lastArgs0, scrolls0, true)
    {
      ghost var e0 := overlay.elements;
      ghost var req := ScrollRequest(overlay.alive, e0, currentIndex, page);
      assert Restyle(e0, currentIndex) == e0 by {
        if findValue != "" && overlay.alive {
          RestyleShown(Args(currentIndex), page, engine);
        }
      }
      overlay.UpdateCurrentHighlight(currentIndex);
      assert overlay.elements == e0;
      overlay.ScrollToHighlight(currentIndex, page);
      assert overlay.scrolls == scrolls0 + req + req;
    }

    /**
     * `replaceCurrent`: for a non-empty query, searches the source afresh; when the current
     * index names one of the fresh matches, writes the source with that match replaced by the
     * replacement as written and searches again.
     */
    method ReplaceCurrent(page: Page) returns (threw: bool)
      requires Valid()
      modifies this, overlay
      ensures Valid() && InputsKept()
      ensures old(findValue) == "" ==> SessionKept() && !threw
      ensures findValue != "" && !(0 <= old(currentIndex) < |Matches(old(Content()), findValue, options, engine)|) ==>
                results == Matches(old(Content()), findValue, options, engine)
                && editor == old(editor) && currentIndex == old(currentIndex)
                && countLabel == old(countLabel) && navEnabled == old(navEnabled)
                && overlay.elements == old(overlay.elements) && overlay.lastArgs == old(overlay.lastArgs)
                && overlay.scrolls == old(overlay.scrolls) && !threw
      ensures findValue != "" && 0 <= old(currentIndex) < |Matches(old(Content()), findValue, options, engine)| ==>
                editor == (if old(editor).Some?
                           then Some(ReplaceAt(old(Content()), Matches(old(Content()), findValue, options, engine)[old(currentIndex)],
                                               replaceValue))
                           else None)
                && Searched(page, old(overlay.lastArgs), old(overlay.scrolls)) && (threw <==> SearchThrows(page))
    {
      if findValue == "" {
        return false;
      }
      var content := Content();
      assert content == old(Content());
      results := FindInText(content, findValue, options, engine);
      if currentIndex < 0 || currentIndex >= |results| {
        return false;
      }
      WriteReplacement(content, results[currentIndex], currentIndex);
      threw := PerformFind(page);
    }

    /**
     * The write of `replaceCurrent`: `exec` again from the target's offset and, when it finds a
     * match there, the text around that match with the replacement between.
     */
    method WriteReplacement(content: string, target: FindResult, ghost i: nat)
      requires i < |Matches(content, findValue, options, engine)|
      requires target == Matches(content, findValue, options, engine)[i]
      modifies this
      ensures editor == (if old(editor).Some? then Some(ReplaceAt(content, target, replaceValue)) else None)
      ensures visible == old(visible) && replaceRowShown == old(replaceRowShown)
      ensures findValue == old(findValue) && replaceValue == old(replaceValue) && options == old(options)
      ensures results == old(results) && currentIndex == old(currentIndex)
      ensures countLabel == old(countLabel) && navEnabled == old(navEnabled)
    {
      var replaceText := replaceValue;
      assert Compile(BuildRegex(findValue, options, true), engine).Some?
             && FirstMatchFrom(Compile(BuildRegex(findValue, options, true), engine).value, content, target.index)
                == Some(Found(target.index, target.length)) by {
        ReExecFindsTarget(content, findValue, options, engine, i);
      }
      var regex := Compile(BuildRegex(findValue, options, true), engine).value;
      var newContent := ReplaceReExecuted(content, regex, target, replaceText);
      SetEditorContent(newContent);
    }

    /**
     * The text after replacing one result: the expression is run again at the result's index,
     * and the range of the match it finds there (the result itself) gets the replacement.
     */
    static method ReplaceReExecuted(content: string, regex: Matcher, target: FindResult, replaceText: string)
      returns (newContent: string)
      requires FirstMatchFrom(regex, content, target.index) == Some(Found(target.index, target.length))
      ensures newContent == ReplaceAt(content, target, replaceText)
    {
      var matchAtIndex := FirstMatchFrom(regex, content, target.index);
      var start, end := target.index, target.index + target.length;
      if matchAtIndex.Some? && matchAtIndex.value.index == target.index {
        start := matchAtIndex.value.index;
        end := matchAtIndex.value.index + matchAtIndex.value.length;
      }
      newContent := Prefix(content, start) + replaceText + SuffixFrom(content, end);
    }

    /**
     * `replaceAll`: with results and a non-empty query, replaces every match of the global
     * expression (the replacement read as a template), then clears the session; a pattern that
     * does not compile changes nothing.
     */
    method ReplaceAll()
      requires Valid()
      modifies this, overlay
      ensures Valid() && InputsKept()
      ensures old(results) == [] || findValue == "" || Compile(BuildRegex(findValue, options, true), engine).None? ==>
                SessionKept()
      ensures old(results) != [] && findValue != "" && Compile(BuildRegex(findValue, options, true), engine).Some? ==>
                editor == (if old(editor).Some?
                           then Some(JsReplaceAll(Compile(BuildRegex(findValue, options, true), engine).value,
                                                  old(Content()), replaceValue))
                           else None)
                && results == [] && currentIndex == -1 && countLabel == NoMatchLabel && !navEnabled
                && overlay.elements == [] && overlay.lastArgs == old(overlay.lastArgs)
                && overlay.scrolls == old(overlay.scrolls)
    {
      if |results| == 0 {
        return;
      }
      if findValue == "" {
        return;
      }
      var content := Content();
      var compiled := Compile(BuildRegex(findValue, options, true), engine);
      if compiled.None? {
        return;
      }
      var newContent := JsReplaceAll(compiled.value, content, replaceValue);
      SetEditorContent(newContent);
      ClearHighlights();
      UpdateFindCount(0, 0);
    }

    /** `toggleOption`: flips one option and searches again. */
    method ToggleOption(which: OptionName, page: Page) returns (threw: bool)
      requires Valid()
      modifies this, overlay
      ensures Valid() && options == Toggle(old(options), which)
      ensures visible == old(visible) && replaceRowShown == old(replaceRowShown)
      ensures findValue == old(findValue) && replaceValue == old(replaceValue)
      ensures editor == old(editor) && overlay.alive == old(overlay.alive)
      ensures Searched(page, old(overlay.lastArgs), old(overlay.scrolls)) && (threw <==> SearchThrows(page))
    {
      options := Toggle(options, which);
      threw := PerformFind(page);
    }

    /**
     * `show`: makes the panel visible, shows the replace row when asked, and searches for the
     * selected text when there is a selection.
     */
    method Show(selection: string, showReplace: bool, page: Page)
      requires Valid()
      modifies this, overlay
      ensures Valid() && visible && replaceRowShown == (old(replaceRowShown) || showReplace)
      ensures replaceValue == old(replaceValue) && options == old(options) && editor == old(editor)
      ensures overlay.alive == old(overlay.alive)
      ensures selection == "" ==> findValue == old(findValue) && SessionKept()
      ensures selection != "" ==> findValue == selection && Searched(page, old(overlay.lastArgs), old(overlay.scrolls))
    {
      visible := true;
      if showReplace {
        replaceRowShown := true;
      }
      if selection != "" {
        findValue := selection;
        var _ := PerformFind(page);
      }
    }

    /** `hide`: hides the panel and clears the highlights and the results. */
    method Hide()
      requires Valid()
      modifies this, overlay
      ensures Valid() && !visible && replaceRowShown == old(replaceRowShown)
      ensures findValue == old(findValue) && replaceValue == old(replaceValue) && options == old(options)
      ensures results == [] && currentIndex == -1 && overlay.elements == []
      ensures editor == old(editor) && countLabel == old(countLabel) && navEnabled == old(navEnabled)
      ensures overlay.alive == old(overlay.alive) && overlay.lastArgs == old(overlay.lastArgs)
      ensures overlay.scrolls == old(overlay.scrolls)
    {
      visible := false;
      ClearHighlights();
    }

    /** `toggleReplace`: shows the replace row when hidden and hides it when shown. */
    method ToggleReplace()
      modifies this
      ensures replaceRowShown == !old(replaceRowShown) && visible == old(visible)
      ensures findValue == old(findValue) && replaceValue == old(replaceValue) && options == old(options)
      ensures results == old(results) && currentIndex == old(currentIndex) && editor == old(editor)
      ensures countLabel == old(countLabel) && navEnabled == old(navEnabled)
    {
      replaceRowShown := !replaceRowShown;
    }

    /**
     * Typing into the find input: the value changes; the search follows when the debounce
     * timer fires, as a separate `PerformFind`.
     */
    method SetFindValue(value: string)
      modifies this
      ensures findValue == value && visible == old(visible) && replaceRowShown == old(replaceRowShown)
      ensures replaceValue == old(replaceValue) && options == old(options)
      ensures results == old(results) && currentIndex == old(currentIndex) && editor == old(editor)
      ensures countLabel == old(countLabel) && navEnabled == old(navEnabled)
    {
      findValue := value;
    }

    /** Typing into the replace input. */
    method SetReplaceValue(value: string)
      modifies this
      ensures replaceValue == value && visible == old(visible) && replaceRowShown == old(replaceRowShown)
      ensures findValue == old(findValue) && options == old(options)
      ensures results == old(results) && currentIndex == old(currentIndex) && editor == old(editor)
      ensures countLabel == old(countLabel) && navEnabled == old(navEnabled)
    {
      replaceValue := value;
    }

    /** An edit in the editor removes the boxes but keeps the results and the index. */
    method OnEditorInput()
      requires Valid()
      modifies overlay
      ensures Valid() && overlay.elements == [] && overlay.alive == old(overlay.alive)
      ensures overlay.lastArgs == old(overlay.lastArgs) && overlay.scrolls == old(overlay.scrolls)
    {
      overlay.ClearHighlights();
    }

    /** A scroll or resize of the window redraws the overlay with its last arguments. */
    method OnScrollOrResize(page: Page)
      requires Valid()
      modifies overlay
      ensures Valid() && overlay.alive == old(overlay.alive)
      ensures overlay.lastArgs == old(overlay.lastArgs) && overlay.scrolls == old(overlay.scrolls)
      ensures old(overlay.lastArgs).None? ==> overlay.elements == old(overlay.elements)
      ensures overlay.alive && old(overlay.lastArgs).Some? ==>
                overlay.elements == ShownElements(old(overlay.lastArgs).value, page, engine)
    {
      var _ := overlay.Resync(page);
    }
  }
}
