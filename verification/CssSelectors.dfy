/**
  Selectors (`splitSelectorList`, `scopeSelector` and `scopeCss` in scripts/synara-ui/build-css.ts): the
  splitter as a machine over depth, quote and a pending backslash, how it reads texts put together,
  the rewriting of one selector and of a list without repetitions, and the test by which the guard
  tells selectors it accepts.
*/
module CssSelectors {
  import opened Basics
  import opened CssScanner

  const SURFACE: Text := "[data-cedia-surface]"
  const TOKENS: Text := "[data-cedia-tokens]"

  // --------------------------------------------------------------------- splitting

  /** What the splitter knows between two characters; `skip` hides the character after a backslash in quotes. */
  datatype State = State(depth: int, quote: Option<char>, skip: bool)

  const OUT := State(0, None, false)

  function Next(s: State, c: char): State {
    if s.quote.Some? then
      if s.skip then s.(skip := false)
      else if c == '\\' then s.(skip := true)
      else if c == s.quote.value then s.(quote := None)
      else s
    else if IsQuote(c) then s.(quote := Some(c))
    else if c == '(' || c == '[' then s.(depth := s.depth + 1)
    else if c == ')' || c == ']' then s.(depth := s.depth - 1)
    else s
  }

  function Run(t: Text, s: State): State {
    if t == "" then s else Run(t[1..], Next(s, t[0]))
  }

  predicate SplitsAt(s: State, c: char) { c == ',' && s.quote.None? && s.depth == 0 }

  /** The parts of a selector list, read from this state. */
  function Split(t: Text, s: State): (r: seq<Text>)
    ensures |r| > 0
  {
    if t == "" then [""]
    else if SplitsAt(s, t[0]) then [""] + Split(t[1..], s)
    else Push(t[0], Split(t[1..], Next(s, t[0])))
  }

  /** One more character in front of the first part. */
  function Push(c: char, parts: seq<Text>): (r: seq<Text>)
    requires |parts| > 0
    ensures |r| == |parts| && r[0] == [c] + parts[0] && r[1..] == parts[1..]
  {
    [[c] + parts[0]] + parts[1..]
  }

  /** Two lists of parts whose texts follow each other. */
  function Glue(x: seq<Text>, y: seq<Text>): (r: seq<Text>)
    requires |x| > 0 && |y| > 0
  {
    x[..|x| - 1] + [x[|x| - 1] + y[0]] + y[1..]
  }

  lemma {:induction false} RunAppend(a: Text, b: Text, s: State)
    ensures Run(a + b, s) == Run(b, Run(a, s))
    decreases |a|
  {
    if a == "" {
      assert a + b == b;
    } else {
      assert (a + b)[1..] == a[1..] + b;
      RunAppend(a[1..], b, Next(s, a[0]));
    }
  }

  lemma GluePush(c: char, x: seq<Text>, y: seq<Text>)
    requires |x| > 0 && |y| > 0
    ensures Glue(Push(c, x), y) == Push(c, Glue(x, y))
  {
    if |x| == 1 {
      assert [c] + (x[0] + y[0]) == ([c] + x[0]) + y[0];
    }
  }

  lemma GlueEmpty(x: seq<Text>, y: seq<Text>)
    requires |x| > 0 && |y| > 0
    ensures Glue([""] + x, y) == [""] + Glue(x, y)
  {
  }

  lemma {:induction false} SplitAppend(a: Text, b: Text, s: State)
    ensures Split(a + b, s) == Glue(Split(a, s), Split(b, Run(a, s)))
    decreases |a|
  {
    if a == "" {
      assert a + b == b && "" + Split(b, s)[0] == Split(b, s)[0];
    } else {
      assert (a + b)[1..] == a[1..] + b;
      if SplitsAt(s, a[0]) {
        SplitAppend(a[1..], b, s);
        assert Next(s, a[0]) == s;
        GlueEmpty(Split(a[1..], s), Split(b, Run(a, s)));
      } else {
        SplitAppend(a[1..], b, Next(s, a[0]));
        GluePush(a[0], Split(a[1..], Next(s, a[0])), Split(b, Run(a, s)));
      }
    }
  }

  /** A closed text leaves the splitter where it was. */
  predicate Closed(t: Text) { Run(t, OUT) == OUT }

  lemma SplitAfterClosed(a: Text, b: Text)
    requires Closed(a)
    ensures Split(a + "," + b, OUT) == Split(a, OUT) + Split(b, OUT)
  {
    SplitAppend(a, "," + b, OUT);
    assert a + "," + b == a + ("," + b);
    CommaSplits(b);
    GlueSplit(Split(a, OUT), Split(b, OUT));
  }

  lemma CommaSplits(y: Text)
    ensures Split("," + y, OUT) == [""] + Split(y, OUT)
  {
    assert ("," + y)[1..] == y;
  }

  lemma GlueSplit(x: seq<Text>, y: seq<Text>)
    requires |x| > 0 && |y| > 0
    ensures Glue(x, [""] + y) == x + y
  {
    assert x[|x| - 1] + "" == x[|x| - 1];
  }

  /** The states the splitter can be in. */
  ghost predicate Reachable(s: State) {
    (s.skip ==> s.quote.Some?) && (s.quote.Some? ==> IsQuote(s.quote.value))
  }

  lemma {:induction false} RunReachable(t: Text, s: State)
    requires Reachable(s)
    ensures Reachable(Run(t, s))
  {
    if t != "" {
      RunReachable(t[1..], Next(s, t[0]));
    }
  }

  /** Every part is a single selector when read alone, and all but the last are closed. */
  lemma {:induction false} PartsAreSelectors(t: Text, s: State)
    requires Reachable(s)
    ensures var ps := Split(t, s);
            && Split(ps[0], s) == [ps[0]] && (|ps| > 1 ==> Run(ps[0], s) == OUT)
            && (forall i :: 0 < i < |ps| ==> Split(ps[i], OUT) == [ps[i]])
            && (forall i :: 0 < i < |ps| - 1 ==> Closed(ps[i]))
    decreases |t|
  {
    if t != "" {
      if SplitsAt(s, t[0]) {
        PartsAreSelectors(t[1..], s);
      } else {
        PartsAreSelectors(t[1..], Next(s, t[0]));
        var rest := Split(t[1..], Next(s, t[0]));
        assert ([t[0]] + rest[0])[1..] == rest[0];
      }
    }
  }

  /** The parts are pieces of the list, cut out in order. */
  lemma {:induction false} FirstPartIsPrefix(t: Text, s: State)
    ensures Split(t, s)[0] <= t
  {
    if t != "" && !SplitsAt(s, t[0]) {
      FirstPartIsPrefix(t[1..], Next(s, t[0]));
    }
  }

  // ------------------------------------------------------------------------- spaces

  predicate Blank(t: Text) { forall i | 0 <= i < |t| :: IsSpace(t[i]) }

  function TrimEnd(t: Text): Text {
    if t != "" && IsSpace(t[|t| - 1]) then TrimEnd(t[..|t| - 1]) else t
  }

  function Trim(t: Text): Text { TrimEnd(TrimStart(t)) }

  function Lead(t: Text): (r: Text)
    ensures Blank(r) && r + TrimStart(t) == t
  {
    if t != "" && IsSpace(t[0]) then [t[0]] + Lead(t[1..]) else ""
  }

  function Trail(t: Text): (r: Text)
    ensures Blank(r) && TrimEnd(t) + r == t
  {
    if t != "" && IsSpace(t[|t| - 1]) then Trail(t[..|t| - 1]) + [t[|t| - 1]] else ""
  }

  lemma {:induction false} BlankIsQuiet(w: Text, s: State)
    requires Blank(w) && Reachable(s)
    ensures Split(w, s) == [w]
    ensures !s.skip ==> Run(w, s) == s
    ensures s.quote.Some? ==> Run(w, s).quote == s.quote && Run(w, s).depth == s.depth
  {
    if w != "" {
      BlankIsQuiet(w[1..], Next(s, w[0]));
      assert [w[0]] + w[1..] == w;
    }
  }

  lemma {:induction false} TrimStartBlank(w: Text, t: Text)
    requires Blank(w)
    ensures TrimStart(w + t) == TrimStart(t)
  {
    if w == "" {
      assert w + t == t;
    } else {
      assert (w + t)[1..] == w[1..] + t;
      TrimStartBlank(w[1..], t);
    }
  }

  lemma {:induction false} TrimEndBlank(t: Text, w: Text)
    requires Blank(w)
    ensures TrimEnd(t + w) == TrimEnd(t)
    decreases |w|
  {
    if w == "" {
      assert t + w == t;
    } else {
      var n := |w| - 1;
      assert (t + w)[..|t + w| - 1] == t + w[..n];
      TrimEndBlank(t, w[..n]);
    }
  }

  lemma {:induction false} TrimStartKeepsTail(t: Text, w: Text)
    requires Blank(w)
    ensures Trim(t + w) == Trim(t)
    decreases |t|
  {
    if t == "" {
      assert t + w == w;
      TrimStartBlank(w, "");
      assert w + "" == w;
    } else if IsSpace(t[0]) {
      assert (t + w)[1..] == t[1..] + w;
      TrimStartKeepsTail(t[1..], w);
    } else {
      TrimEndBlank(t, w);
    }
  }

  lemma TrimBoth(v: Text, t: Text, w: Text)
    requires Blank(v) && Blank(w)
    ensures Trim(v + t + w) == Trim(t)
  {
    TrimStartKeepsTail(v + t, w);
    TrimStartBlank(v, t);
  }

  lemma {:induction false} TrimEndKeepsPrefix(p: Text, t: Text)
    requires p <= t && p != "" && !IsSpace(p[|p| - 1])
    ensures p <= TrimEnd(t)
    decreases |t|
  {
    assert p[|p| - 1] == t[|p| - 1];
    if IsSpace(t[|t| - 1]) {
      TrimEndKeepsPrefix(p, t[..|t| - 1]);
    }
  }

  lemma BlankTrims(w: Text)
    ensures Blank(w) <==> Trim(w) == ""
  {
    assert Lead(w) + TrimStart(w) == w;
    assert TrimEnd(TrimStart(w)) + Trail(TrimStart(w)) == TrimStart(w);
    if Trim(w) == "" {
      assert "" + Trail(TrimStart(w)) == Trail(TrimStart(w));
      assert w == Lead(w) + Trail(TrimStart(w));
    }
    if Blank(w) {
      TrimStartBlank(w, "");
      assert w + "" == w;
    }
  }

  /** Reading a selector without the spaces around it. */
  lemma TrimmedSelector(p: Text)
    requires Split(p, OUT) == [p]
    ensures Split(Trim(p), OUT) == [Trim(p)]
    ensures Closed(p) ==> Closed(Trim(p))
  {
    var v, t, w := Lead(p), TrimStart(p), Trail(TrimStart(p));
    var m := Trim(p);
    assert p == v + t && t == m + w;
    BlankIsQuiet(v, OUT);
    SplitAppend(v, t, OUT);
    RunAppend(v, t, OUT);
    SplitAppend(m, w, OUT);
    RunAppend(m, w, OUT);
    RunReachable(m, OUT);
    BlankIsQuiet(w, Run(m, OUT));
    OnlyPart(m, OUT);
  }

  /** A list with one part is that part. */
  lemma {:induction false} OnlyPart(t: Text, s: State)
    ensures |Split(t, s)| == 1 ==> Split(t, s) == [t]
  {
    if t != "" && !SplitsAt(s, t[0]) {
      OnlyPart(t[1..], Next(s, t[0]));
      assert [t[0]] + t[1..] == t;
    }
  }

  // ---------------------------------------------------------------------- rewriting

  predicate IsRoot(m: Text) { StartsWithWord(m, ":root") || StartsWithWord(m, ":host") }

  /** What follows `:root` or `:host`. */
  function AfterRoot(m: Text): Text
    requires IsRoot(m)
  {
    m[5..]
  }

  /** `scopeSelector`. */
  function ScopeSelector(selector: Text): Text {
    var m := Trim(selector);
    if m == "" then selector
    else if m == "*" then SURFACE + ", " + SURFACE + " *"
    else if IsRoot(m) then SURFACE + AfterRoot(m) + ", " + TOKENS + AfterRoot(m)
    else SURFACE + " " + m
  }

  function ScopeAll(parts: seq<Text>): (r: seq<Text>)
    ensures |r| == |parts| && forall i :: 0 <= i < |r| ==> r[i] == ScopeSelector(parts[i])
  {
    seq(|parts|, i requires 0 <= i < |parts| => ScopeSelector(parts[i]))
  }

  /** `[...new Set(list)]`: the first of equal texts stays. */
  function Dedupe(list: seq<Text>): (r: seq<Text>)
    ensures forall x :: x in r <==> x in list
    ensures list != [] ==> |r| > 0
  {
    if list == [] then []
    else
      var before := Dedupe(list[..|list| - 1]);
      if list[|list| - 1] in before then before else before + [list[|list| - 1]]
  }

  function Join(list: seq<Text>): Text {
    if list == [] then ""
    else if |list| == 1 then list[0]
    else list[0] + "," + Join(list[1..])
  }

  /** A top-level prelude of a style rule as `scopeCss` writes it. */
  function Rewrite(prelude: Text): Text {
    Lead(prelude) + Join(Dedupe(ScopeAll(Split(TrimStart(prelude), OUT)))) + " "
  }

  // ---------------------------------------------------------------------- the guard

  predicate Accepted(trimmed: Text) { SURFACE <= trimmed || TOKENS <= trimmed || "&" <= trimmed }

  /** The trimmed selectors the guard rejects, in order. */
  function Rejections(selectors: seq<Text>): seq<Text> {
    if selectors == [] then []
    else (if Accepted(Trim(selectors[0])) then [] else [Trim(selectors[0])]) + Rejections(selectors[1..])
  }

  lemma {:induction false} RejectionsAppend(a: seq<Text>, b: seq<Text>)
    ensures Rejections(a + b) == Rejections(a) + Rejections(b)
  {
    if a == [] {
      assert a + b == b;
    } else {
      assert (a + b)[1..] == a[1..] + b;
      RejectionsAppend(a[1..], b);
    }
  }

  lemma AcceptedSelector(v: Text, x: Text, w: Text)
    requires Blank(v) && Blank(w) && (SURFACE <= x || TOKENS <= x)
    ensures Accepted(Trim(v + x + w))
  {
    TrimBoth(v, x, w);
    assert TrimStart(x) == x;
    if SURFACE <= x { TrimEndKeepsPrefix(SURFACE, x); }
    if TOKENS <= x { TrimEndKeepsPrefix(TOKENS, x); }
  }
}
