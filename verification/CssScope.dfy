/**
  Scoping a stylesheet and guarding the result (`scopeCss` and `guard` in scripts/synara-ui/build-css.ts).
  Rewriting a prelude keeps the structure of the stylesheet, so the guard's rescan sees the same rules;
  what it rejects in each of them is told from the selectors of the input, one by one, then for lists,
  rules and whole stylesheets.
*/
module CssScope {
  import opened Basics
  import opened CssScanner
  import opened CssSelectors

  // ------------------------------------------------ rewriting keeps the structure

  lemma PlainSlice(t: Text, a: nat, b: nat)
    requires Plain(t) && a <= b <= |t|
    ensures Plain(t[a..b])
  {
    forall i | 0 <= i < b - a ensures !IsStructural(t[a..b][i]) && !StartsComment(t[a..b], i) {
      assert !StartsComment(t, a + i) && !IsStructural(t[a + i]);
    }
  }

  lemma PlainDrop(t: Text, a: nat)
    requires Plain(t) && a <= |t|
    ensures Plain(t[a..])
  {
    PlainSlice(t, a, |t|);
    assert t[a..|t|] == t[a..];
  }

  lemma PlainTake(t: Text, b: nat)
    requires Plain(t) && b <= |t|
    ensures Plain(t[..b])
  {
    PlainSlice(t, 0, b);
    assert t[0..b] == t[..b];
  }

  lemma PlainConcat(a: Text, b: Text)
    requires Plain(a) && Plain(b)
    requires a == "" || b == "" || a[|a| - 1] != '/' || b[0] != '*'
    ensures Plain(a + b)
  {
    forall i | 0 <= i < |a + b| ensures !IsStructural((a + b)[i]) && !StartsComment(a + b, i) {
      if i < |a| {
        assert !StartsComment(a, i) && !IsStructural(a[i]);
      } else {
        assert !StartsComment(b, i - |a|) && !IsStructural(b[i - |a|]);
      }
    }
  }

  lemma {:induction false} PartsArePlain(t: Text, s: State, p: Text)
    requires Plain(t) && p in Split(t, s)
    ensures Plain(p)
    decreases |t|
  {
    if t != "" {
      PlainDrop(t, 1);
      if p == Split(t, s)[0] {
        FirstPartIsPrefix(t, s);
        PlainTake(t, |p|);
        assert t[..|p|] == p;
      } else if SplitsAt(s, t[0]) {
        PartsArePlain(t[1..], s, p);
      } else {
        assert Split(t, s)[1..] == Split(t[1..], Next(s, t[0]))[1..];
        PartsArePlain(t[1..], Next(s, t[0]), p);
      }
    }
  }

  lemma TrimIsPlain(t: Text)
    requires Plain(t)
    ensures Plain(Trim(t)) && Plain(TrimStart(t)) && Plain(Lead(t))
  {
    var l, u := Lead(t), TrimStart(t);
    assert l + u == t && t[|l|..] == u && t[..|l|] == l;
    PlainDrop(t, |l|);
    PlainTake(t, |l|);
    assert Trim(t) + Trail(u) == u && u[..|Trim(t)|] == Trim(t);
    PlainTake(u, |Trim(t)|);
  }

  lemma SurfaceIsPlain()
    ensures Plain(SURFACE) && Plain(TOKENS)
    ensures SURFACE[|SURFACE| - 1] == ']' && TOKENS[|TOKENS| - 1] == ']' && SURFACE[0] == '[' && TOKENS[0] == '['
  {
  }

  lemma RootIsPlain(rest: Text)
    requires Plain(rest)
    ensures Plain(SURFACE + rest + ", " + TOKENS + rest)
  {
    SurfaceIsPlain();
    PlainConcat(SURFACE, rest);
    PlainConcat(SURFACE + rest, ", ");
    PlainConcat(SURFACE + rest + ", ", TOKENS);
    PlainConcat(SURFACE + rest + ", " + TOKENS, rest);
  }

  lemma ScopedIsPlain(p: Text)
    requires Plain(p)
    ensures Plain(ScopeSelector(p))
  {
    var m := Trim(p);
    TrimIsPlain(p);
    SurfaceIsPlain();
    if m == "" {
    } else if m == "*" {
      PlainConcat(SURFACE, ", ");
      PlainConcat(SURFACE + ", ", SURFACE);
      PlainConcat(SURFACE + ", " + SURFACE, " *");
    } else if IsRoot(m) {
      PlainDrop(m, 5);
      RootIsPlain(AfterRoot(m));
    } else {
      PlainConcat(SURFACE, " ");
      PlainConcat(SURFACE + " ", m);
    }
  }

  lemma {:induction false} JoinIsPlain(list: seq<Text>)
    requires forall x :: x in list ==> Plain(x)
    ensures Plain(Join(list))
  {
    if |list| > 1 {
      JoinIsPlain(list[1..]);
      PlainConcat(list[0], ",");
      PlainConcat(list[0] + ",", Join(list[1..]));
    }
  }

  /** The rewritten selectors of a prelude, without duplicates. */
  function Scoped(prelude: Text): (r: seq<Text>)
    ensures |r| > 0
  {
    Dedupe(ScopeAll(Split(TrimStart(prelude), OUT)))
  }

  lemma RewriteIsPlain(p: Text)
    requires Plain(p)
    ensures Plain(Rewrite(p))
  {
    TrimIsPlain(p);
    var parts := Split(TrimStart(p), OUT);
    forall x | x in Scoped(p) ensures Plain(x) {
      var i :| 0 <= i < |parts| && ScopeAll(parts)[i] == x;
      PartsArePlain(TrimStart(p), OUT, parts[i]);
      ScopedIsPlain(parts[i]);
    }
    JoinIsPlain(Scoped(p));
    PlainConcat(Lead(p), Join(Scoped(p)));
    PlainConcat(Lead(p) + Join(Scoped(p)), " ");
  }

  /** A rewritten selector is blank or starts with the surface. */
  lemma ScopedStart(p: Text)
    ensures if Blank(p) then ScopeSelector(p) == p else SURFACE <= ScopeSelector(p)
  {
    BlankTrims(p);
  }

  lemma ScopedElement(p: Text, w: Text)
    requires w in Scoped(p)
    ensures Blank(w) || SURFACE <= w
  {
    var parts := Split(TrimStart(p), OUT);
    var i :| 0 <= i < |parts| && ScopeAll(parts)[i] == w;
    ScopedStart(parts[i]);
  }

  lemma StartsNoAtRule(v: Text, w: Text, tail: Text)
    requires Blank(v) && (Blank(w) || SURFACE <= w) && (tail == " " || "," <= tail)
    ensures !IsAtRule(v + (w + tail))
  {
    TrimStartBlank(v, w + tail);
    if Blank(w) {
      TrimStartBlank(w, tail);
      if tail == " " {
        assert tail[1..] == "";
      }
    } else {
      assert (w + tail)[0] == SURFACE[0];
    }
  }

  /** What follows the first element of a joined list with a space behind it. */
  lemma JoinTail(list: seq<Text>) returns (tail: Text)
    requires |list| > 0
    ensures Join(list) + " " == list[0] + tail && (tail == " " || "," <= tail)
  {
    tail := if |list| == 1 then " " else "," + Join(list[1..]) + " ";
  }

  lemma RewriteIsNoAtRule(p: Text)
    ensures !IsAtRule(Rewrite(p))
  {
    var list := Scoped(p);
    assert list[0] in list;
    ScopedElement(p, list[0]);
    var tail := JoinTail(list);
    StartsNoAtRule(Lead(p), list[0], tail);
    assert Rewrite(p) == Lead(p) + (list[0] + tail);
  }

  lemma RewriteKeepsStructure()
    ensures KeepsStructure(Rewrite)
  {
    forall p | Plain(p) && !IsAtRule(p) ensures Plain(Rewrite(p)) && !IsAtRule(Rewrite(p)) {
      RewriteIsPlain(p);
      RewriteIsNoAtRule(p);
    }
  }

  /** The text is one piece of a selector, and takes the splitter from `s` to `to`. */
  ghost predicate Reads(t: Text, s: State, to: State) { Split(t, s) == [t] && Run(t, s) == to }

  lemma ReadsBoth(x: Text, y: Text, s: State, mid: State, to: State)
    requires Reads(x, s, mid) && Reads(y, mid, to)
    ensures Reads(x + y, s, to)
  {
    SplitAppend(x, y, s);
    RunAppend(x, y, s);
  }

  lemma ReadsChar(c: char, s: State)
    requires !SplitsAt(s, c)
    ensures Reads([c], s, Next(s, c))
  {
    var rest := [c][1..];
    assert rest == "";
    assert Run(rest, Next(s, c)) == Next(s, c) && Split(rest, Next(s, c)) == [""];
    assert [c] + "" == [c];
  }

  lemma ReadsBlank(w: Text, s: State)
    requires Blank(w) && Reachable(s) && !s.skip
    ensures Reads(w, s, s)
  {
    BlankIsQuiet(w, s);
  }

  /** Characters that mean nothing to the splitter. */
  predicate Dull(c: char) { c != ',' && c != '\\' && !IsQuote(c) && c != '(' && c != ')' && c != '[' && c != ']' }

  lemma {:induction false} ReadsDull(t: Text, s: State)
    requires !s.skip && Reachable(s) && forall i | 0 <= i < |t| :: Dull(t[i])
    ensures Reads(t, s, s)
  {
    if t != "" {
      ReadsDull(t[1..], s);
      ReadsChar(t[0], s);
      ReadsBoth([t[0]], t[1..], s, s, s);
      assert [t[0]] + t[1..] == t;
    }
  }

  predicate Bracketed(t: Text) {
    |t| >= 2 && t[0] == '[' && t[|t| - 1] == ']' && forall i | 0 < i < |t| - 1 :: Dull(t[i])
  }

  /** Reading an attribute selector changes nothing but a pending backslash. */
  lemma ReadsBracketed(t: Text, s: State)
    requires Bracketed(t) && Reachable(s)
    ensures Reads(t, s, s.(skip := false))
  {
    var mid := t[1..|t| - 1];
    var inside := Next(s, '[');
    ReadsChar('[', s);
    ReadsDull(mid, inside);
    ReadsBoth("[", mid, s, inside, inside);
    ReadsChar(']', inside);
    ReadsBoth("[" + mid, "]", s, inside, Next(inside, ']'));
    assert t == "[" + mid + "]";
  }

  lemma SurfaceIsBracketed()
    ensures Bracketed(SURFACE) && Bracketed(TOKENS)
  {
  }

  lemma ReadsSurface(surface: Text, s: State)
    requires surface == SURFACE || surface == TOKENS
    requires Reachable(s)
    ensures Reads(surface, s, s.(skip := false))
  {
    SurfaceIsBracketed();
    ReadsBracketed(surface, s);
  }

  /** Blanks and the surface in front of a text do not change how it is read. */
  lemma ReadsPrefixed(v: Text, surface: Text, y: Text, to: State)
    requires Blank(v) && (surface == SURFACE || surface == TOKENS) && Reads(y, OUT, to)
    ensures Reads(v + surface + y, OUT, to)
  {
    ReadsBlank(v, OUT);
    ReadsSurface(surface, OUT);
    ReadsBoth(v, surface, OUT, OUT, OUT);
    ReadsBoth(v + surface, y, OUT, OUT, to);
  }

  lemma OneRejection(x: Text)
    ensures Rejections([x]) == if Accepted(Trim(x)) then [] else [Trim(x)]
  {
    assert [x][1..] == [];
  }

  /** Two accepted selectors with a comma between them. */
  lemma TwoSelectors(a: Text, b: Text, to: State)
    requires Reads(a, OUT, OUT) && Reads(b, OUT, to)
    ensures Split(a + "," + b, OUT) == [a] + [b] && Run(a + "," + b, OUT) == to
  {
    SplitAfterClosed(a, b);
    assert a + "," + b == a + ("," + b);
    RunAppend(a, "," + b, OUT);
    assert ("," + b)[1..] == b;
  }

  lemma TwoAccepted(a: Text, b: Text)
    requires Accepted(Trim(a)) && Accepted(Trim(b))
    ensures Rejections([a] + [b]) == []
  {
    RejectionsAppend([a], [b]);
    OneRejection(a);
    OneRejection(b);
  }

  lemma PairText(v: Text, x: Text, surface: Text, y: Text, u: Text)
    ensures v + (SURFACE + x + ", " + surface + y) + u == (v + SURFACE + x) + "," + (" " + surface + (y + u))
  {
    var head, tail := SURFACE + x, surface + y;
    assert SURFACE + x + ", " + surface + y == head + ", " + tail;
    assert v + SURFACE + x == v + head && " " + surface + (y + u) == " " + tail + u;
    assert v + (head + ", " + tail) + u == (v + head) + "," + (" " + tail + u);
  }

  lemma PairSplits(v: Text, x: Text, surface: Text, y: Text, u: Text, to: State)
    requires Blank(v) && Blank(u) && (surface == SURFACE || surface == TOKENS)
    requires Reads(x, OUT, OUT) && Reads(y, OUT, to) && !to.skip && Reachable(to)
    ensures var t := v + (SURFACE + x + ", " + surface + y) + u;
            Split(t, OUT) == [v + SURFACE + x] + [" " + surface + (y + u)] && Run(t, OUT) == to
  {
    ReadsPrefixed(v, SURFACE, x, OUT);
    ReadsBlank(u, to);
    ReadsBoth(y, u, OUT, to, to);
    ReadsPrefixed(" ", surface, y + u, to);
    TwoSelectors(v + SURFACE + x, " " + surface + (y + u), to);
    PairText(v, x, surface, y, u);
  }

  lemma UnderTheSurface(v: Text, surface: Text, x: Text, u: Text)
    requires Blank(v) && Blank(u) && (surface == SURFACE || surface == TOKENS)
    ensures Accepted(Trim(v + surface + (x + u)))
  {
    AcceptedSelector(v, surface + x, u);
    assert v + (surface + x) + u == v + surface + (x + u);
  }

  /** The rewriting of `*` and of a closed root selector: two selectors, both under the surface. */
  lemma PairIsAccepted(v: Text, x: Text, surface: Text, y: Text, u: Text, to: State)
    requires Blank(v) && Blank(u) && (surface == SURFACE || surface == TOKENS)
    requires Reads(x, OUT, OUT) && Reads(y, OUT, to) && !to.skip && Reachable(to)
    ensures Rejections(Split(v + (SURFACE + x + ", " + surface + y) + u, OUT)) == []
    ensures Run(SURFACE + x + ", " + surface + y, OUT) == to
  {
    PairSplits(v, x, surface, y, u, to);
    UnderTheSurface(v, SURFACE, x, "");
    assert x + "" == x;
    UnderTheSurface(" ", surface, y, u);
    TwoAccepted(v + SURFACE + x, " " + surface + (y + u));
    PairSplits("", x, surface, y, "", to);
    var t := SURFACE + x + ", " + surface + y;
    assert "" + t + "" == t;
  }

  lemma SingleBoth(x: Text, y: Text, s: State)
    requires Split(x, s) == [x] && Split(y, Run(x, s)) == [y]
    ensures Split(x + y, s) == [x + y]
  {
    SplitAppend(x, y, s);
  }

  // ------------------------------------------------------------- leaks of one rule

  /** What a root selector that is not closed spills behind its second copy. */
  function Spill(rest: Text, u: Text): seq<Text> {
    Rejections(Split(rest + u, Run(rest, OUT).(skip := false))[1..])
  }

  /** What the guard rejects in the rewriting of one selector, followed by `u`. */
  function Own(selector: Text, u: Text): seq<Text> {
    var m := Trim(selector);
    if m == "" then [""]
    else if m != "*" && IsRoot(m) && !Closed(AfterRoot(m)) then Spill(AfterRoot(m), u)
    else []
  }

  lemma BlankContribution(p: Text, v: Text, u: Text)
    requires Blank(p) && Blank(v) && Blank(u)
    ensures Closed(p) && Rejections(Split(v + p + u, OUT)) == [""]
  {
    BlankTrims(v + p + u);
    BlankIsQuiet(p, OUT);
    BlankIsQuiet(v + p + u, OUT);
    OneRejection(v + p + u);
  }

  lemma StarContribution(v: Text, u: Text)
    requires Blank(v) && Blank(u)
    ensures Closed(SURFACE + ", " + SURFACE + " *")
    ensures Rejections(Split(v + (SURFACE + ", " + SURFACE + " *") + u, OUT)) == []
  {
    ReadsDull("", OUT);
    ReadsDull(" *", OUT);
    PairIsAccepted(v, "", SURFACE, " *", u, OUT);
    assert SURFACE + "" + ", " + SURFACE + " *" == SURFACE + ", " + SURFACE + " *";
  }

  lemma OrdinaryText(m: Text, v: Text, u: Text)
    ensures v + (SURFACE + " " + m) + u == v + SURFACE + (" " + m) + u == v + SURFACE + (" " + m + u)
    ensures "" + SURFACE + (" " + m) == SURFACE + " " + m
  {
    var x := " " + m;
    assert SURFACE + " " + m == SURFACE + x;
    assert v + (SURFACE + x) + u == v + SURFACE + x + u == v + SURFACE + (x + u);
  }

  lemma ReadsOrdinary(m: Text, v: Text)
    requires Blank(v) && Split(m, OUT) == [m]
    ensures Reads(v + SURFACE + (" " + m), OUT, Run(m, OUT))
  {
    ReadsBlank(" ", OUT);
    ReadsBoth(" ", m, OUT, OUT, Run(m, OUT));
    ReadsPrefixed(v, SURFACE, " " + m, Run(m, OUT));
  }

  /** An ordinary selector, closed or not. */
  lemma OrdinaryContribution(m: Text, v: Text, u: Text)
    requires Blank(v) && Blank(u) && Split(m, OUT) == [m]
    ensures Run(SURFACE + " " + m, OUT) == Run(m, OUT)
    ensures Rejections(Split(v + (SURFACE + " " + m) + u, OUT)) == []
  {
    RunReachable(m, OUT);
    ReadsOrdinary(m, v);
    ReadsOrdinary(m, "");
    OrdinaryText(m, v, u);
    BlankIsQuiet(u, Run(m, OUT));
    var t := v + SURFACE + (" " + m);
    SingleBoth(t, u, OUT);
    UnderTheSurface(v, SURFACE, " " + m, u);
    OneRejection(t + u);
  }

  // ------------------------------------------- a root selector that is not closed

  lemma SkipTwo(s: State)
    requires Reachable(s) && s != OUT
    ensures Reads(", ", s, s.(skip := false))
  {
    ReadsChar(',', s);
    ReadsChar(' ', Next(s, ','));
    ReadsBoth(",", " ", s, Next(s, ','), Next(Next(s, ','), ' '));
    assert "," + " " == ", ";
  }

  /** Up to its second copy the rewriting stays one selector. */
  lemma OpenRootHead(v: Text, rest: Text)
    requires Blank(v) && Split(rest, OUT) == [rest] && !Closed(rest)
    ensures Reads(v + SURFACE + rest + ", " + TOKENS, OUT, Run(rest, OUT).(skip := false))
  {
    var s := Run(rest, OUT);
    var quiet := s.(skip := false);
    RunReachable(rest, OUT);
    ReadsPrefixed(v, SURFACE, rest, s);
    SkipTwo(s);
    ReadsBoth(v + SURFACE + rest, ", ", OUT, s, quiet);
    ReadsSurface(TOKENS, quiet);
    ReadsBoth(v + SURFACE + rest + ", ", TOKENS, OUT, quiet, quiet);
  }

  lemma RejectionsHead(x: Text, more: seq<Text>)
    requires Accepted(Trim(x))
    ensures Rejections([x] + more) == Rejections(more)
  {
    RejectionsAppend([x], more);
    OneRejection(x);
  }

  lemma OpenRootText(v: Text, rest: Text, u: Text, first: Text)
    ensures v + (SURFACE + rest + ", " + TOKENS + rest) + u == (v + SURFACE + rest + ", " + TOKENS) + (rest + u)
    ensures (v + SURFACE + rest + ", " + TOKENS) + first == v + SURFACE + ((rest + ", " + TOKENS + first) + "")
  {
    var tail := ", " + TOKENS;
    var end := rest + u;
    assert SURFACE + rest + ", " + TOKENS + rest == SURFACE + rest + tail + rest;
    assert v + SURFACE + rest + ", " + TOKENS == v + SURFACE + rest + tail;
    assert v + (SURFACE + rest + tail + rest) + u == (v + SURFACE + rest + tail) + end;
    assert rest + ", " + TOKENS + first == rest + tail + first;
    assert (v + SURFACE + rest + tail) + first == v + SURFACE + ((rest + tail + first) + "");
  }

  /** What follows the second copy is split as it stands. */
  lemma OpenRootContribution(v: Text, rest: Text, u: Text)
    requires Blank(v) && Split(rest, OUT) == [rest] && !Closed(rest)
    ensures Rejections(Split(v + (SURFACE + rest + ", " + TOKENS + rest) + u, OUT)) == Spill(rest, u)
  {
    var head := v + SURFACE + rest + ", " + TOKENS;
    var parts := Split(rest + u, Run(rest, OUT).(skip := false));
    OpenRootHead(v, rest);
    SplitAppend(head, rest + u, OUT);
    OpenRootText(v, rest, u, parts[0]);
    UnderTheSurface(v, SURFACE, rest + ", " + TOKENS + parts[0], "");
    RejectionsHead(head + parts[0], parts[1..]);
  }

  // ------------------------------------------------------------- leaks of one rule

  lemma RootPrefix(m: Text)
    requires IsRoot(m) && Split(m, OUT) == [m]
    ensures Split(AfterRoot(m), OUT) == [AfterRoot(m)] && Run(AfterRoot(m), OUT) == Run(m, OUT)
  {
    var word, rest := m[..5], AfterRoot(m);
    assert m == word + rest;
    assert word == ":root" || word == ":host";
    ReadsDull(word, OUT);
    SplitAppend(word, rest, OUT);
    RunAppend(word, rest, OUT);
    OnlyPart(rest, OUT);
  }

  /** What one selector contributes, wherever it stands in the rewritten prelude. */
  lemma Contribution(p: Text, v: Text, u: Text)
    requires Split(p, OUT) == [p] && Blank(v) && Blank(u)
    ensures Rejections(Split(v + ScopeSelector(p) + u, OUT)) == Own(p, u)
    ensures Closed(p) ==> Closed(ScopeSelector(p))
  {
    var m := Trim(p);
    BlankTrims(p);
    TrimmedSelector(p);
    if m == "" {
      BlankContribution(p, v, u);
    } else if m == "*" {
      StarContribution(v, u);
    } else if IsRoot(m) {
      RootPrefix(m);
      RootContribution(AfterRoot(m), v, u);
    } else {
      OrdinaryContribution(m, v, u);
    }
  }

  lemma RootContribution(rest: Text, v: Text, u: Text)
    requires Split(rest, OUT) == [rest] && Blank(v) && Blank(u)
    ensures Rejections(Split(v + (SURFACE + rest + ", " + TOKENS + rest) + u, OUT)) == if Closed(rest) then [] else Spill(rest, u)
    ensures Closed(rest) ==> Closed(SURFACE + rest + ", " + TOKENS + rest)
  {
    if Closed(rest) {
      PairIsAccepted(v, rest, TOKENS, rest, u, OUT);
    } else {
      OpenRootContribution(v, rest, u);
    }
  }

  // --------------------------------------------------------- leaks of a whole list

  /** The selectors of a list whose rewriting is not a repetition. */
  function Kept(parts: seq<Text>): (r: seq<Text>)
    ensures forall x :: x in r ==> x in parts
    ensures parts != [] ==> |r| > 0
  {
    if parts == [] then []
    else
      var before := Kept(parts[..|parts| - 1]);
      if ScopeSelector(parts[|parts| - 1]) in ScopeAll(before) then before else before + [parts[|parts| - 1]]
  }

  lemma {:induction false} KeptAreScoped(parts: seq<Text>)
    ensures Dedupe(ScopeAll(parts)) == ScopeAll(Kept(parts))
  {
    if parts != [] {
      var n := |parts| - 1;
      KeptAreScoped(parts[..n]);
      assert ScopeAll(parts)[..n] == ScopeAll(parts[..n]);
      assert ScopeAll(Kept(parts[..n]) + [parts[n]]) == ScopeAll(Kept(parts[..n])) + [ScopeSelector(parts[n])];
    }
  }

  /** A list of single selectors of which only the last may be open. */
  ghost predicate Readable(q: seq<Text>) {
    && (forall x :: x in q ==> Split(x, OUT) == [x])
    && (forall i :: 0 <= i < |q| - 1 ==> Closed(q[i]))
  }

  lemma {:induction false} KeptAreReadable(parts: seq<Text>)
    requires Readable(parts)
    ensures Readable(Kept(parts))
  {
    if parts != [] {
      var n := |parts| - 1;
      var before := Kept(parts[..n]);
      forall i | 0 <= i < |before| ensures Closed(before[i]) {
        assert before[i] in parts[..n];
        var j :| 0 <= j < n && parts[..n][j] == before[i];
      }
    }
  }

  function OwnAll(q: seq<Text>, u: Text): seq<Text> {
    if q == [] then []
    else if |q| == 1 then Own(q[0], u)
    else Own(q[0], "") + OwnAll(q[1..], u)
  }

  lemma ClosedBehindBlanks(v: Text, w: Text)
    requires Blank(v) && Closed(w)
    ensures Closed(v + w)
  {
    RunAppend(v, w, OUT);
    BlankIsQuiet(v, OUT);
  }

  /** The rejections in a joined list of rewritten selectors are those of the selectors, in order. */
  lemma {:induction false} JoinContribution(q: seq<Text>, v: Text, u: Text)
    requires |q| > 0 && Readable(q) && Blank(v) && Blank(u)
    ensures Rejections(Split(v + Join(ScopeAll(q)) + u, OUT)) == OwnAll(q, u)
    decreases |q|
  {
    var w := ScopeSelector(q[0]);
    assert q[0] in q;
    if |q| == 1 {
      Contribution(q[0], v, u);
      assert Join(ScopeAll(q)) == w;
    } else {
      Contribution(q[0], v, "");
      ClosedBehindBlanks(v, w);
      assert v + w + "" == v + w;
      assert ScopeAll(q)[1..] == ScopeAll(q[1..]);
      assert Readable(q[1..]);
      JoinContribution(q[1..], "", u);
      var rest := "" + Join(ScopeAll(q[1..])) + u;
      SplitAfterClosed(v + w, rest);
      RejectionsAppend(Split(v + w, OUT), Split(rest, OUT));
      JoinText(v, w, Join(ScopeAll(q[1..])), u);
    }
  }

  lemma JoinText(v: Text, w: Text, more: Text, u: Text)
    ensures v + (w + "," + more) + u == (v + w) + "," + ("" + more + u)
  {
    assert w + "," + more == w + ("," + more);
    assert v + (w + ("," + more)) + u == (v + w) + ("," + more) + u;
    assert ("," + more) + u == "," + ("" + more + u);
  }

  /** The selectors the guard rejects in the rewriting of a prelude, told from the prelude itself. */
  function Leaks(prelude: Text): seq<Text> {
    OwnAll(Kept(Split(TrimStart(prelude), OUT)), " ")
  }

  lemma PartsAreReadable(t: Text)
    ensures Readable(Split(t, OUT))
  {
    PartsAreSelectors(t, OUT);
  }

  lemma LeaksOfRewrite(prelude: Text)
    ensures Rejections(Split(Rewrite(prelude), OUT)) == Leaks(prelude)
  {
    var parts := Split(TrimStart(prelude), OUT);
    PartsAreReadable(TrimStart(prelude));
    KeptAreScoped(parts);
    KeptAreReadable(parts);
    JoinContribution(Kept(parts), Lead(prelude), " ");
  }

  /** Every `:root` or `:host` selector of the prelude closes its brackets and quotes. */
  predicate RootsClosed(prelude: Text) {
    forall p | p in Split(TrimStart(prelude), OUT) :: IsRoot(Trim(p)) ==> Closed(AfterRoot(Trim(p)))
  }

  lemma {:induction false} ClosedRootsLeakNothing(q: seq<Text>, u: Text, x: Text)
    requires forall p :: p in q ==> IsRoot(Trim(p)) ==> Closed(AfterRoot(Trim(p)))
    requires x in OwnAll(q, u)
    ensures x == ""
  {
    if |q| > 1 {
      if x in OwnAll(q[1..], u) {
        ClosedRootsLeakNothing(q[1..], u, x);
      } else {
        assert q[0] in q;
      }
    }
  }

  // ---------------------------------------------------------------------- the guard

  /** The rules whose selectors the guard looks at. */
  predicate IsGuarded(p: Piece) { p.Rule? && !IsAtRule(p.prelude) && !p.scope.Keyframes? }

  /** What the guard rejects, in order. */
  function Found(ps: seq<Piece>): seq<Text> {
    if ps == [] then []
    else FoundIn(ps[0]) + Found(ps[1..])
  }

  function FoundIn(p: Piece): seq<Text> {
    if IsGuarded(p) then Rejections(Split(p.prelude, OUT)) else []
  }

  /** What it will reject in this rule once the top rules are rewritten. */
  function LeaksIn(p: Piece): seq<Text> {
    if IsRewritten(p) then Leaks(p.prelude) else FoundIn(p)
  }

  function LeaksOf(ps: seq<Piece>): seq<Text> {
    if ps == [] then [] else LeaksIn(ps[0]) + LeaksOf(ps[1..])
  }

  lemma {:induction false} FoundIsLeaks(ps: seq<Piece>)
    requires CommentFree(ps)
    ensures Found(RewriteAll(ps, Rewrite)) == LeaksOf(ps)
  {
    if ps != [] {
      FoundIsLeaks(ps[1..]);
      var qs := RewriteAll(ps, Rewrite);
      assert qs[1..] == RewriteAll(ps[1..], Rewrite);
      assert ps[0] in ps;
      if IsRewritten(ps[0]) {
        LeaksOfRewrite(ps[0].prelude);
        RewriteIsNoAtRule(ps[0].prelude);
      }
    }
  }

  /** `if (rejected)`: the first rejected selector, unless it is the empty one. */
  predicate Throws(found: seq<Text>) { found != [] && found[0] != "" }

  /** The scoped stylesheet. */
  function ScopedSheet(css: Text): Result<Text, CssScanner.Problem> {
    var scan := Scan(css, [Top]);
    if scan.Failure? then Failure(scan.error) else Success(Render(RewriteAll(scan.value, Rewrite)))
  }

  /** The leak scan of the guard; an unclosed block throws as well. */
  predicate GuardAccepts(css: Text) {
    var scan := Scan(css, [Top]);
    scan.Success? && !Throws(Found(scan.value))
  }

  /**
    The guard's rescan of a scoped stylesheet sees the same rules in the same scopes, and it rejects
    exactly the selectors told from the input; so it throws if and only if the first of them is not empty.
  */
  lemma GuardOfScoped(css: Text)
    requires Scan(css, [Top]).Success? && CommentFree(Scan(css, [Top]).value)
    ensures var ps := Scan(css, [Top]).value;
            && ScopedSheet(css).Success?
            && Scan(ScopedSheet(css).value, [Top]) == Success(RewriteAll(ps, Rewrite))
            && Found(Scan(ScopedSheet(css).value, [Top]).value) == LeaksOf(ps)
            && (GuardAccepts(ScopedSheet(css).value) <==> !Throws(LeaksOf(ps)))
  {
    RewriteKeepsStructure();
    RescanSeesTheSameStructure(css, [Top], Rewrite);
    FoundIsLeaks(Scan(css, [Top]).value);
  }

  /** Every nested rule is written relative to its parent, and every root selector is closed. */
  predicate WellNested(ps: seq<Piece>) {
    && (forall p | p in ps :: IsGuarded(p) && !IsRewritten(p) ==> Rejections(Split(p.prelude, OUT)) == [])
    && (forall p | p in ps :: IsRewritten(p) ==> RootsClosed(p.prelude))
  }

  lemma {:induction false} WellNestedLeaksNothing(ps: seq<Piece>, x: Text)
    requires WellNested(ps) && x in LeaksOf(ps)
    ensures x == ""
  {
    if ps != [] {
      assert ps[0] in ps;
      if x in LeaksOf(ps[1..]) {
        assert WellNested(ps[1..]);
        WellNestedLeaksNothing(ps[1..], x);
      } else if IsRewritten(ps[0]) {
        ClosedRootsLeakNothing(Kept(Split(TrimStart(ps[0].prelude), OUT)), " ", x);
      }
    }
  }

  /** Scoping is closed under the guard. */
  lemma ScopedPassesTheGuard(css: Text)
    requires Scan(css, [Top]).Success? && CommentFree(Scan(css, [Top]).value) && WellNested(Scan(css, [Top]).value)
    ensures ScopedSheet(css).Success? && GuardAccepts(ScopedSheet(css).value)
  {
    var ps := Scan(css, [Top]).value;
    GuardOfScoped(css);
    if LeaksOf(ps) != [] {
      WellNestedLeaksNothing(ps, LeaksOf(ps)[0]);
    }
  }
}
