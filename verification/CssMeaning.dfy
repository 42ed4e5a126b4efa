/** What the scoped selectors are, and what scanner, splitter and guard mean, told in characters. */
module CssMeaning {
  import opened Basics
  import opened CssScanner
  import opened CssSelectors
  import opened CssScope
  import opened CssGuard

  // -------------------------------------------------------------------------- spaces

  /** The white space of JavaScript's `trim`. */
  lemma SpacesAre(c: char)
    ensures IsSpace(c) <==>
      c as int in {9, 10, 11, 12, 13, 32, 160, 5760, 8192, 8193, 8194, 8195, 8196, 8197, 8198, 8199, 8200, 8201, 8202,
                   8232, 8233, 8239, 8287, 12288, 65279}
  {
  }

  /** Trimming takes the white space off both ends, and nothing else. */
  lemma TrimTold(t: Text)
    ensures exists v, w :: t == v + Trim(t) + w && Blank(v) && Blank(w)
    ensures Trim(t) != "" ==> !IsSpace(Trim(t)[0]) && !IsSpace(Trim(t)[|Trim(t)| - 1])
    ensures exists v :: t == v + TrimStart(t) && Blank(v)
    ensures TrimStart(t) != "" ==> !IsSpace(TrimStart(t)[0])
  {
    var v, w := Lead(t), Trail(TrimStart(t));
    assert t == v + Trim(t) + w;
    StartIsNoSpace(t);
    EndIsNoSpace(TrimStart(t));
    assert Trim(t) != "" ==> Trim(t)[0] == TrimStart(t)[0] by {
      assert Trim(t) + w == TrimStart(t);
    }
  }

  lemma {:induction false} StartIsNoSpace(t: Text)
    ensures TrimStart(t) != "" ==> !IsSpace(TrimStart(t)[0])
  {
    if t != "" && IsSpace(t[0]) {
      StartIsNoSpace(t[1..]);
    }
  }

  lemma {:induction false} EndIsNoSpace(t: Text)
    ensures TrimEnd(t) != "" ==> !IsSpace(TrimEnd(t)[|TrimEnd(t)| - 1])
  {
    if t != "" && IsSpace(t[|t| - 1]) {
      EndIsNoSpace(t[..|t| - 1]);
    }
  }

  lemma TrimmedStays(t: Text)
    requires t != "" && !IsSpace(t[0]) && !IsSpace(t[|t| - 1])
    ensures Trim(t) == t
  {
  }

  // ------------------------------------------------------------------ scoped selectors

  /** `:root` or `:host` as a whole word. */
  predicate IsRootSelector(m: Text) {
    (":root" <= m || ":host" <= m) && (|m| == 5 || !('a' <= m[5] <= 'z' || 'A' <= m[5] <= 'Z' || '0' <= m[5] <= '9' || m[5] == '_'))
  }

  /** The selectors that a selector stands for once it is scoped. */
  predicate Becomes(m: Text, x: Text) {
    if m == "" then x == ""
    else if m == "*" then x == "[data-cedia-surface]" || x == "[data-cedia-surface] *"
    else if IsRootSelector(m) then x == "[data-cedia-surface]" + m[5..] || x == "[data-cedia-tokens]" + m[5..]
    else x == "[data-cedia-surface] " + m
  }

  function Trims(parts: seq<Text>): set<Text> {
    set p | p in parts :: Trim(p)
  }

  lemma RootTold(m: Text)
    ensures IsRoot(m) <==> IsRootSelector(m)
  {
    if ":root" <= m || ":host" <= m {
      assert |m| > 5 ==> m[5..][0] == m[5];
    }
  }

  lemma PairTrims(a: Text, b: Text)
    ensures Trims([a] + [b]) == {Trim(a), Trim(b)}
  {
    assert a in [a] + [b] && b in [a] + [b];
  }

  lemma SingleTrims(a: Text)
    ensures Trims([a]) == {Trim(a)}
  {
    assert a in [a];
  }

  /** A text that begins with a bracket and ends in no space is its own trimming, between blanks as well. */
  lemma BetweenBlanks(v: Text, t: Text, w: Text)
    requires Blank(v) && Blank(w) && t != "" && t[0] == '[' && !IsSpace(t[|t| - 1])
    ensures Trim(v + t + w) == t
  {
    TrimBoth(v, t, w);
    TrimmedStays(t);
  }

  predicate Tidy(t: Text) { t != "" && t[0] == '[' && !IsSpace(t[|t| - 1]) }

  lemma PairTrimmed(v: Text, a: Text, b: Text, u: Text)
    requires Blank(v) && Blank(u) && Tidy(a) && Tidy(b)
    ensures Trims([v + a] + [" " + b + u]) == {a, b}
  {
    PairTrims(v + a, " " + b + u);
    BetweenBlanks(v, a, "");
    assert v + a + "" == v + a;
    BetweenBlanks(" ", b, u);
  }

  lemma SurfaceIsTidy(surface: Text, x: Text)
    requires (surface == SURFACE || surface == TOKENS) && (x != "" ==> !IsSpace(x[|x| - 1]))
    ensures Tidy(surface + x)
  {
    assert x == "" ==> surface + x == surface;
    assert x != "" ==> (surface + x)[|surface + x| - 1] == x[|x| - 1];
  }

  lemma PairBecomes(v: Text, x: Text, surface: Text, y: Text, u: Text)
    requires Blank(v) && Blank(u) && (surface == SURFACE || surface == TOKENS)
    requires Reads(x, OUT, OUT) && Reads(y, OUT, OUT)
    requires (x != "" ==> !IsSpace(x[|x| - 1])) && (y != "" ==> !IsSpace(y[|y| - 1]))
    ensures Trims(Split(v + (SURFACE + x + ", " + surface + y) + u, OUT)) == {SURFACE + x, surface + y}
  {
    PairSplits(v, x, surface, y, u, OUT);
    SurfaceIsTidy(SURFACE, x);
    SurfaceIsTidy(surface, y);
    PairTrimmed(v, SURFACE + x, surface + y, u);
    Regrouped(v, SURFACE, x, " ", surface, y, u);
  }

  lemma Regrouped(v: Text, a: Text, x: Text, w: Text, b: Text, y: Text, u: Text)
    ensures v + a + x == v + (a + x) && w + b + (y + u) == w + (b + y) + u
  {
  }

  lemma StarBecomes(v: Text, u: Text)
    requires Blank(v) && Blank(u)
    ensures Trims(Split(v + (SURFACE + ", " + SURFACE + " *") + u, OUT)) == {SURFACE, SURFACE + " *"}
  {
    ReadsDull("", OUT);
    ReadsDull(" *", OUT);
    PairBecomes(v, "", SURFACE, " *", u);
    assert SURFACE + "" == SURFACE;
    assert SURFACE + "" + ", " + SURFACE + " *" == SURFACE + ", " + SURFACE + " *";
  }

  lemma OrdinaryBecomes(m: Text, v: Text, u: Text)
    requires Blank(v) && Blank(u) && Split(m, OUT) == [m] && m != "" && !IsSpace(m[|m| - 1])
    ensures Trims(Split(v + (SURFACE + " " + m) + u, OUT)) == {SURFACE + " " + m}
  {
    RunReachable(m, OUT);
    ReadsOrdinary(m, v);
    OrdinaryText(m, v, u);
    BlankIsQuiet(u, Run(m, OUT));
    var t := v + SURFACE + (" " + m);
    SingleBoth(t, u, OUT);
    SingleTrims(t + u);
    BetweenBlanks(v, SURFACE + " " + m, u);
    assert v + (SURFACE + " " + m) + u == t + u;
  }

  lemma BlankBecomes(p: Text, v: Text, u: Text)
    requires Blank(p) && Blank(v) && Blank(u)
    ensures Trims(Split(v + p + u, OUT)) == {""}
  {
    BlankTrims(v + p + u);
    BlankIsQuiet(v + p + u, OUT);
    SingleTrims(v + p + u);
  }

  /** A root selector is closed behind `:root` or `:host`. */
  predicate RootIsClosed(p: Text) { IsRootSelector(Trim(p)) ==> Run(Trim(p)[5..], OUT) == OUT }

  lemma RootBecomes(m: Text, v: Text, u: Text)
    requires Split(m, OUT) == [m] && Blank(v) && Blank(u) && IsRoot(m) && Closed(AfterRoot(m)) && !IsSpace(m[|m| - 1])
    ensures Trims(Split(v + (SURFACE + AfterRoot(m) + ", " + TOKENS + AfterRoot(m)) + u, OUT)) == {SURFACE + m[5..], TOKENS + m[5..]}
  {
    RootPrefix(m);
    var rest := AfterRoot(m);
    assert rest != "" ==> rest[|rest| - 1] == m[|m| - 1];
    PairBecomes(v, rest, TOKENS, rest, u);
  }

  /** One selector of a list, scoped, and read again. */
  lemma SelectorTrims(p: Text, v: Text, u: Text)
    requires Split(p, OUT) == [p] && Blank(v) && Blank(u) && RootIsClosed(p)
    ensures var m := Trim(p);
            Trims(Split(v + ScopeSelector(p) + u, OUT)) ==
              if m == "" then {""}
              else if m == "*" then {SURFACE, SURFACE + " *"}
              else if IsRootSelector(m) then {SURFACE + m[5..], TOKENS + m[5..]}
              else {SURFACE + " " + m}
  {
    var m := Trim(p);
    BlankTrims(p);
    TrimmedSelector(p);
    TrimTold(p);
    RootTold(m);
    if m == "" {
      BlankBecomes(p, v, u);
    } else if m == "*" {
      StarBecomes(v, u);
    } else if IsRoot(m) {
      RootBecomes(m, v, u);
    } else {
      OrdinaryBecomes(m, v, u);
    }
  }

  lemma SelectorBecomes(p: Text, v: Text, u: Text, x: Text)
    requires Split(p, OUT) == [p] && Blank(v) && Blank(u) && RootIsClosed(p)
    ensures x in Trims(Split(v + ScopeSelector(p) + u, OUT)) <==> Becomes(Trim(p), x)
  {
    SelectorTrims(p, v, u);
    assert SURFACE + " *" == "[data-cedia-surface] *" && SURFACE + " " + Trim(p) == "[data-cedia-surface] " + Trim(p);
  }

  ghost predicate SomeBecomes(parts: seq<Text>, x: Text) {
    exists p :: p in parts && Becomes(Trim(p), x)
  }

  lemma TrimsAppend(a: seq<Text>, b: seq<Text>)
    ensures Trims(a + b) == Trims(a) + Trims(b)
  {
  }

  lemma {:induction false} ListBecomes(q: seq<Text>, v: Text, u: Text, x: Text)
    requires |q| > 0 && Readable(q) && Blank(v) && Blank(u) && forall p :: p in q ==> RootIsClosed(p)
    ensures x in Trims(Split(v + Join(ScopeAll(q)) + u, OUT)) <==> SomeBecomes(q, x)
    decreases |q|
  {
    var w := ScopeSelector(q[0]);
    assert q[0] in q;
    assert q == [q[0]] + q[1..];
    if |q| == 1 {
      SelectorBecomes(q[0], v, u, x);
      assert Join(ScopeAll(q)) == w;
    } else {
      SelectorBecomes(q[0], v, "", x);
      Contribution(q[0], v, "");
      ClosedBehindBlanks(v, w);
      assert v + w + "" == v + w;
      assert Readable(q[1..]);
      ListBecomes(q[1..], "", u, x);
      TwoParts(q, v, u);
    }
  }

  lemma TwoParts(q: seq<Text>, v: Text, u: Text)
    requires |q| > 1 && Closed(v + ScopeSelector(q[0]))
    ensures Trims(Split(v + Join(ScopeAll(q)) + u, OUT))
         == Trims(Split(v + ScopeSelector(q[0]), OUT)) + Trims(Split("" + Join(ScopeAll(q[1..])) + u, OUT))
  {
    var a, rest := v + ScopeSelector(q[0]), "" + Join(ScopeAll(q[1..])) + u;
    ListText(q, v, u);
    SplitAfterClosed(a, rest);
    TrimsAppend(Split(a, OUT), Split(rest, OUT));
  }

  lemma ListText(q: seq<Text>, v: Text, u: Text)
    requires |q| > 1
    ensures v + Join(ScopeAll(q)) + u == (v + ScopeSelector(q[0])) + "," + ("" + Join(ScopeAll(q[1..])) + u)
  {
    assert ScopeAll(q)[1..] == ScopeAll(q[1..]);
    JoinText(v, ScopeSelector(q[0]), Join(ScopeAll(q[1..])), u);
  }

  /** Every selector of the list has one among the kept that is scoped alike. */
  lemma {:induction false} KeptCovers(parts: seq<Text>, p: Text) returns (r: Text)
    requires p in parts
    ensures r in Kept(parts) && ScopeSelector(r) == ScopeSelector(p)
  {
    var n := |parts| - 1;
    var before := Kept(parts[..n]);
    assert parts == parts[..n] + [parts[n]];
    if p in parts[..n] {
      r := KeptCovers(parts[..n], p);
    } else if ScopeSelector(p) in ScopeAll(before) {
      var i :| 0 <= i < |before| && ScopeAll(before)[i] == ScopeSelector(p);
      r := before[i];
    } else {
      r := p;
    }
  }

  lemma KeptBecome(parts: seq<Text>, x: Text)
    requires (forall p :: p in parts ==> Split(p, OUT) == [p] && RootIsClosed(p))
    ensures SomeBecomes(Kept(parts), x) <==> SomeBecomes(parts, x)
  {
    if p :| p in parts && Becomes(Trim(p), x) {
      var r := KeptCovers(parts, p);
      SelectorBecomes(p, "", "", x);
      SelectorBecomes(r, "", "", x);
    }
  }

  /** The white space before a list does not matter to its trimmed selectors. */
  lemma LeadIsTrimmed(prelude: Text)
    ensures Trims(Split(prelude, OUT)) == Trims(Split(TrimStart(prelude), OUT))
  {
    var v, t := Lead(prelude), TrimStart(prelude);
    var parts := Split(t, OUT);
    BlankIsQuiet(v, OUT);
    SplitAppend(v, t, OUT);
    var whole := Split(prelude, OUT);
    assert whole == [v + parts[0]] + parts[1..];
    TrimBoth(v, parts[0], "");
    assert v + parts[0] + "" == v + parts[0];
    TrimsAppend([v + parts[0]], parts[1..]);
    TrimsAppend([parts[0]], parts[1..]);
    SingleTrims(v + parts[0]);
    SingleTrims(parts[0]);
    assert parts == [parts[0]] + parts[1..];
  }

  /** Every root selector of the list is closed. */
  ghost predicate RootsAreClosed(prelude: Text) {
    forall m :: m in Trims(Split(prelude, OUT)) && IsRootSelector(m) ==> Run(m[5..], OUT) == OUT
  }

  /** The selectors of a rewritten prelude are exactly those that its own stand for. */
  lemma PreludeBecomes(prelude: Text, x: Text)
    requires RootsAreClosed(prelude)
    ensures x in Trims(Split(Rewrite(prelude), OUT)) <==> exists m :: m in Trims(Split(prelude, OUT)) && Becomes(m, x)
  {
    var parts := Split(TrimStart(prelude), OUT);
    LeadIsTrimmed(prelude);
    PartsAreReadable(TrimStart(prelude));
    forall p | p in parts ensures RootIsClosed(p) {
      assert Trim(p) in Trims(parts);
    }
    KeptAreScoped(parts);
    KeptAreReadable(parts);
    ListBecomes(Kept(parts), Lead(prelude), " ", x);
    KeptBecome(parts, x);
    assert SomeBecomes(parts, x) <==> exists m :: m in Trims(parts) && Becomes(m, x) by {
      if p :| p in parts && Becomes(Trim(p), x) {
        assert Trim(p) in Trims(parts);
      }
    }
  }

  predicate AllDistinct(list: seq<Text>) { forall i, j :: 0 <= i < j < |list| ==> list[i] != list[j] }

  lemma {:induction false} DedupedAreDistinct(list: seq<Text>)
    ensures AllDistinct(Dedupe(list))
  {
    if list != [] {
      var before, x := Dedupe(list[..|list| - 1]), list[|list| - 1];
      DedupedAreDistinct(list[..|list| - 1]);
      if x !in before {
        OneMoreIsDistinct(before, x);
      }
    }
  }

  lemma OneMoreIsDistinct(list: seq<Text>, x: Text)
    requires AllDistinct(list) && x !in list
    ensures AllDistinct(list + [x])
  {
  }

  /** The text of a rewritten prelude: its own white space, the scoped selectors with commas between them and none twice, a space. */
  lemma RewrittenText(prelude: Text)
    ensures Rewrite(prelude) == Lead(prelude) + Join(Scoped(prelude)) + " " && Lead(prelude) + TrimStart(prelude) == prelude
    ensures AllDistinct(Scoped(prelude))
  {
    var list := ScopeAll(Split(TrimStart(prelude), OUT));
    DedupedAreDistinct(list);
    assert Scoped(prelude) == Dedupe(list);
  }

  /** The first of equal selectors stays in its place. */
  lemma FirstStays(list: seq<Text>, x: Text)
    ensures Dedupe([]) == [] && Dedupe(list + [x]) == if x in list then Dedupe(list) else Dedupe(list) + [x]
  {
    assert (list + [x])[..|list|] == list;
  }

  /** A style rule in the stylesheet itself or in a grouping at-rule. */
  predicate IsTopRule(p: Piece) {
    p.Rule? && p.scope.Top? && !("@" <= TrimStart(p.prelude))
  }

  /**
    Scoping, rule by rule, as the rescan sees it: the top rules get exactly the selectors theirs stand for,
    and everything else is as it was.
  */
  lemma ScopedRules(css: Text)
    requires Scan(css, [Top]).Success? && CommentFree(Scan(css, [Top]).value)
    ensures ScopedSheet(css).Success? && Scan(ScopedSheet(css).value, [Top]).Success?
    ensures var ps, qs := Scan(css, [Top]).value, Scan(ScopedSheet(css).value, [Top]).value;
            && |qs| == |ps|
            && forall i :: 0 <= i < |ps| ==>
                 if IsTopRule(ps[i]) then
                   IsTopRule(qs[i]) && (RootsAreClosed(ps[i].prelude) ==> forall x ::
                     x in Trims(Split(qs[i].prelude, OUT)) <==> exists m :: m in Trims(Split(ps[i].prelude, OUT)) && Becomes(m, x))
                 else qs[i] == ps[i]
  {
    GuardOfScoped(css);
    var ps, qs := Scan(css, [Top]).value, Scan(ScopedSheet(css).value, [Top]).value;
    forall i | 0 <= i < |ps| && IsTopRule(ps[i])
      ensures IsTopRule(qs[i])
      ensures RootsAreClosed(ps[i].prelude) ==> forall x ::
                x in Trims(Split(qs[i].prelude, OUT)) <==> exists m :: m in Trims(Split(ps[i].prelude, OUT)) && Becomes(m, x)
    {
      RewriteIsNoAtRule(ps[i].prelude);
      if RootsAreClosed(ps[i].prelude) {
        forall x ensures x in Trims(Split(qs[i].prelude, OUT)) <==> exists m :: m in Trims(Split(ps[i].prelude, OUT)) && Becomes(m, x) {
          PreludeBecomes(ps[i].prelude, x);
        }
      }
    }
  }

  // ------------------------------------------------------------------------- the guard

  /** Under the surface, under the tokens, or relative to the parent. */
  predicate Allowed(x: Text) { "[data-cedia-surface]" <= x || "[data-cedia-tokens]" <= x || "&" <= x }

  /** A rule that is no at-rule and no step of an animation. */
  predicate IsJudged(p: Piece) {
    p.Rule? && !p.scope.Keyframes? && !("@" <= TrimStart(p.prelude))
  }

  ghost predicate AllAllowed(p: Piece) {
    IsJudged(p) ==> forall x :: x in Split(p.prelude, OUT) ==> Allowed(Trim(x))
  }

  /** The first selector of the rule that is not allowed is empty. */
  ghost predicate StartsEmpty(p: Piece) {
    IsJudged(p) && exists k :: IsFirstEmpty(Split(p.prelude, OUT), k)
  }

  ghost predicate IsFirstEmpty(parts: seq<Text>, k: nat) {
    k < |parts| && Trim(parts[k]) == "" && forall j :: 0 <= j < k ==> Allowed(Trim(parts[j]))
  }

  lemma RuleTold(p: Piece)
    ensures Quiet(p) <==> AllAllowed(p)
    ensures Hides(p) <==> StartsEmpty(p)
  {
    if IsGuarded(p) {
      var parts := Split(p.prelude, OUT);
      forall k | 0 <= k < |parts| ensures Blank(parts[k]) && AllAccepted(parts[..k]) <==> IsFirstEmpty(parts, k) {
        BlankTrims(parts[k]);
        if IsFirstEmpty(parts, k) {
          forall x | x in parts[..k] ensures Accepted(Trim(x)) {
            var j :| 0 <= j < k && parts[..k][j] == x;
          }
        }
        if AllAccepted(parts[..k]) {
          forall j | 0 <= j < k ensures Allowed(Trim(parts[j])) {
            assert parts[..k][j] in parts[..k];
          }
        }
      }
    }
  }

  /** The first rule with a selector that is not allowed starts with an empty one. */
  ghost predicate HiddenBy(ps: seq<Piece>, i: nat) {
    i < |ps| && StartsEmpty(ps[i]) && forall j :: 0 <= j < i ==> AllAllowed(ps[j])
  }

  /** The guard accepts exactly the stylesheets in which every selector is allowed, or the first that is not is empty. */
  lemma GuardTold(css: Text)
    requires Scan(css, [Top]).Success?
    ensures var ps := Scan(css, [Top]).value;
            GuardAccepts(css) <==> (forall p :: p in ps ==> AllAllowed(p)) || exists i :: HiddenBy(ps, i)
  {
    var ps := Scan(css, [Top]).value;
    GuardAcceptsExactlyWhen(css);
    forall p ensures (Quiet(p) <==> AllAllowed(p)) && (Hides(p) <==> StartsEmpty(p)) {
      RuleTold(p);
    }
    assert NothingLeaks(ps) <==> forall p :: p in ps ==> AllAllowed(p);
    forall i | 0 <= i < |ps| ensures HidesAt(ps, i) <==> HiddenBy(ps, i) {
      assert forall j :: 0 <= j < i ==> ps[..i][j] == ps[j];
      if HidesAt(ps, i) {
        forall j | 0 <= j < i ensures AllAllowed(ps[j]) {
          assert Quiet(ps[..i][j]);
        }
      }
    }
  }
}
