/**
  Stylesheets on which the scoping or its guard does not do what its comments say.

  They are scanned and judged piece by piece.  In the first a `:root` selector closes more brackets than
  it opens, and the guard rejects what scoping wrote; in the second an empty selector is the first that
  the guard remembers, and hides a nested rule that leaks; in the third the scoped form of a `:root`
  selector has an empty selector that the input does not have.
*/
module CssExamples {
  import opened Basics
  import opened CssScanner
  import opened CssSelectors
  import opened CssScope

  // ------------------------------------------------------------- rules without a body

  const CLOSING := [Other("", '}')] + [Tail("")]

  lemma ScanClosing()
    ensures Scan("}", [Top, Style]) == Success(CLOSING)
  {
    assert Scan("", [Top]) == Success([Tail("")]);
    ScanEnd("", [Top], [Tail("")]);
    assert "}" + "" == "}";
  }

  lemma FindsBrace(p: Text, rest: Text, scope: Scope)
    requires Plain(p) && (scope.Style? ==> p == "b") && !scope.Keyframes?
    ensures Find(p + "{" + rest, 0, scope) == |p|
  {
    if scope.Top? {
      PlainRunsToBrace(p, rest, 0);
    } else {
      var t := p + "{" + rest;
      assert t[0] == 'b' && t[1] == '{' && Find(t, 1, Style) == 1;
    }
  }

  /** A short prelude, whose block is a style rule, and what comes after it. */
  lemma ScanRule(p: Text, scopes: seq<Scope>, rest: Text, after: seq<Piece>)
    requires Plain(p) && !IsAtRule(p) && |scopes| > 0 && !Last(scopes).Keyframes?
    requires Last(scopes).Style? ==> p == "b"
    requires Scan(rest, scopes + [Style]) == Success(after)
    ensures Scan(p + "{" + rest, scopes) == Success([Rule(p, Last(scopes))] + after)
  {
    var t := p + "{" + rest;
    assert t[|p| + 1..] == rest && t[..|p|] == p && t[|p|] == '{';
    FindsBrace(p, rest, Last(scopes));
    ScanStepTo(t, scopes, |p|, rest);
  }

  /** The end of a block, and what comes after it. */
  lemma ScanEnd(rest: Text, scopes: seq<Scope>, after: seq<Piece>)
    requires |scopes| > 0 && Scan(rest, scopes) == Success(after)
    ensures Scan("}" + rest, scopes + [Style]) == Success([Other("", '}')] + after)
  {
    var t := "}" + rest;
    assert t[0] == '}' && Find(t, 0, Style) == 0 && t[1..] == rest && t[..0] == "";
    ScanStepTo(t, scopes + [Style], 0, rest);
    assert (scopes + [Style])[..|scopes|] == scopes;
  }

  lemma LeaksCons(p: Piece, ps: seq<Piece>)
    ensures LeaksOf([p] + ps) == LeaksIn(p) + LeaksOf(ps)
  {
    assert ([p] + ps)[1..] == ps;
  }

  lemma ClosingLeaksNothing(ps: seq<Piece>)
    ensures LeaksOf([Other("", '}')] + ps) == LeaksOf(ps) && LeaksOf(CLOSING) == []
  {
    LeaksCons(Other("", '}'), ps);
    LeaksCons(Other("", '}'), [Tail("")]);
    LeaksCons(Tail(""), []);
    assert [Tail("")] + [] == [Tail("")];
    assert LeaksIn(Other("", '}')) == [] && LeaksIn(Tail("")) == [];
  }

  /** One rule without a body, through scoping and guarding. */
  lemma OneRule(p: Text)
    requires Plain(p) && !IsAtRule(p)
    ensures var css := p + "{" + "}";
            && ScopedSheet(css).Success? && Scan(ScopedSheet(css).value, [Top]).Success?
            && Found(Scan(ScopedSheet(css).value, [Top]).value) == LeaksIn(Rule(p, Top))
            && (GuardAccepts(ScopedSheet(css).value) <==> !Throws(LeaksIn(Rule(p, Top))))
  {
    ScanClosing();
    assert [Top] + [Style] == [Top, Style];
    ScanRule(p, [Top], "}", CLOSING);
    GuardOfScoped(p + "{" + "}");
    LeaksCons(Rule(p, Top), CLOSING);
    ClosingLeaksNothing([]);
  }

  // ------------------------------------------------------------- an unclosed root

  const REST: Text := "(,))"
  const BELOW := State(-1, None, false)

  /** Read alone, the rest of the selector is one piece that closes one bracket too many. */
  lemma RestReads()
    ensures Reads(REST, OUT, BELOW)
  {
    var deep := State(1, None, false);
    ReadsChar('(', OUT);
    ReadsChar(',', deep);
    ReadsBoth("(", ",", OUT, deep, deep);
    ReadsChar(')', deep);
    ReadsBoth("(" + ",", ")", OUT, deep, OUT);
    ReadsChar(')', OUT);
    ReadsBoth("(" + "," + ")", ")", OUT, OUT, BELOW);
    assert "(" + "," + ")" + ")" == REST;
  }

  lemma BracketsRead()
    ensures Reads(")) ", OUT, State(-2, None, false))
  {
    ReadsChar(')', OUT);
    ReadsChar(')', BELOW);
    ReadsBoth(")", ")", OUT, BELOW, State(-2, None, false));
    ReadsChar(' ', State(-2, None, false));
    ReadsBoth(")" + ")", " ", OUT, State(-2, None, false), State(-2, None, false));
    assert ")" + ")" + " " == ")) ";
  }

  /** Read again from there, its comma separates selectors. */
  lemma RestSplits()
    ensures Split(REST + " ", BELOW)[1..] == [")) "]
  {
    ReadsChar('(', BELOW);
    SplitAppend("(", "," + ")) ", BELOW);
    CommaSplits(")) ");
    BracketsRead();
    assert "(" + ("," + ")) ") == REST + " ";
    assert Glue(["("], [""] + [")) "])[1..] == [")) "];
  }

  lemma BracketsAreRejected()
    ensures Rejections([")) "]) == ["))"]
  {
    OneRejection(")) ");
    TrimBoth("", "))", " ");
    assert "" + "))" + " " == ")) ";
    assert TrimStart("))") == "))" && TrimEnd("))") == "))";
  }

  lemma RootTrims(rest: Text)
    requires rest != "" && !IsSpace(rest[|rest| - 1])
    ensures TrimStart(":root" + rest) == ":root" + rest && Trim(":root" + rest) == ":root" + rest
  {
    var t := ":root" + rest;
    assert t[0] == ':' && t[|t| - 1] == rest[|rest| - 1];
  }

  lemma RootIsRoot(rest: Text)
    requires rest != "" && !IsWordChar(rest[0])
    ensures IsRoot(":root" + rest) && AfterRoot(":root" + rest) == rest
  {
    var t := ":root" + rest;
    assert t[..5] == ":root" && t[5..] == rest;
  }

  lemma RootReads(rest: Text, to: State)
    requires Reads(rest, OUT, to)
    ensures Reads(":root" + rest, OUT, to)
  {
    ReadsDull(":root", OUT);
    ReadsBoth(":root", rest, OUT, OUT, to);
  }

  lemma KeptSingle(p: Text)
    ensures Kept([p]) == [p]
  {
    assert [p][..0] == [];
    assert Kept([p][..0]) == [] && ScopeAll([]) == [];
  }

  /** A root selector that closes one bracket too many spills what follows the first comma outside. */
  lemma OpenRootLeaks(rest: Text)
    requires Reads(rest, OUT, BELOW) && rest != "" && !IsSpace(rest[|rest| - 1]) && !IsWordChar(rest[0])
    ensures Split(":root" + rest, OUT) == [":root" + rest]
    ensures Leaks(":root" + rest) == Rejections(Split(rest + " ", BELOW)[1..])
  {
    RootReads(rest, BELOW);
    RootTrims(rest);
    RootIsRoot(rest);
    KeptSingle(":root" + rest);
  }

  lemma RootLeaks()
    ensures Leaks(":root" + REST) == ["))"]
  {
    RestReads();
    RestSplits();
    BracketsAreRejected();
    OpenRootLeaks(REST);
  }

  lemma RootIsPlainPrelude(rest: Text)
    requires rest == REST || rest == COMMAS
    ensures Plain(":root" + rest) && !IsAtRule(":root" + rest)
  {
    RootTrims(rest);
    assert Plain(":root") && Plain(rest);
    PlainConcat(":root", rest);
  }

  /** `:root(,)){}` is scoped into a stylesheet that the guard rejects. */
  lemma UnclosedRootIsRejected()
    ensures var css := ":root" + REST + "{" + "}";
            ScopedSheet(css).Success? && !GuardAccepts(ScopedSheet(css).value)
  {
    RootIsPlainPrelude(REST);
    OneRule(":root" + REST);
    RootLeaks();
  }

  // ------------------------------------------------------------ an empty selector

  lemma SelectorLeaks(p: Text)
    requires Reads(p, OUT, OUT) && TrimStart(p) == p && !IsRoot(Trim(p)) && !IsAtRule(p)
    ensures LeaksIn(Rule(p, Top)) == if Trim(p) == "" then [""] else []
  {
    KeptSingle(p);
  }

  lemma NestedLeaks(p: Text)
    requires Reads(p, OUT, OUT) && !IsAtRule(p) && !Accepted(Trim(p))
    ensures LeaksIn(Rule(p, Style)) == [Trim(p)]
  {
    OneRejection(p);
  }

  const NESTED := [Rule("b", Style)] + ([Other("", '}')] + CLOSING)

  lemma ScanNested()
    ensures Scan("b" + "{" + ("}" + "}"), [Top, Style]) == Success(NESTED)
  {
    ScanClosing();
    ScanEnd("}", [Top, Style], CLOSING);
    ScanRule("b", [Top, Style], "}" + "}", [Other("", '}')] + CLOSING);
  }

  lemma NestedLeaksB()
    ensures LeaksOf(NESTED) == ["b"]
  {
    ReadsDull("b", OUT);
    NestedLeaks("b");
    assert Trim("b") == "b";
    LeaksCons(Rule("b", Style), [Other("", '}')] + CLOSING);
    ClosingLeaksNothing(CLOSING);
  }

  const OUTER := [Rule(".a", Top)] + NESTED

  lemma ScanOuter()
    ensures Scan(".a" + "{" + ("b" + "{" + ("}" + "}")), [Top]) == Success(OUTER)
  {
    ScanNested();
    assert [Top] + [Style] == [Top, Style] && Plain(".a");
    ScanRule(".a", [Top], "b" + "{" + ("}" + "}"), NESTED);
  }

  lemma OuterLeaksB()
    ensures LeaksOf(OUTER) == ["b"]
  {
    ReadsDull(".a", OUT);
    assert TrimStart(".a") == ".a" && Trim(".a") == ".a";
    SelectorLeaks(".a");
    NestedLeaksB();
    LeaksCons(Rule(".a", Top), NESTED);
  }

  const EMPTY_FIRST: Text := "" + "{" + ("}" + (".a" + "{" + ("b" + "{" + ("}" + "}"))))
  const PIECES := [Rule("", Top)] + ([Other("", '}')] + OUTER)

  lemma ScanEmptyFirst()
    ensures Scan(EMPTY_FIRST, [Top]) == Success(PIECES)
  {
    var outer := ".a" + "{" + ("b" + "{" + ("}" + "}"));
    ScanOuter();
    ScanEnd(outer, [Top], OUTER);
    ScanRule("", [Top], "}" + outer, [Other("", '}')] + OUTER);
  }

  lemma EmptyFirstLeaks()
    ensures LeaksOf(PIECES) == ["", "b"]
  {
    ReadsDull("", OUT);
    SelectorLeaks("");
    OuterLeaksB();
    ClosingLeaksNothing(OUTER);
    LeaksCons(Rule("", Top), [Other("", '}')] + OUTER);
  }

  /**
    An empty selector hides the leak behind it: `{}.a{b{}}` is scoped into a stylesheet whose nested
    rule `b` the guard rejects without throwing.
  */
  lemma EmptySelectorHidesALeak()
    ensures ScopedSheet(EMPTY_FIRST).Success?
    ensures var scoped := ScopedSheet(EMPTY_FIRST).value;
            GuardAccepts(scoped) && Scan(scoped, [Top]).Success? && "b" in Found(Scan(scoped, [Top]).value)
  {
    ScanEmptyFirst();
    assert NoComment("") && NoComment(".a");
    GuardOfScoped(EMPTY_FIRST);
    EmptyFirstLeaks();
    assert ["", "b"][1] == "b";
  }

  // ------------------------------------------------- an empty selector that was none

  const COMMAS: Text := "(,,))"

  lemma CommasRead()
    ensures Reads(COMMAS, OUT, BELOW)
  {
    var deep := State(1, None, false);
    ReadsChar('(', OUT);
    ReadsChar(',', deep);
    ReadsBoth("(", ",", OUT, deep, deep);
    ReadsBoth("(" + ",", ",", OUT, deep, deep);
    ReadsChar(')', deep);
    ReadsBoth("(" + "," + ",", ")", OUT, deep, OUT);
    ReadsChar(')', OUT);
    ReadsBoth("(" + "," + "," + ")", ")", OUT, OUT, BELOW);
    assert "(" + "," + "," + ")" + ")" == COMMAS;
  }

  lemma CommasSplit()
    ensures Split(COMMAS + " ", BELOW)[1..] == ["", ")) "]
  {
    ReadsChar('(', BELOW);
    SplitAppend("(", "," + ("," + ")) "), BELOW);
    CommaSplits("," + ")) ");
    CommaSplits(")) ");
    BracketsRead();
    assert "(" + ("," + ("," + ")) ")) == COMMAS + " ";
    assert Glue(["("], [""] + ([""] + [")) "]))[1..] == ["", ")) "];
  }

  lemma CommasAreRejected()
    ensures Rejections(["", ")) "]) == ["", "))"]
  {
    BracketsAreRejected();
    OneRejection("");
    RejectionsAppend([""], [")) "]);
    assert ["", ")) "] == [""] + [")) "];
  }

  lemma CommasLeak()
    ensures Split(":root" + COMMAS, OUT) == [":root" + COMMAS] && Leaks(":root" + COMMAS) == ["", "))"]
  {
    CommasRead();
    CommasSplit();
    CommasAreRejected();
    OpenRootLeaks(COMMAS);
  }

  /** `:root(,,)){}` has no empty selector, but spills one, and the guard accepts what leaks behind it. */
  lemma SpilledEmptySelectorHidesALeak()
    ensures var css := ":root" + COMMAS + "{" + "}";
            && Split(":root" + COMMAS, OUT) == [":root" + COMMAS]
            && ScopedSheet(css).Success? && GuardAccepts(ScopedSheet(css).value)
            && Scan(ScopedSheet(css).value, [Top]).Success? && "))" in Found(Scan(ScopedSheet(css).value, [Top]).value)
  {
    RootIsPlainPrelude(COMMAS);
    OneRule(":root" + COMMAS);
    CommasLeak();
    assert ["", "))"][1] == "))";
  }
}
