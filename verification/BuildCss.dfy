/** The loops of scripts/synara-ui/build-css.ts, proved to be the scanner, the splitter and the guard. */
module BuildCss {
  import opened Basics
  import opened CssScanner
  import opened CssSelectors
  import opened CssScope
  import opened CssGuard

  // ------------------------------------------------------- offsets into the stylesheet

  lemma {:induction false} CommentEndFrom(css: Text, start: nat, i: nat)
    requires start + i <= |css|
    ensures CommentEnd(css, start + i) == start + CommentEnd(css[start..], i)
    decreases |css| - i
  {
    if i + 1 < |css[start..]| {
      CommentEndFrom(css, start, i + 1);
    }
  }

  lemma {:induction false} StringEndFrom(css: Text, start: nat, i: nat, quote: char)
    requires start + i <= |css|
    ensures StringEnd(css, start + i, quote) == start + StringEnd(css[start..], i, quote)
    decreases |css| - i
  {
    var t := css[start..];
    if i < |t| {
      assert t[i] == css[start + i];
      if t[i] == '\\' {
        if i + 2 <= |t| { StringEndFrom(css, start, i + 2, quote); }
      } else if t[i] != quote {
        StringEndFrom(css, start, i + 1, quote);
      }
    }
  }

  /** `skipComment`. */
  method SkipComment(css: Text, index: nat) returns (r: nat)
    requires StartsComment(css, index)
    ensures r == CommentEnd(css, index + 2)
  {
    r := index + 2;
    while r + 1 < |css| && !(css[r] == '*' && css[r + 1] == '/')
      invariant index + 2 <= r <= |css| && CommentEnd(css, r) == CommentEnd(css, index + 2)
    {
      r := r + 1;
    }
    r := if r + 1 < |css| then r + 2 else |css|;
  }

  /** `skipString`. */
  method SkipString(css: Text, index: nat) returns (r: nat)
    requires index < |css|
    ensures r == StringEnd(css, index + 1, css[index])
  {
    var quote := css[index];
    var i := index + 1;
    while i < |css|
      invariant index < i <= |css| && StringEnd(css, i, quote) == StringEnd(css, index + 1, quote)
    {
      if css[i] == '\\' {
        if i + 2 > |css| { return |css|; }
        i := i + 2;
      } else if css[i] == quote {
        return i + 1;
      } else {
        i := i + 1;
      }
    }
    return |css|;
  }

  // ---------------------------------------------------------------------- the scanner

  function PrependAll(done: seq<Piece>, r: Result<seq<Piece>, CssScanner.Problem>): Result<seq<Piece>, CssScanner.Problem> {
    match r
    case Success(ps) => Success(done + ps)
    case Failure(problem) => Failure(problem)
  }

  lemma PrependNone(r: Result<seq<Piece>, CssScanner.Problem>)
    ensures PrependAll([], r) == r
  {
    if r.Success? {
      assert [] + r.value == r.value;
    }
  }

  lemma PrependMore(done: seq<Piece>, p: Piece, r: Result<seq<Piece>, CssScanner.Problem>)
    ensures PrependAll(done, Prepend(p, r)) == PrependAll(done + [p], r)
  {
    if r.Success? {
      assert done + ([p] + r.value) == (done + [p]) + r.value;
    }
  }

  /** The end of the piece that starts at `start` is where the scan stands, or still to be found from there. */
  predicate Seeking(css: Text, start: nat, index: nat, scope: CssScanner.Scope) {
    start <= index <= |css| && Find(css[start..], index - start, scope) == Find(css[start..], 0, scope)
  }

  lemma SeekOn(css: Text, start: nat, index: nat, scope: CssScanner.Scope)
    requires Seeking(css, start, index, scope) && index < |css|
    ensures StartsComment(css, index) <==> StartsComment(css[start..], index - start)
    ensures css[start..][..index - start] == css[start..index]
    ensures !StartsComment(css, index) && !(IsQuote(css[index]) && scope.Style? && ':' in css[start..index]) && !IsStructural(css[index]) ==>
      Seeking(css, start, index + 1, scope)
    ensures !StartsComment(css, index) && !(IsQuote(css[index]) && scope.Style? && ':' in css[start..index]) && IsStructural(css[index]) ==>
      Find(css[start..], 0, scope) == index - start
  {
    var t := css[start..];
    assert t[index - start] == css[index];
    assert t[..index - start] == css[start..index];
  }

  lemma SeekPastComment(css: Text, start: nat, index: nat, scope: CssScanner.Scope)
    requires Seeking(css, start, index, scope) && StartsComment(css, index)
    ensures Seeking(css, start, CommentEnd(css, index + 2), scope) && CommentEnd(css, index + 2) > index
  {
    SeekOn(css, start, index, scope);
    CommentEndFrom(css, start, index + 2 - start);
  }

  lemma SeekPastString(css: Text, start: nat, index: nat, scope: CssScanner.Scope)
    requires Seeking(css, start, index, scope) && index < |css| && !StartsComment(css, index)
    requires IsQuote(css[index]) && scope.Style? && ':' in css[start..index]
    ensures Seeking(css, start, StringEnd(css, index + 1, css[index]), scope) && StringEnd(css, index + 1, css[index]) > index
  {
    SeekOn(css, start, index, scope);
    StringEndFrom(css, start, index + 1 - start, css[index]);
  }

  /** The piece that ends at `index`, and the scopes after it. */
  lemma PieceEnds(css: Text, start: nat, index: nat, scopes: seq<CssScanner.Scope>)
    requires |scopes| > 0 && start <= index < |css|
    ensures PieceAt(css[start..], index - start, scopes) ==
      if css[index] == '{' then Rule(css[start..index], Last(scopes)) else Other(css[start..index], css[index])
    ensures After(css[start..], index - start, scopes) ==
      if css[index] == '{' then scopes + [Inner(css[start..index], Last(scopes))] else if css[index] == '}' then Popped(scopes) else scopes
  {
    var t := css[start..];
    assert t[..index - start] == css[start..index] && t[index - start] == css[index];
  }

  lemma TailOfTail(css: Text, start: nat, index: nat)
    requires start <= index <= |css|
    ensures css[start..][index - start..] == css[index..]
  {
  }

  /** The pieces found so far, and the scan from where the next prelude starts. */
  ghost predicate Scanned(css: Text, out: seq<Piece>, start: nat, scopes: seq<CssScanner.Scope>) {
    start <= |css| && |scopes| > 0 && Scan(css, [Top]) == PrependAll(out, Scan(css[start..], scopes))
  }

  lemma StartScan(css: Text)
    ensures Scanned(css, [], 0, [Top])
  {
    assert css[0..] == css;
    PrependNone(Scan(css, [Top]));
  }

  /** One more piece ends at `index`. */
  lemma ScanMore(css: Text, out: seq<Piece>, start: nat, index: nat, scopes: seq<CssScanner.Scope>)
    requires Scanned(css, out, start, scopes) && start <= index < |css| && Find(css[start..], 0, Last(scopes)) == index - start
    ensures Scanned(css, out + [PieceAt(css[start..], index - start, scopes)], index + 1, After(css[start..], index - start, scopes))
  {
    TailOfTail(css, start, index + 1);
    ScanMoreOf(css, out, css[start..], index - start, css[index + 1..], scopes);
  }

  lemma ScanMoreOf(css: Text, out: seq<Piece>, t: Text, e: nat, rest: Text, scopes: seq<CssScanner.Scope>)
    requires |scopes| > 0 && Scan(css, [Top]) == PrependAll(out, Scan(t, scopes))
    requires e < |t| && Find(t, 0, Last(scopes)) == e && t[e + 1..] == rest
    ensures Scan(css, [Top]) == PrependAll(out + [PieceAt(t, e, scopes)], Scan(rest, After(t, e, scopes)))
  {
    ScanStepTo(t, scopes, e, rest);
    PrependMore(out, PieceAt(t, e, scopes), Scan(rest, After(t, e, scopes)));
  }

  lemma ScanEnds(css: Text, out: seq<Piece>, start: nat, scopes: seq<CssScanner.Scope>)
    requires Scanned(css, out, start, scopes) && Find(css[start..], 0, Last(scopes)) == |css| - start
    ensures Scan(css, [Top]) == if |scopes| > 1 then Failure(UnclosedBlock) else Success(out + [Tail(css[start..])])
  {
  }

  /** `eachRulePrelude`: the pieces in the order in which the visitor and the output see them. */
  method EachRulePrelude(css: Text) returns (r: Result<seq<Piece>, CssScanner.Problem>)
    ensures r == Scan(css, [Top])
  {
    var out: seq<Piece> := [];
    var scopes := [Top];
    var preludeStart, index := 0, 0;
    StartScan(css);
    while index < |css|
      invariant Scanned(css, out, preludeStart, scopes)
      invariant Seeking(css, preludeStart, index, Last(scopes))
      decreases |css| - index
    {
      var character := css[index];
      SeekOn(css, preludeStart, index, Last(scopes));
      if StartsComment(css, index) {
        SeekPastComment(css, preludeStart, index, Last(scopes));
        index := SkipComment(css, index);
      } else if IsQuote(character) && Last(scopes).Style? && ':' in css[preludeStart..index] {
        SeekPastString(css, preludeStart, index, Last(scopes));
        index := SkipString(css, index);
      } else if IsStructural(character) {
        var prelude := css[preludeStart..index];
        PieceEnds(css, preludeStart, index, scopes);
        ScanMore(css, out, preludeStart, index, scopes);
        if character == '{' {
          out := out + [Rule(prelude, Last(scopes))];
          scopes := scopes + [Inner(prelude, Last(scopes))];
        } else {
          out := out + [Other(prelude, character)];
          scopes := if character == '}' then Popped(scopes) else scopes;
        }
        index := index + 1;
        preludeStart := index;
      } else {
        index := index + 1;
      }
    }
    ScanEnds(css, out, preludeStart, scopes);
    if |scopes| > 1 { return Failure(UnclosedBlock); }
    return Success(out + [Tail(css[preludeStart..])]);
  }

  // --------------------------------------------------------------------- the splitter

  /** The parts so far, and the splitter's state in the middle of the part that starts at `start`. */
  ghost predicate Splitting(list: Text, parts: seq<Text>, start: nat, i: nat, s: State) {
    start <= i <= |list| && Split(list, OUT) == parts + Glue([list[start..i]], Split(list[i..], s))
  }

  lemma StartSplit(list: Text)
    ensures Splitting(list, [], 0, 0, OUT)
  {
    var parts := Split(list, OUT);
    assert list[0..] == list && list[0..0] == "" && "" + parts[0] == parts[0];
  }

  lemma SplitEnds(list: Text, parts: seq<Text>, start: nat, s: State)
    requires Splitting(list, parts, start, |list|, s)
    ensures Split(list, OUT) == parts + [list[start..]]
  {
    assert list[|list|..] == "" && list[start..|list|] == list[start..];
    assert list[start..] + "" == list[start..];
  }

  lemma GlueComma(parts: seq<Text>, part: Text, rest: seq<Text>)
    requires |rest| > 0
    ensures parts + Glue([part], [""] + rest) == (parts + [part]) + Glue([""], rest)
  {
    assert part + "" == part && "" + rest[0] == rest[0];
    assert [""] + rest[1..] == [""] + rest[1..];
    assert Glue([""], rest) == rest;
    assert Glue([part], [""] + rest) == [part] + rest;
  }

  lemma GlueCharacter(part: Text, c: char, rest: seq<Text>)
    requires |rest| > 0
    ensures Glue([part], Push(c, rest)) == Glue([part + [c]], rest)
  {
    assert part + ([c] + rest[0]) == (part + [c]) + rest[0];
  }

  /** One more character read by the splitter. */
  lemma SplitMore(list: Text, parts: seq<Text>, start: nat, i: nat, s: State)
    requires Splitting(list, parts, start, i, s) && i < |list|
    ensures if SplitsAt(s, list[i]) then Splitting(list, parts + [list[start..i]], i + 1, i + 1, s)
            else Splitting(list, parts, start, i + 1, Next(s, list[i]))
  {
    var t, c := list[i..], list[i];
    assert t[1..] == list[i + 1..] && t[0] == c;
    if SplitsAt(s, c) {
      GlueComma(parts, list[start..i], Split(t[1..], s));
      assert list[i + 1..i + 1] == "";
    } else {
      GlueCharacter(list[start..i], c, Split(t[1..], Next(s, c)));
      assert list[start..i + 1] == list[start..i] + [c];
    }
  }

  /** `splitSelectorList`. */
  method SplitSelectorList(list: Text) returns (parts: seq<Text>)
    ensures parts == Split(list, OUT)
  {
    parts := [];
    var depth := 0;
    var quote: Option<char> := None;
    var start := 0;
    var i := 0;
    StartSplit(list);
    while i < |list|
      invariant i < |list| ==> Splitting(list, parts, start, i, State(depth, quote, false))
      invariant i >= |list| ==> exists s :: Splitting(list, parts, start, |list|, s)
      decreases |list| - i
    {
      var character := list[i];
      ghost var s := State(depth, quote, false);
      SplitMore(list, parts, start, i, s);
      if quote.Some? {
        if character == '\\' {
          i := i + 1;
          if i < |list| {
            SplitMore(list, parts, start, i, Next(s, character));
          }
        } else if character == quote.value {
          quote := None;
        }
      } else if IsQuote(character) {
        quote := Some(character);
      } else if character == '(' || character == '[' {
        depth := depth + 1;
      } else if character == ')' || character == ']' {
        depth := depth - 1;
      } else if character == ',' && depth == 0 {
        parts := parts + [list[start..i]];
        start := i + 1;
      }
      i := i + 1;
    }
    ghost var s :| Splitting(list, parts, start, |list|, s);
    SplitEnds(list, parts, start, s);
    parts := parts + [list[start..]];
  }

  // ------------------------------------------------------------- scoping and guarding

  /** `scopeCss`. */
  method ScopeCss(css: Text) returns (r: Result<Text, CssScanner.Problem>)
    ensures r == ScopedSheet(css)
    ensures r.Success? && CommentFree(Scan(css, [Top]).value) ==>
      Scan(r.value, [Top]).Success? && Found(Scan(r.value, [Top]).value) == LeaksOf(Scan(css, [Top]).value)
  {
    var scan := EachRulePrelude(css);
    if scan.Failure? { return Failure(scan.error); }
    if CommentFree(scan.value) {
      GuardOfScoped(css);
    }
    return Success(Render(RewriteAll(scan.value, Rewrite)));
  }

  lemma {:induction false} FoundAppends(a: seq<Piece>, p: Piece)
    ensures Found(a + [p]) == Found(a) + FoundIn(p)
  {
    if a == [] {
      assert [p][1..] == [] && a + [p] == [p];
    } else {
      assert (a + [p])[1..] == a[1..] + [p];
      FoundAppends(a[1..], p);
    }
  }

  lemma FoundOneMore(ps: seq<Piece>, n: nat)
    requires n < |ps|
    ensures Found(ps[..n + 1]) == Found(ps[..n]) + FoundIn(ps[n])
  {
    assert ps[..n + 1] == ps[..n] + [ps[n]];
    FoundAppends(ps[..n], ps[n]);
  }

  function FirstOf(found: seq<Text>): Option<Text> { if found == [] then None else Some(found[0]) }

  /** The leak scan of `guard`: the first rejected selector is remembered, even when it is empty. */
  method GuardLeaks(css: Text) returns (throws: bool)
    ensures throws == !GuardAccepts(css)
    ensures !throws <==>
      var scan := Scan(css, [Top]); scan.Success? && (NothingLeaks(scan.value) || HiddenFirst(scan.value))
  {
    var scan := EachRulePrelude(css);
    if scan.Failure? { return true; }
    GuardAcceptsExactlyWhen(css);
    var rejected: Option<Text> := None;
    for n := 0 to |scan.value|
      invariant rejected == FirstOf(Found(scan.value[..n]))
    {
      var p := scan.value[n];
      FoundOneMore(scan.value, n);
      if IsGuarded(p) {
        var selectors := SplitSelectorList(p.prelude);
        var first := FirstRejected(selectors);
        if rejected.None? {
          rejected := first;
        }
      }
    }
    assert scan.value[..|scan.value|] == scan.value;
    throws := rejected.Some? && rejected.value != "";
  }

  /** The first selector of a rule that is neither under the surface nor relative to its parent. */
  method FirstRejected(selectors: seq<Text>) returns (rejected: Option<Text>)
    ensures rejected == FirstOf(Rejections(selectors))
  {
    rejected := None;
    for i := 0 to |selectors|
      invariant rejected == FirstOf(Rejections(selectors[..i]))
    {
      var trimmed := Trim(selectors[i]);
      assert selectors[..i + 1] == selectors[..i] + [selectors[i]];
      RejectionsAppend(selectors[..i], [selectors[i]]);
      OneRejection(selectors[i]);
      if !Accepted(trimmed) && rejected.None? {
        rejected := Some(trimmed);
      }
    }
    assert selectors[..|selectors|] == selectors;
  }
}
