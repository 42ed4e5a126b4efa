/** What comments, strings, brackets and blocks hide, and where a rule sits. */
module CssReading {
  import opened Basics
  import opened CssScanner
  import opened CssSelectors

  // -------------------------------------------------------------- comments and strings

  /** There is no comment end in this text. */
  predicate NoCommentEnd(body: Text) {
    forall i | 0 <= i < |body| - 1 :: !(body[i] == '*' && body[i + 1] == '/')
  }

  /** The text between two quotes: no such quote but behind a backslash, and every backslash hides a character. */
  predicate StringBody(body: Text, quote: char) {
    body == "" ||
    if body[0] == '\\' then |body| > 1 && StringBody(body[2..], quote)
    else body[0] != quote && StringBody(body[1..], quote)
  }

  lemma {:induction false} CommentEndTold(t: Text, i: nat, j: nat)
    requires i <= j && j + 1 < |t| && t[j] == '*' && t[j + 1] == '/'
    requires forall k :: i <= k < j ==> !(t[k] == '*' && t[k + 1] == '/')
    ensures CommentEnd(t, i) == j + 2
    decreases j - i
  {
    if i < j {
      CommentEndTold(t, i + 1, j);
    }
  }

  lemma {:induction false} NoCommentEndTold(t: Text, i: nat)
    requires i <= |t| && forall k :: i <= k < |t| - 1 ==> !(t[k] == '*' && t[k + 1] == '/')
    ensures CommentEnd(t, i) == |t|
    decreases |t| - i
  {
    if i + 1 < |t| {
      NoCommentEndTold(t, i + 1);
    }
  }

  lemma {:induction false} StringEndTold(t: Text, i: nat, body: Text, quote: char)
    requires i <= |t| && body + [quote] <= t[i..] && StringBody(body, quote) && quote != '\\'
    ensures StringEnd(t, i, quote) == i + |body| + 1
    decreases |body|
  {
    if body == "" {
      assert t[i] == t[i..][0];
    } else {
      assert t[i] == t[i..][0] == body[0];
      if body[0] == '\\' {
        assert t[i + 2..] == t[i..][2..];
        assert body[2..] + [quote] <= t[i + 2..];
        StringEndTold(t, i + 2, body[2..], quote);
      } else {
        assert t[i + 1..] == t[i..][1..];
        assert body[1..] + [quote] <= t[i + 1..];
        StringEndTold(t, i + 1, body[1..], quote);
      }
    }
  }

  /** A comment hides everything up to its first end, and an unclosed one everything. */
  lemma CommentsHide(t: Text, i: nat, scope: Scope, body: Text)
    requires i <= |t| && NoCommentEnd(body)
    ensures "/*" + body + "*/" <= t[i..] && NoCommentEnd(body + "*") ==> Find(t, i, scope) == Find(t, i + |body| + 4, scope)
    ensures t[i..] == "/*" + body ==> Find(t, i, scope) == |t|
  {
    if "/*" + body + "*/" <= t[i..] && NoCommentEnd(body + "*") {
      assert t[i..][0] == '/' && t[i..][1] == '*' && t[i] == t[i..][0] && t[i + 1] == t[i..][1];
      var j := i + 2 + |body|;
      assert t[j] == t[i..][|body| + 2] == '*' && t[j + 1] == t[i..][|body| + 3] == '/';
      forall k | i + 2 <= k < j ensures !(t[k] == '*' && t[k + 1] == '/') {
        assert t[k] == t[i..][k - i] == (body + "*")[k - i - 2] && t[k + 1] == t[i..][k + 1 - i] == (body + "*")[k + 1 - i - 2];
      }
      CommentEndTold(t, i + 2, j);
    }
    if t[i..] == "/*" + body {
      assert t[i] == t[i..][0] && t[i + 1] == t[i..][1];
      forall k | i + 2 <= k < |t| - 1 ensures !(t[k] == '*' && t[k + 1] == '/') {
        assert t[k] == t[i..][k - i] == body[k - i - 2] && t[k + 1] == t[i..][k + 1 - i] == body[k + 1 - i - 2];
      }
      NoCommentEndTold(t, i + 2);
    }
  }

  /** In the body of a style rule a string hides everything up to its closing quote, once there was a colon. */
  lemma StringsHide(t: Text, i: nat, body: Text, quote: char)
    requires i <= |t| && [quote] + body + [quote] <= t[i..] && (quote == '"' || quote == '\'') && StringBody(body, quote)
    requires ':' in t[..i]
    ensures Find(t, i, Style) == Find(t, i + |body| + 2, Style)
  {
    assert t[i] == t[i..][0] == quote;
    assert t[i + 1..] == t[i..][1..];
    assert body + [quote] <= t[i + 1..];
    StringEndTold(t, i + 1, body, quote);
  }

  /** Anything else is looked at character by character, and the first `{`, `}` or `;` ends the piece. */
  lemma PlainlyRead(t: Text, i: nat, scope: Scope)
    requires i < |t| && !(t[i] == '/' && i + 1 < |t| && t[i + 1] == '*')
    requires (t[i] == '"' || t[i] == '\'') ==> scope != Style || ':' !in t[..i]
    ensures Find(t, i, scope) == if t[i] == '{' || t[i] == '}' || t[i] == ';' then i else Find(t, i + 1, scope)
    ensures Find(t, |t|, scope) == |t|
  {
  }

  // ----------------------------------------------------------------------------- scopes

  /** A grouping at-rule or keyframes, by name. */
  predicate NamesKeyframes(t: Text) {
    exists word | word in {"@keyframes", "@-webkit-keyframes"} ::
      word <= t && (|t| == |word| ||
        !('a' <= t[|word|] <= 'z' || 'A' <= t[|word|] <= 'Z' || '0' <= t[|word|] <= '9' || t[|word|] == '_'))
  }

  /** Where a rule sits, told from the preludes of the blocks that are open around it, outermost first. */
  function ScopeIn(around: seq<Text>): Scope {
    if around == [] then Top
    else
      var innermost := TrimStart(around[|around| - 1]);
      if !("@" <= innermost) then Style
      else if NamesKeyframes(innermost) then Keyframes
      else ScopeIn(around[..|around| - 1])
  }

  /** The blocks that are open after these pieces. */
  function OpenAfter(ps: seq<Piece>, around: seq<Text>): seq<Text>
    decreases |ps|
  {
    if ps == [] then around else OpenAfter(ps[1..], Around(ps[0], around))
  }

  /** A `{` opens a block, and a `}` closes the innermost one. */
  function Around(p: Piece, around: seq<Text>): seq<Text> {
    match p
    case Rule(prelude, _) => around + [prelude]
    case Other(_, end) => if end == '}' && around != [] then around[..|around| - 1] else around
    case Tail(_) => around
  }

  lemma KeyframesTold(t: Text)
    ensures IsKeyframes(t) <==> NamesKeyframes(t)
  {
    assert "@keyframes" <= t && |t| > 10 ==> t[10..][0] == t[10];
    assert "@-webkit-keyframes" <= t && |t| > 18 ==> t[18..][0] == t[18];
  }

  /** The scanner's stack is the scopes of the open blocks, below the one of the stylesheet. */
  ghost predicate Mirrors(scopes: seq<Scope>, around: seq<Text>) {
    |scopes| == |around| + 1 && forall k :: 0 <= k <= |around| ==> scopes[k] == ScopeIn(around[..k])
  }

  lemma MirrorsOpened(scopes: seq<Scope>, around: seq<Text>, prelude: Text)
    requires Mirrors(scopes, around)
    ensures Mirrors(scopes + [Inner(prelude, Last(scopes))], around + [prelude])
  {
    var more := around + [prelude];
    KeyframesTold(TrimStart(prelude));
    assert around[..|around|] == around;
    assert more[..|around|] == around && more[..|more|] == more;
    forall k | 0 <= k <= |around| ensures (scopes + [Inner(prelude, Last(scopes))])[k] == ScopeIn(more[..k]) {
      assert more[..k] == around[..k];
    }
  }

  lemma MirrorsClosed(scopes: seq<Scope>, around: seq<Text>)
    requires Mirrors(scopes, around)
    ensures Mirrors(Popped(scopes), if around != [] then around[..|around| - 1] else around)
  {
    if around != [] {
      forall k | 0 <= k < |around| ensures scopes[k] == ScopeIn(around[..|around| - 1][..k]) {
        assert around[..|around| - 1][..k] == around[..k];
      }
    }
  }

  lemma MirrorsOn(t: Text, e: nat, scopes: seq<Scope>, around: seq<Text>)
    requires Mirrors(scopes, around) && e < |t| && IsStructural(t[e])
    ensures Mirrors(After(t, e, scopes), Around(PieceAt(t, e, scopes), around))
  {
    if t[e] == '{' {
      MirrorsOpened(scopes, around, t[..e]);
    } else if t[e] == '}' {
      MirrorsClosed(scopes, around);
    }
  }

  lemma OpenAfterCons(ps: seq<Piece>, around: seq<Text>, i: nat)
    requires 0 < i <= |ps|
    ensures OpenAfter(ps[..i], around) == OpenAfter(ps[1..][..i - 1], Around(ps[0], around))
  {
    assert ps[..i][1..] == ps[1..][..i - 1] && ps[..i][0] == ps[0];
  }

  lemma FirstPiece(t: Text, scopes: seq<Scope>, around: seq<Text>)
    requires Mirrors(scopes, around) && Scan(t, scopes).Success?
    ensures var ps := Scan(t, scopes).value; |ps| > 0 && (ps[0].Rule? ==> ps[0].scope == ScopeIn(around))
  {
    assert around[..|around|] == around;
  }

  /** Every rule has the scope that the blocks around it give it. */
  lemma {:induction false} ScopesAreNested(t: Text, scopes: seq<Scope>, around: seq<Text>, i: nat)
    requires Mirrors(scopes, around) && Scan(t, scopes).Success? && i < |Scan(t, scopes).value|
    ensures var ps := Scan(t, scopes).value; ps[i].Rule? ==> ps[i].scope == ScopeIn(OpenAfter(ps[..i], around))
    decreases |t|
  {
    var ps := Scan(t, scopes).value;
    var e := Find(t, 0, Last(scopes));
    if i == 0 {
      FirstPiece(t, scopes, around);
      assert ps[..0] == [];
    } else {
      ScanStep(t, scopes);
      assert ps[1..] == Scan(t[e + 1..], After(t, e, scopes)).value;
      OpenAfterCons(ps, around, i);
      MirrorsOn(t, e, scopes, around);
      ScopesAreNested(t[e + 1..], After(t, e, scopes), Around(ps[0], around), i - 1);
    }
  }

  /** Every rule of a stylesheet. */
  lemma RulesAreNested(css: Text, i: nat)
    requires Scan(css, [Top]).Success? && i < |Scan(css, [Top]).value|
    ensures var ps := Scan(css, [Top]).value; ps[i].Rule? ==> ps[i].scope == ScopeIn(OpenAfter(ps[..i], []))
  {
    var around: seq<Text> := [];
    assert around[..0] == [];
    ScopesAreNested(css, [Top], [], i);
  }

  /** A stylesheet that is read has no open block at its end. */
  lemma {:induction false} BlocksAreClosed(t: Text, scopes: seq<Scope>, around: seq<Text>)
    requires Mirrors(scopes, around) && Scan(t, scopes).Success?
    ensures OpenAfter(Scan(t, scopes).value, around) == []
    decreases |t|
  {
    var ps := Scan(t, scopes).value;
    var e := Find(t, 0, Last(scopes));
    if e < |t| {
      ScanStep(t, scopes);
      assert ps[1..] == Scan(t[e + 1..], After(t, e, scopes)).value;
      MirrorsOn(t, e, scopes, around);
      BlocksAreClosed(t[e + 1..], After(t, e, scopes), Around(ps[0], around));
    }
  }

  /** And it is refused only where the text ends inside a block. */
  lemma OnlyOpenBlocksFail(t: Text, scopes: seq<Scope>)
    requires |scopes| > 0
    ensures var e := Find(t, 0, Last(scopes));
            Scan(t, scopes).Failure? <==> if e == |t| then |scopes| > 1 else Scan(t[e + 1..], After(t, e, scopes)).Failure?
  {
    if Find(t, 0, Last(scopes)) < |t| {
      ScanStep(t, scopes);
    }
  }

  // --------------------------------------------------------------------------- selectors

  /** The splitter without a quote open: the next character counts. */
  predicate Outside(s: State) { s.quote.None? && !s.skip }

  lemma {:induction false} InString(body: Text, quote: char, s: State)
    requires StringBody(body, quote) && quote != '\\' && s.quote == Some(quote) && !s.skip
    ensures Split(body, s) == [body] && Run(body, s) == s
  {
    if body != "" {
      if body[0] == '\\' {
        var hidden := s.(skip := true);
        InString(body[2..], quote, s);
        assert body[1..][1..] == body[2..];
        assert Split(body[1..], hidden) == Push(body[1], [body[2..]]) && Run(body[1..], hidden) == s;
        assert [body[1]] + body[2..] == body[1..];
      } else {
        InString(body[1..], quote, s);
      }
      assert [body[0]] + body[1..] == body;
    }
  }

  /** A quoted string stays in one selector, whatever it contains, and changes nothing behind it. */
  lemma QuotesHide(body: Text, quote: char, s: State)
    requires StringBody(body, quote) && (quote == '"' || quote == '\'') && Outside(s)
    ensures Split([quote] + body + [quote], s) == [[quote] + body + [quote]] && Run([quote] + body + [quote], s) == s
  {
    var inside := s.(quote := Some(quote));
    InString(body, quote, inside);
    SplitAppend(body, [quote], inside);
    RunAppend(body, [quote], inside);
    var rest := [quote][1..];
    assert rest == "" && [quote] + "" == [quote];
    assert Run([quote], inside) == s && Split([quote], inside) == Push(quote, Split("", s)) == [[quote]];
    var t := [quote] + body + [quote];
    assert t[0] == quote && t[1..] == body + [quote];
    assert Split(t, s) == Push(quote, Split(body + [quote], inside));
    assert [quote] + (body + [quote]) == t;
  }

  predicate NoQuotes(t: Text) { '"' !in t && '\'' !in t }

  /** Opening brackets less closing ones. */
  function Balance(t: Text): int {
    var opening: int, closing: int := multiset(t)['('] + multiset(t)['['], multiset(t)[')'] + multiset(t)[']'];
    opening - closing
  }

  lemma {:induction false} DepthIsBalance(t: Text, s: State)
    requires NoQuotes(t) && Outside(s)
    ensures Run(t, s) == s.(depth := s.depth + Balance(t))
    decreases |t|
  {
    if t != "" {
      DepthIsBalance(t[1..], Next(s, t[0]));
      assert t == [t[0]] + t[1..];
      assert multiset(t) == multiset([t[0]]) + multiset(t[1..]);
    }
  }

  /** Behind text without quotes a comma separates selectors exactly when all brackets before it are closed. */
  lemma CommasSeparate(a: Text, b: Text)
    requires NoQuotes(a)
    ensures Balance(a) == 0 ==> Split(a + "," + b, OUT) == Split(a, OUT) + Split(b, OUT)
    ensures Balance(a) != 0 ==> |Split(a + "," + b, OUT)| == |Split(a, OUT)| + |Split(b, OUT.(depth := Balance(a)))| - 1
  {
    DepthIsBalance(a, OUT);
    if Balance(a) == 0 {
      SplitAfterClosed(a, b);
    } else {
      var s := OUT.(depth := Balance(a));
      SplitAppend(a, "," + b, OUT);
      assert a + "," + b == a + ("," + b);
      assert ("," + b)[1..] == b && Next(s, ',') == s;
      assert Split("," + b, s) == Push(',', Split(b, s));
    }
  }

  /** Text without a comma is one selector, and a list is its selectors with commas between them. */
  lemma {:induction false} SplitIsLossless(t: Text, s: State)
    ensures Join(Split(t, s)) == t
    ensures ',' !in t ==> Split(t, s) == [t]
    decreases |t|
  {
    if t != "" {
      assert t == [t[0]] + t[1..];
      if SplitsAt(s, t[0]) {
        SplitIsLossless(t[1..], s);
        assert ([""] + Split(t[1..], s))[1..] == Split(t[1..], s);
      } else {
        var parts := Split(t[1..], Next(s, t[0]));
        SplitIsLossless(t[1..], Next(s, t[0]));
        assert Join(Push(t[0], parts)) == [t[0]] + Join(parts) by {
          if |parts| > 1 {
            assert [t[0]] + (parts[0] + "," + Join(parts[1..])) == ([t[0]] + parts[0]) + "," + Join(parts[1..]);
          }
        }
      }
    }
  }
}
