/**
  The stylesheet scanner of scripts/synara-ui/build-css.ts: it cuts a stylesheet into rule preludes and
  the text between them, and knows the scope of every rule.
*/
module CssScanner {
  import opened Basics

  type Text = seq<char>

  /** Where a rule sits: a place where selectors are new, the body of a style rule, or keyframes. */
  datatype Scope = Top | Style | Keyframes

  /** A rule prelude with its `{`, other text with the `}` or `;` that ends it, or the last text. */
  datatype Piece = Rule(prelude: Text, scope: Scope) | Other(text: Text, end: char) | Tail(text: Text)

  datatype Problem = UnclosedBlock

  // -------------------------------------------------------------------- characters

  /** White space as JavaScript trims it. */
  predicate IsSpace(c: char) {
    var n := c as int;
    || 9 <= n <= 13 || n == 32 || n == 0xA0 || n == 0x1680 || 0x2000 <= n <= 0x200A
    || n == 0x2028 || n == 0x2029 || n == 0x202F || n == 0x205F || n == 0x3000 || n == 0xFEFF
  }

  predicate IsWordChar(c: char) { 'a' <= c <= 'z' || 'A' <= c <= 'Z' || '0' <= c <= '9' || c == '_' }

  predicate IsStructural(c: char) { c == '{' || c == '}' || c == ';' }

  predicate IsQuote(c: char) { c == '"' || c == '\'' }

  function TrimStart(t: Text): Text {
    if t != "" && IsSpace(t[0]) then TrimStart(t[1..]) else t
  }

  /** `\b` after a match that ends in a word character. */
  predicate WordEnds(rest: Text) { rest == "" || !IsWordChar(rest[0]) }

  predicate StartsWithWord(t: Text, word: Text) { word <= t && WordEnds(t[|word|..]) }

  predicate IsKeyframes(t: Text) { StartsWithWord(t, "@keyframes") || StartsWithWord(t, "@-webkit-keyframes") }

  predicate IsAtRule(prelude: Text) { "@" <= TrimStart(prelude) }

  // --------------------------------------------------------------------- skipping

  /** Just past the first comment end at or after `i`. */
  function CommentEnd(t: Text, i: nat): (r: nat)
    ensures i <= |t| ==> i <= r <= |t|
    decreases |t| - i
  {
    if i + 1 >= |t| then |t|
    else if t[i] == '*' && t[i + 1] == '/' then i + 2
    else CommentEnd(t, i + 1)
  }

  /** Just past the closing quote at or after `i`; a backslash hides the next character. */
  function StringEnd(t: Text, i: nat, quote: char): (r: nat)
    ensures i <= |t| ==> i <= r <= |t|
    decreases |t| - i
  {
    if i >= |t| then |t|
    else if t[i] == '\\' then (if i + 2 <= |t| then StringEnd(t, i + 2, quote) else |t|)
    else if t[i] == quote then i + 1
    else StringEnd(t, i + 1, quote)
  }

  predicate StartsComment(t: Text, i: nat) { i + 1 < |t| && t[i] == '/' && t[i + 1] == '*' }

  predicate StartsString(t: Text, i: nat, scope: Scope) {
    i < |t| && IsQuote(t[i]) && scope.Style? && ':' in t[..i]
  }

  /** From `i`, the first structural character outside comments and declaration strings. */
  function Find(t: Text, i: nat, scope: Scope): (r: nat)
    requires i <= |t|
    ensures i <= r <= |t| && (r < |t| ==> IsStructural(t[r]))
    decreases |t| - i
  {
    if i == |t| then i
    else if StartsComment(t, i) then Find(t, AfterComment(t, i), scope)
    else if StartsString(t, i, scope) then Find(t, StringEnd(t, i + 1, t[i]), scope)
    else if IsStructural(t[i]) then i
    else Find(t, i + 1, scope)
  }

  function AfterComment(t: Text, i: nat): (r: nat)
    requires StartsComment(t, i)
    ensures i + 2 <= r <= |t|
  {
    CommentEnd(t, i + 2)
  }

  // ------------------------------------------------------------------------- scan

  function Last(scopes: seq<Scope>): Scope
    requires |scopes| > 0
  {
    scopes[|scopes| - 1]
  }

  /** The scope of a block: grouping at-rules keep the scope they are in. */
  function Inner(prelude: Text, scope: Scope): Scope {
    if IsAtRule(prelude) then (if IsKeyframes(TrimStart(prelude)) then Keyframes else scope) else Style
  }

  function Popped(scopes: seq<Scope>): (r: seq<Scope>)
    requires |scopes| > 0
    ensures |r| > 0
  {
    if |scopes| > 1 then scopes[..|scopes| - 1] else scopes
  }

  /** The pieces of a stylesheet from the start of a prelude. */
  function Scan(t: Text, scopes: seq<Scope>): (r: Result<seq<Piece>, Problem>)
    requires |scopes| > 0
    decreases |t|
  {
    var e := Find(t, 0, Last(scopes));
    if e == |t| then (if |scopes| > 1 then Failure(UnclosedBlock) else Success([Tail(t)]))
    else if t[e] == '{' then
      Prepend(Rule(t[..e], Last(scopes)), Scan(t[e + 1..], scopes + [Inner(t[..e], Last(scopes))]))
    else
      Prepend(Other(t[..e], t[e]), Scan(t[e + 1..], if t[e] == '}' then Popped(scopes) else scopes))
  }

  function Prepend(p: Piece, r: Result<seq<Piece>, Problem>): Result<seq<Piece>, Problem> {
    match r
    case Success(ps) => Success([p] + ps)
    case Failure(problem) => Failure(problem)
  }

  function TextOf(p: Piece): Text {
    match p
    case Rule(prelude, _) => prelude + "{"
    case Other(text, end) => text + [end]
    case Tail(text) => text
  }

  function Render(ps: seq<Piece>): Text {
    if ps == [] then "" else TextOf(ps[0]) + Render(ps[1..])
  }

  // ------------------------------------------------------- what the end depends on

  lemma {:induction false} SameCommentEnd(t: Text, u: Text, i: nat, e: nat)
    requires e < |t| && e < |u| && t[..e + 1] == u[..e + 1] && CommentEnd(t, i) <= e
    ensures CommentEnd(u, i) == CommentEnd(t, i)
    decreases |t| - i
  {
    if i + 1 < |t| {
      if i + 1 <= e {
        assert t[i] == t[..e + 1][i] && t[i + 1] == t[..e + 1][i + 1];
        assert u[i] == u[..e + 1][i] && u[i + 1] == u[..e + 1][i + 1];
      }
      if !(t[i] == '*' && t[i + 1] == '/') {
        SameCommentEnd(t, u, i + 1, e);
      }
    }
  }

  lemma {:induction false} SameStringEnd(t: Text, u: Text, i: nat, quote: char, e: nat)
    requires e < |t| && e < |u| && t[..e + 1] == u[..e + 1] && i <= |t| && StringEnd(t, i, quote) <= e
    ensures i <= |u| && StringEnd(u, i, quote) == StringEnd(t, i, quote)
    decreases |t| - i
  {
    if i < |t| {
      assert t[i] == t[..e + 1][i] && u[i] == u[..e + 1][i];
      if t[i] == '\\' {
        if i + 2 <= |t| { SameStringEnd(t, u, i + 2, quote, e); }
      } else if t[i] != quote {
        SameStringEnd(t, u, i + 1, quote, e);
      }
    }
  }

  /** Up to the end the two texts look the same. */
  lemma SameLook(t: Text, u: Text, i: nat, e: nat, scope: Scope)
    requires i <= e < |t| && e < |u| && t[..e + 1] == u[..e + 1] && IsStructural(t[e])
    ensures t[i] == u[i]
    ensures StartsComment(t, i) <==> StartsComment(u, i)
    ensures StartsString(t, i, scope) <==> StartsString(u, i, scope)
  {
    assert t[i] == t[..e + 1][i] && u[i] == u[..e + 1][i];
    assert t[..i] == t[..e + 1][..i] && u[..i] == u[..e + 1][..i];
    if i < e {
      assert t[i + 1] == t[..e + 1][i + 1] && u[i + 1] == u[..e + 1][i + 1];
    }
  }

  /** Where a piece ends depends only on the text up to there. */
  lemma {:induction false} SameEnd(t: Text, u: Text, i: nat, scope: Scope)
    requires i <= |t| && Find(t, i, scope) < |t|
    requires Find(t, i, scope) < |u| && t[..Find(t, i, scope) + 1] == u[..Find(t, i, scope) + 1]
    ensures Find(u, i, scope) == Find(t, i, scope)
    decreases |t| - i
  {
    var e := Find(t, i, scope);
    SameLook(t, u, i, e, scope);
    if StartsComment(t, i) {
      SameCommentEnd(t, u, i + 2, e);
      SameEnd(t, u, AfterComment(t, i), scope);
    } else if StartsString(t, i, scope) {
      SameStringEnd(t, u, i + 1, t[i], e);
      SameEnd(t, u, StringEnd(t, i + 1, t[i]), scope);
    } else if !IsStructural(t[i]) {
      SameEnd(t, u, i + 1, scope);
    }
  }

  predicate NoComment(t: Text) {
    forall i | 0 <= i < |t| :: !StartsComment(t, i)
  }

  /** Text without structural characters and comments. */
  predicate Plain(t: Text) {
    (forall i | 0 <= i < |t| :: !IsStructural(t[i])) && NoComment(t)
  }

  /** A prelude of the top scope without a comment is plain: nothing else hides structural characters there. */
  lemma {:induction false} TopPreludeIsPlain(t: Text, i: nat)
    requires i <= |t| && Find(t, i, Top) < |t| && NoComment(t[..Find(t, i, Top)])
    ensures forall j :: i <= j < Find(t, i, Top) ==> !IsStructural(t[j])
    decreases |t| - i
  {
    var e := Find(t, i, Top);
    if i < e {
      assert !StartsComment(t[..e], i);
      assert t[..e][i] == t[i] && (i + 1 < e ==> t[..e][i + 1] == t[i + 1]);
      assert i + 1 == e ==> IsStructural(t[i + 1]);
      TopPreludeIsPlain(t, i + 1);
    }
  }

  /** In the top scope such text runs up to the `{` behind it: quotes mean nothing there. */
  lemma {:induction false} PlainRunsToBrace(p: Text, rest: Text, i: nat)
    requires Plain(p) && i <= |p|
    ensures Find(p + "{" + rest, i, Top) == |p|
    decreases |p| - i
  {
    var t := p + "{" + rest;
    if i == |p| {
      assert t[i] == '{';
    } else {
      assert t[i] == p[i] && !StartsComment(p, i) && (i + 1 < |p| ==> t[i + 1] == p[i + 1]);
      assert i + 1 == |p| ==> t[i + 1] == '{';
      PlainRunsToBrace(p, rest, i + 1);
    }
  }

  // --------------------------------------------------------------------- rewriting

  /** The rules whose selectors are rewritten: style rules in the top scope. */
  predicate IsRewritten(p: Piece) { p.Rule? && p.scope.Top? && !IsAtRule(p.prelude) }

  function RewritePiece(p: Piece, rewrite: Text -> Text): Piece {
    if IsRewritten(p) then p.(prelude := rewrite(p.prelude)) else p
  }

  function RewriteAll(ps: seq<Piece>, rewrite: Text -> Text): (r: seq<Piece>)
    ensures |r| == |ps| && forall i :: 0 <= i < |ps| ==> r[i] == RewritePiece(ps[i], rewrite)
  {
    seq(|ps|, i requires 0 <= i < |ps| => RewritePiece(ps[i], rewrite))
  }

  /** A rewriting of preludes that the scanner will see in the same way. */
  ghost predicate KeepsStructure(rewrite: Text -> Text) {
    forall p :: Plain(p) && !IsAtRule(p) ==> Plain(rewrite(p)) && !IsAtRule(rewrite(p))
  }

  /** No comment stands in a prelude that is rewritten. */
  predicate CommentFree(ps: seq<Piece>) {
    forall p | p in ps :: IsRewritten(p) ==> NoComment(p.prelude)
  }

  lemma RenderCons(p: Piece, ps: seq<Piece>)
    ensures Render([p] + ps) == TextOf(p) + Render(ps)
  {
    assert ([p] + ps)[1..] == ps;
  }

  lemma RewriteCons(p: Piece, ps: seq<Piece>, rewrite: Text -> Text)
    ensures RewriteAll([p] + ps, rewrite) == [RewritePiece(p, rewrite)] + RewriteAll(ps, rewrite)
  {
  }

  function After(t: Text, e: nat, scopes: seq<Scope>): (r: seq<Scope>)
    requires e < |t| && |scopes| > 0
    ensures |r| > 0
  {
    if t[e] == '{' then scopes + [Inner(t[..e], Last(scopes))] else if t[e] == '}' then Popped(scopes) else scopes
  }

  function PieceAt(t: Text, e: nat, scopes: seq<Scope>): Piece
    requires e < |t| && |scopes| > 0
  {
    if t[e] == '{' then Rule(t[..e], Last(scopes)) else Other(t[..e], t[e])
  }

  lemma ScanStep(t: Text, scopes: seq<Scope>)
    requires |scopes| > 0 && Find(t, 0, Last(scopes)) < |t|
    ensures var e := Find(t, 0, Last(scopes));
            Scan(t, scopes) == Prepend(PieceAt(t, e, scopes), Scan(t[e + 1..], After(t, e, scopes)))
  {
  }

  lemma ScanStepTo(t: Text, scopes: seq<Scope>, e: nat, rest: Text)
    requires |scopes| > 0 && e < |t| && Find(t, 0, Last(scopes)) == e && t[e + 1..] == rest
    ensures Scan(t, scopes) == Prepend(PieceAt(t, e, scopes), Scan(rest, After(t, e, scopes)))
  {
    ScanStep(t, scopes);
  }

  /** The pieces put together again are the stylesheet. */
  lemma {:induction false} RenderScan(t: Text, scopes: seq<Scope>)
    requires |scopes| > 0 && Scan(t, scopes).Success?
    ensures Render(Scan(t, scopes).value) == t
    decreases |t|
  {
    var e := Find(t, 0, Last(scopes));
    if e == |t| {
      RenderCons(Tail(t), []);
      assert t + "" == t;
    } else {
      var rest, inner := t[e + 1..], After(t, e, scopes);
      ScanStepTo(t, scopes, e, rest);
      RenderScan(rest, inner);
      RenderCons(PieceAt(t, e, scopes), Scan(rest, inner).value);
      PieceText(t, e, scopes);
    }
  }

  lemma PieceText(t: Text, e: nat, scopes: seq<Scope>)
    requires e < |t| && |scopes| > 0 && IsStructural(t[e])
    ensures TextOf(PieceAt(t, e, scopes)) + t[e + 1..] == t
  {
    assert t == t[..e] + [t[e]] + t[e + 1..];
  }

  /** The head piece of a rewritten stylesheet is found again, and leads to the same scopes. */
  lemma RewrittenHead(t: Text, scopes: seq<Scope>, rest: Text, rewrite: Text -> Text)
    requires |scopes| > 0 && KeepsStructure(rewrite)
    requires var e := Find(t, 0, Last(scopes)); e < |t| && (IsRewritten(PieceAt(t, e, scopes)) ==> NoComment(t[..e]))
    ensures var e := Find(t, 0, Last(scopes));
            var q := RewritePiece(PieceAt(t, e, scopes), rewrite);
            var u := TextOf(q) + rest;
            var f := Find(u, 0, Last(scopes));
            && f < |u| && u[f + 1..] == rest && PieceAt(u, f, scopes) == q && After(u, f, scopes) == After(t, e, scopes)
  {
    var e := Find(t, 0, Last(scopes));
    var p := PieceAt(t, e, scopes);
    if IsRewritten(p) {
      TopPreludeIsPlain(t, 0);
      var h := rewrite(t[..e]);
      PlainRunsToBrace(h, rest, 0);
      assert (h + "{" + rest)[..|h|] == h;
    } else {
      var u := TextOf(p) + rest;
      assert TextOf(p) == t[..e + 1];
      assert u[..e + 1] == t[..e + 1];
      SameEnd(t, u, 0, Last(scopes));
      assert u[..e] == u[..e + 1][..e] == t[..e];
      assert u[e] == u[..e + 1][e] == t[e];
    }
  }

  /**
    Scanning the rewritten stylesheet finds exactly the rewritten pieces: the same rules in the same
    scopes, with everything else untouched.
  */
  lemma {:induction false} RescanSeesTheSameStructure(t: Text, scopes: seq<Scope>, rewrite: Text -> Text)
    requires |scopes| > 0 && Scan(t, scopes).Success? && CommentFree(Scan(t, scopes).value) && KeepsStructure(rewrite)
    ensures var qs := RewriteAll(Scan(t, scopes).value, rewrite); Scan(Render(qs), scopes) == Success(qs)
    decreases |t|
  {
    var ps := Scan(t, scopes).value;
    var e := Find(t, 0, Last(scopes));
    if e == |t| {
      RenderCons(Tail(t), []);
      assert RewriteAll(ps, rewrite) == ps == [Tail(t)] + [];
      assert Render(ps) == t + "" == t;
    } else {
      ScanStep(t, scopes);
      var p, tail := PieceAt(t, e, scopes), Scan(t[e + 1..], After(t, e, scopes)).value;
      assert ps == [p] + tail;
      assert CommentFree(tail) by {
        assert forall x :: x in tail ==> x in ps;
      }
      RescanSeesTheSameStructure(t[e + 1..], After(t, e, scopes), rewrite);
      assert p in ps;
      var q, qs := RewritePiece(p, rewrite), RewriteAll(tail, rewrite);
      RewriteCons(p, tail, rewrite);
      RenderCons(q, qs);
      RewrittenHead(t, scopes, Render(qs), rewrite);
      ScanStep(TextOf(q) + Render(qs), scopes);
    }
  }
}
