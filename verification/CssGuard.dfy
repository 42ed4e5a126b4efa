/**
  When the guard of scripts/synara-ui/build-css.ts is sound: it remembers the first selector it rejects
  and takes an empty one for none.
*/
module CssGuard {
  import opened Basics
  import opened CssScanner
  import opened CssSelectors
  import opened CssScope

  // ------------------------------------------------------------ any stylesheet

  predicate FirstIsEmpty(found: seq<Text>) { found != [] && found[0] == "" }

  predicate AllAccepted(parts: seq<Text>) {
    forall x | x in parts :: Accepted(Trim(x))
  }

  predicate HasBlank(parts: seq<Text>) {
    exists x | x in parts :: Blank(x)
  }

  /** The first selector that the guard does not accept is empty. */
  predicate EmptyFirst(parts: seq<Text>) {
    exists k | 0 <= k < |parts| :: Blank(parts[k]) && AllAccepted(parts[..k])
  }

  lemma BlankIsRejected(x: Text)
    requires Blank(x)
    ensures Trim(x) == "" && !Accepted(Trim(x))
  {
    BlankTrims(x);
  }

  /** What is rejected in a list of selectors, told from the selectors. */
  lemma {:induction false} RejectionsTold(parts: seq<Text>)
    ensures Rejections(parts) == [] <==> AllAccepted(parts)
    ensures FirstIsEmpty(Rejections(parts)) <==> EmptyFirst(parts)
  {
    if parts != [] {
      var rest := parts[1..];
      RejectionsTold(rest);
      BlankTrims(parts[0]);
      assert parts == [parts[0]] + rest;
      if Accepted(Trim(parts[0])) {
        EmptyFirstBehind(parts);
      } else {
        EmptyFirstHere(parts);
      }
    }
  }

  lemma EmptyFirstHere(parts: seq<Text>)
    requires parts != [] && !Accepted(Trim(parts[0]))
    ensures EmptyFirst(parts) <==> Blank(parts[0])
  {
    forall k | 0 < k < |parts| ensures !AllAccepted(parts[..k]) {
      assert parts[..k][0] == parts[0];
    }
    assert AllAccepted(parts[..0]);
  }

  lemma EmptyFirstBehind(parts: seq<Text>)
    requires parts != [] && Accepted(Trim(parts[0]))
    ensures EmptyFirst(parts) <==> EmptyFirst(parts[1..])
  {
    var rest := parts[1..];
    if EmptyFirst(parts) {
      var k :| 0 <= k < |parts| && Blank(parts[k]) && AllAccepted(parts[..k]);
      BlankIsRejected(parts[k]);
      assert rest[k - 1] == parts[k] && rest[..k - 1] == parts[..k][1..];
      assert AllAccepted(rest[..k - 1]);
    }
    if EmptyFirst(rest) {
      var k :| 0 <= k < |rest| && Blank(rest[k]) && AllAccepted(rest[..k]);
      assert parts[k + 1] == rest[k] && parts[..k + 1] == [parts[0]] + rest[..k];
      assert AllAccepted(parts[..k + 1]);
    }
  }

  /** The guard rejects nothing in this rule. */
  predicate Quiet(p: Piece) { IsGuarded(p) ==> AllAccepted(Split(p.prelude, OUT)) }

  /** The first selector that the guard rejects in this rule is empty. */
  predicate Hides(p: Piece) { IsGuarded(p) && EmptyFirst(Split(p.prelude, OUT)) }

  lemma PieceTold(p: Piece)
    ensures FoundIn(p) == [] <==> Quiet(p)
    ensures FirstIsEmpty(FoundIn(p)) <==> Hides(p)
  {
    if IsGuarded(p) {
      RejectionsTold(Split(p.prelude, OUT));
    }
  }

  predicate NothingLeaks(ps: seq<Piece>) {
    forall i | 0 <= i < |ps| :: Quiet(ps[i])
  }

  /** The first rule in which anything is rejected hides it, and with it all that follows. */
  predicate HidesAt(ps: seq<Piece>, i: nat)
    requires i < |ps|
  {
    Hides(ps[i]) && NothingLeaks(ps[..i])
  }

  predicate HiddenFirst(ps: seq<Piece>) {
    exists i | 0 <= i < |ps| :: HidesAt(ps, i)
  }

  lemma {:induction false} FoundTold(ps: seq<Piece>)
    ensures Found(ps) == [] <==> NothingLeaks(ps)
    ensures FirstIsEmpty(Found(ps)) <==> HiddenFirst(ps)
  {
    if ps != [] {
      FoundTold(ps[1..]);
      PieceTold(ps[0]);
      NothingLeaksCons(ps);
      HiddenFirstCons(ps);
    }
  }

  lemma NothingLeaksCons(ps: seq<Piece>)
    requires ps != []
    ensures NothingLeaks(ps) <==> Quiet(ps[0]) && NothingLeaks(ps[1..])
  {
    if Quiet(ps[0]) && NothingLeaks(ps[1..]) {
      forall i | 0 <= i < |ps| ensures Quiet(ps[i]) {
        if i > 0 {
          assert ps[i] == ps[1..][i - 1];
        }
      }
    }
  }

  lemma HidesAtCons(ps: seq<Piece>, i: nat)
    requires 0 < i < |ps|
    ensures HidesAt(ps, i) <==> Quiet(ps[0]) && HidesAt(ps[1..], i - 1)
  {
    NothingLeaksCons(ps[..i]);
    assert ps[..i][1..] == ps[1..][..i - 1] && ps[..i][0] == ps[0];
  }

  lemma HiddenFirstCons(ps: seq<Piece>)
    requires ps != []
    ensures HiddenFirst(ps) <==> Hides(ps[0]) || (Quiet(ps[0]) && HiddenFirst(ps[1..]))
  {
    if HiddenFirst(ps) {
      var i :| 0 <= i < |ps| && HidesAt(ps, i);
      if i > 0 {
        HidesAtCons(ps, i);
      }
    }
    if Hides(ps[0]) {
      assert HidesAt(ps, 0);
    }
    if Quiet(ps[0]) && HiddenFirst(ps[1..]) {
      var i :| 0 <= i < |ps[1..]| && HidesAt(ps[1..], i);
      HidesAtCons(ps, i + 1);
    }
  }

  /**
    The guard accepts a stylesheet if and only if nothing leaks, or the first selector that does is
    empty; so it misses leaks exactly in the second case.
  */
  lemma GuardAcceptsExactlyWhen(css: Text)
    requires Scan(css, [Top]).Success?
    ensures var ps := Scan(css, [Top]).value;
            && (GuardAccepts(css) <==> NothingLeaks(ps) || HiddenFirst(ps))
            && (GuardAccepts(css) && Found(ps) != [] <==> HiddenFirst(ps))
  {
    FoundTold(Scan(css, [Top]).value);
  }

  /** A stylesheet in which no rule that the guard looks at has an empty selector. */
  predicate NoEmptySelectors(ps: seq<Piece>) {
    forall p | p in ps :: IsGuarded(p) ==> !HasBlank(Split(p.prelude, OUT))
  }

  /** Without empty selectors the guard is sound and complete. */
  lemma WithoutEmptySelectorsTheGuardIsExact(css: Text)
    requires Scan(css, [Top]).Success? && NoEmptySelectors(Scan(css, [Top]).value)
    ensures GuardAccepts(css) <==> Found(Scan(css, [Top]).value) == []
  {
    var ps := Scan(css, [Top]).value;
    GuardAcceptsExactlyWhen(css);
    FoundTold(ps);
  }

  // -------------------------------------------------------- scoped stylesheets

  lemma RewrittenPiece(p: Piece)
    requires IsRewritten(p) ==> NoComment(p.prelude)
    ensures FoundIn(RewritePiece(p, Rewrite)) == LeaksIn(p)
  {
    if IsRewritten(p) {
      LeaksOfRewrite(p.prelude);
      RewriteIsNoAtRule(p.prelude);
    }
  }

  /** The first rule with a leak has an empty one first. */
  predicate LeaksHideAt(ps: seq<Piece>, i: nat)
    requires i < |ps|
  {
    FirstIsEmpty(LeaksIn(ps[i])) && forall j | 0 <= j < i :: LeaksIn(ps[j]) == []
  }

  /** Leaks of the output and of the input, rule by rule. */
  lemma RewrittenPieces(ps: seq<Piece>)
    requires CommentFree(ps)
    ensures var qs := RewriteAll(ps, Rewrite);
            forall i :: 0 <= i < |ps| ==>
              && FoundIn(qs[i]) == LeaksIn(ps[i])
              && (Quiet(qs[i]) <==> LeaksIn(ps[i]) == [])
              && (Hides(qs[i]) <==> FirstIsEmpty(LeaksIn(ps[i])))
  {
    var qs := RewriteAll(ps, Rewrite);
    forall i | 0 <= i < |ps|
      ensures FoundIn(qs[i]) == LeaksIn(ps[i]) && (Quiet(qs[i]) <==> LeaksIn(ps[i]) == [])
      ensures Hides(qs[i]) <==> FirstIsEmpty(LeaksIn(ps[i]))
    {
      assert ps[i] in ps;
      RewrittenPiece(ps[i]);
      PieceTold(qs[i]);
    }
  }

  lemma HidesAtTold(ps: seq<Piece>, i: nat)
    requires CommentFree(ps) && i < |ps|
    ensures HidesAt(RewriteAll(ps, Rewrite), i) <==> LeaksHideAt(ps, i)
  {
    var qs := RewriteAll(ps, Rewrite);
    RewrittenPieces(ps);
    assert forall j :: 0 <= j < i ==> qs[..i][j] == qs[j];
    if HidesAt(qs, i) {
      forall j | 0 <= j < i ensures LeaksIn(ps[j]) == [] {
        assert Quiet(qs[..i][j]);
      }
    }
  }

  /**
    The guard accepts a scoped stylesheet if and only if no rule of the input leaks, or the first that
    does has an empty leak first.
  */
  lemma ScopedIsAcceptedExactlyWhen(css: Text)
    requires Scan(css, [Top]).Success? && CommentFree(Scan(css, [Top]).value)
    ensures var ps := Scan(css, [Top]).value;
            && ScopedSheet(css).Success?
            && (GuardAccepts(ScopedSheet(css).value) <==>
                 (forall i | 0 <= i < |ps| :: LeaksIn(ps[i]) == []) || (exists i | 0 <= i < |ps| :: LeaksHideAt(ps, i)))
  {
    var ps := Scan(css, [Top]).value;
    var qs := RewriteAll(ps, Rewrite);
    GuardOfScoped(css);
    GuardAcceptsExactlyWhen(ScopedSheet(css).value);
    RewrittenPieces(ps);
    forall i | 0 <= i < |ps| ensures HidesAt(qs, i) <==> LeaksHideAt(ps, i) {
      HidesAtTold(ps, i);
    }
  }

  // ----------------------------------------- told from the selectors of the input

  lemma BlankIsScopedFromBlank()
    ensures forall p :: Blank(ScopeSelector(p)) ==> Blank(p)
  {
    forall p | !Blank(p) ensures !Blank(ScopeSelector(p)) {
      ScopedStart(p);
      assert ScopeSelector(p)[0] == '[';
    }
  }

  lemma {:induction false} KeptBlank(parts: seq<Text>)
    ensures HasBlank(Kept(parts)) <==> HasBlank(parts)
  {
    if parts != [] {
      var n := |parts| - 1;
      var before := Kept(parts[..n]);
      KeptBlank(parts[..n]);
      assert parts == parts[..n] + [parts[n]];
      if Blank(parts[n]) {
        ScopedStart(parts[n]);
        BlankIsScopedFromBlank();
        if ScopeSelector(parts[n]) in ScopeAll(before) {
          var i :| 0 <= i < |before| && ScopeAll(before)[i] == parts[n];
          assert before[i] in before && ScopeSelector(before[i]) == parts[n];
        } else {
          assert parts[n] in Kept(parts);
        }
      } else if HasBlank(Kept(parts)) {
        var x :| x in Kept(parts) && Blank(x);
        assert x in before;
      }
    }
  }

  lemma {:induction false} OwnAllTold(q: seq<Text>, u: Text)
    requires forall p :: p in q ==> IsRoot(Trim(p)) ==> Closed(AfterRoot(Trim(p)))
    ensures OwnAll(q, u) == [] <==> !HasBlank(q)
    ensures FirstIsEmpty(OwnAll(q, u)) <==> HasBlank(q)
  {
    if q != [] {
      BlankTrims(q[0]);
      assert q[0] in q;
      assert q == [q[0]] + q[1..];
      if |q| > 1 {
        OwnAllTold(q[1..], u);
      }
    }
  }

  lemma LeaksTold(prelude: Text)
    requires RootsClosed(prelude)
    ensures Leaks(prelude) == [] <==> !HasBlank(Split(TrimStart(prelude), OUT))
    ensures FirstIsEmpty(Leaks(prelude)) <==> HasBlank(Split(TrimStart(prelude), OUT))
  {
    var parts := Split(TrimStart(prelude), OUT);
    KeptBlank(parts);
    OwnAllTold(Kept(parts), " ");
  }

  /** Nothing in this rule of the input leaks once it is scoped. */
  predicate StaysQuiet(p: Piece) {
    if IsRewritten(p) then !HasBlank(Split(TrimStart(p.prelude), OUT)) else Quiet(p)
  }

  /** A top rule with an empty selector, or a nested one whose first selector that is not relative is empty. */
  predicate WillHide(p: Piece) {
    if IsRewritten(p) then HasBlank(Split(TrimStart(p.prelude), OUT)) else Hides(p)
  }

  predicate WillHideAt(ps: seq<Piece>, i: nat)
    requires i < |ps|
  {
    WillHide(ps[i]) && forall j | 0 <= j < i :: StaysQuiet(ps[j])
  }

  predicate AllRootsClosed(ps: seq<Piece>) {
    forall p | p in ps :: IsRewritten(p) ==> RootsClosed(p.prelude)
  }

  lemma InputTold(p: Piece)
    requires IsRewritten(p) ==> RootsClosed(p.prelude)
    ensures LeaksIn(p) == [] <==> StaysQuiet(p)
    ensures FirstIsEmpty(LeaksIn(p)) <==> WillHide(p)
  {
    if IsRewritten(p) {
      LeaksTold(p.prelude);
    } else {
      PieceTold(p);
    }
  }

  /** The same told from the selectors of the input, when its root selectors close their brackets and quotes. */
  lemma ScopedIsAcceptedBySelectors(css: Text)
    requires Scan(css, [Top]).Success? && CommentFree(Scan(css, [Top]).value) && AllRootsClosed(Scan(css, [Top]).value)
    ensures var ps := Scan(css, [Top]).value;
            && ScopedSheet(css).Success?
            && (GuardAccepts(ScopedSheet(css).value) <==>
                 (forall i | 0 <= i < |ps| :: StaysQuiet(ps[i])) || (exists i | 0 <= i < |ps| :: WillHideAt(ps, i)))
  {
    var ps := Scan(css, [Top]).value;
    ScopedIsAcceptedExactlyWhen(css);
    forall i | 0 <= i < |ps| ensures (LeaksIn(ps[i]) == [] <==> StaysQuiet(ps[i])) && (FirstIsEmpty(LeaksIn(ps[i])) <==> WillHide(ps[i])) {
      assert ps[i] in ps;
      InputTold(ps[i]);
    }
    forall i | 0 <= i < |ps| ensures LeaksHideAt(ps, i) <==> WillHideAt(ps, i) {
    }
  }

  predicate NoEmptyTopSelectors(ps: seq<Piece>) {
    forall p | p in ps :: IsRewritten(p) ==> !HasBlank(Split(TrimStart(p.prelude), OUT))
  }

  lemma NoneWillHide(ps: seq<Piece>)
    requires NoEmptySelectors(ps) && NoEmptyTopSelectors(ps)
    ensures forall i :: 0 <= i < |ps| ==> !WillHide(ps[i]) && (StaysQuiet(ps[i]) <==> IsRewritten(ps[i]) || Quiet(ps[i]))
  {
    forall i | 0 <= i < |ps| ensures !WillHide(ps[i]) && (StaysQuiet(ps[i]) <==> IsRewritten(ps[i]) || Quiet(ps[i])) {
      assert ps[i] in ps;
    }
  }

  /** Without empty selectors the guard accepts a scoped stylesheet if and only if no nested rule leaks. */
  lemma ScopedWithoutEmptySelectors(css: Text)
    requires Scan(css, [Top]).Success? && CommentFree(Scan(css, [Top]).value) && AllRootsClosed(Scan(css, [Top]).value)
    requires NoEmptySelectors(Scan(css, [Top]).value) && NoEmptyTopSelectors(Scan(css, [Top]).value)
    ensures var ps := Scan(css, [Top]).value;
            && ScopedSheet(css).Success?
            && (GuardAccepts(ScopedSheet(css).value) <==> forall i | 0 <= i < |ps| :: IsRewritten(ps[i]) || Quiet(ps[i]))
            && (GuardAccepts(ScopedSheet(css).value) <==> LeaksOf(ps) == [])
  {
    var ps := Scan(css, [Top]).value;
    NoneWillHide(ps);
    ScopedIsAcceptedBySelectors(css);
    assert !exists i | 0 <= i < |ps| :: WillHideAt(ps, i);
    LeaksOfTold(ps);
  }

  lemma {:induction false} LeaksOfTold(ps: seq<Piece>)
    requires AllRootsClosed(ps)
    ensures LeaksOf(ps) == [] <==> forall i | 0 <= i < |ps| :: StaysQuiet(ps[i])
  {
    if ps != [] {
      assert ps[0] in ps;
      InputTold(ps[0]);
      LeaksOfTold(ps[1..]);
      assert ps == [ps[0]] + ps[1..];
    }
  }
}
