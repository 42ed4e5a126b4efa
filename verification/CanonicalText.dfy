/** The canonical text character by character: literals, escapes, separators, and what is refused. */
module CanonicalText {
  import opened Basics
  import opened CanonicalJson

  // ----------------------------------------------------------------------- key order

  /** The first place where the texts differ decides, and a text comes before its continuations. */
  lemma {:induction false} KeysByCodeUnit(a: Text, b: Text)
    ensures Before(a, b) <==>
      exists i :: 0 <= i <= |a| && i < |b| && a[..i] == b[..i] && (i == |a| || a[i] < b[i])
  {
    if a != [] && b != [] && a[0] == b[0] {
      KeysByCodeUnit(a[1..], b[1..]);
      if Before(a, b) {
        var i :| 0 <= i <= |a| - 1 && i < |b| - 1 && a[1..][..i] == b[1..][..i] && (i == |a| - 1 || a[1..][i] < b[1..][i]);
        assert a[..i + 1] == [a[0]] + a[1..][..i] && b[..i + 1] == [b[0]] + b[1..][..i];
      }
      if i :| 0 <= i <= |a| && i < |b| && a[..i] == b[..i] && (i == |a| || a[i] < b[i]) {
        assert i > 0;
        assert a[1..][..i - 1] == a[..i][1..] && b[1..][..i - 1] == b[..i][1..];
      }
    } else if a != [] && b != [] {
      assert a[..0] == b[..0];
      forall i | 0 < i <= |a| && i < |b| ensures a[..i] != b[..i] {
        assert a[..i][0] != b[..i][0];
      }
    } else if b != [] {
      assert a[..0] == b[..0];
    }
  }

  // ------------------------------------------------------------------------- strings

  /** The value of a lower-case hexadecimal digit. */
  function Nibble(u: Unit): (r: Option<int>) {
    if 48 <= u <= 57 then Some(u - 48) else if 97 <= u <= 102 then Some(u - 87) else None
  }

  /** `\uXXXX` for this unit, in lower case. */
  predicate IsUnicodeEscape(t: Text, u: Unit) {
    && |t| == 6 && t[0] == 92 && t[1] == 117
    && (forall i | 2 <= i < 6 :: Nibble(t[i]).Some?)
    && Nibble(t[2]).value * 4096 + Nibble(t[3]).value * 256 + Nibble(t[4]).value * 16 + Nibble(t[5]).value == u
  }

  /** The seven short escapes. */
  lemma ShortEscapes()
    ensures Spells(EscapeUnit(34), "\\\"") && Spells(EscapeUnit(92), "\\\\")
    ensures Spells(EscapeUnit(8), "\\b") && Spells(EscapeUnit(9), "\\t") && Spells(EscapeUnit(10), "\\n")
    ensures Spells(EscapeUnit(12), "\\f") && Spells(EscapeUnit(13), "\\r")
  {
  }

  lemma DigitsAreNibbles(d: int)
    requires 0 <= d < 16
    ensures Nibble(HexDigit(d)) == Some(d)
  {
  }

  lemma EscapedByNumber(u: Unit)
    ensures IsUnicodeEscape(UnicodeEscape(u), u)
  {
    DigitsAreNibbles(u / 4096);
    DigitsAreNibbles(u / 256 % 16);
    DigitsAreNibbles(u / 16 % 16);
    DigitsAreNibbles(u % 16);
    assert u / 256 == u / 4096 * 16 + u / 256 % 16;
    assert u / 16 == u / 256 * 16 + u / 16 % 16;
    assert u == u / 16 * 16 + u % 16;
  }

  /** Other control characters and lone surrogates are escaped by number, and nothing else is escaped. */
  lemma OtherUnits(u: Unit)
    requires u != 34 && u != 92 && u != 8 && u != 9 && u != 10 && u != 12 && u != 13
    ensures if u < 32 || 0xD800 <= u <= 0xDFFF then IsUnicodeEscape(EscapeUnit(u), u) else EscapeUnit(u) == [u]
  {
    EscapedByNumber(u);
    assert EscapeUnit(u) == if u < 32 || 0xD800 <= u <= 0xDFFF then UnicodeEscape(u) else [u];
  }

  /** What stands between the quotation marks. */
  lemma QuotedBody(s: Text)
    ensures Quote(s) == [34] + QuoteBody(s) + [34] && Quote(s)[1..] == QuoteBody(s) + [34]
  {
  }

  lemma QuotedPair(s: Text)
    requires |s| > 1 && 0xD800 <= s[0] <= 0xDBFF && 0xDC00 <= s[1] <= 0xDFFF
    ensures Quote(s) == [34, s[0], s[1]] + Quote(s[2..])[1..]
  {
    QuotedBody(s);
    QuotedBody(s[2..]);
    assert QuoteBody(s) == [s[0], s[1]] + QuoteBody(s[2..]);
  }

  lemma QuotedUnit(s: Text)
    requires s != [] && !(0xD800 <= s[0] <= 0xDBFF && |s| > 1 && 0xDC00 <= s[1] <= 0xDFFF)
    ensures Quote(s) == [34] + EscapeUnit(s[0]) + Quote(s[1..])[1..]
  {
    UnitBody(s);
    QuotedBody(s);
    QuotedBody(s[1..]);
    Surrounded(EscapeUnit(s[0]), QuoteBody(s[1..]));
  }

  lemma UnitBody(s: Text)
    requires s != [] && !(0xD800 <= s[0] <= 0xDBFF && |s| > 1 && 0xDC00 <= s[1] <= 0xDFFF)
    ensures QuoteBody(s) == EscapeUnit(s[0]) + QuoteBody(s[1..])
  {
  }

  lemma Surrounded(e: Text, body: Text)
    ensures [34] + (e + body) + [34] == [34] + e + (body + [34])
  {
  }

  /** A string between quotation marks: surrogate pairs as they are, every other unit escaped. */
  lemma QuotedText(s: Text)
    ensures Quote([]) == [34, 34]
    ensures s != [] ==>
      if 0xD800 <= s[0] <= 0xDBFF && |s| > 1 && 0xDC00 <= s[1] <= 0xDFFF
      then Quote(s) == [34, s[0], s[1]] + Quote(s[2..])[1..]
      else Quote(s) == [34] + EscapeUnit(s[0]) + Quote(s[1..])[1..]
  {
    if s != [] {
      if 0xD800 <= s[0] <= 0xDBFF && |s| > 1 && 0xDC00 <= s[1] <= 0xDFFF {
        QuotedPair(s);
      } else {
        QuotedUnit(s);
      }
    }
  }

  // -------------------------------------------------------------------------- values

  lemma LiteralTexts()
    ensures Spells(Encode(Null), "null") && Spells(Encode(Bool(true)), "true") && Spells(Encode(Bool(false)), "false")
  {
  }

  /** Texts with a comma between each two. */
  function Joined(texts: seq<Text>): Text {
    if texts == [] then [] else if |texts| == 1 then texts[0] else texts[0] + [44] + Joined(texts[1..])
  }

  function ItemTexts(items: seq<Value>): seq<Text>
    requires forall x :: x in items ==> Supported(x)
  {
    seq(|items|, i requires 0 <= i < |items| => Encode(items[i]))
  }

  /** A key, a colon, a value. */
  function FieldTexts(fields: seq<Field>): seq<Text>
    requires forall f :: f in fields ==> Supported(f.value)
  {
    seq(|fields|, i requires 0 <= i < |fields| => Quote(fields[i].key) + [58] + Encode(fields[i].value))
  }

  lemma {:induction false} ItemsJoined(v: Value, items: seq<Value>)
    requires v.Array? && Supported(v) && forall x :: x in items ==> x in v.items
    ensures EncodeItems(v, items) == Joined(ItemTexts(items))
  {
    if items != [] {
      assert items[0] in v.items;
      ItemsJoined(v, items[1..]);
      assert ItemTexts(items)[1..] == ItemTexts(items[1..]);
    }
  }

  lemma {:induction false} FieldsJoined(v: Value, fields: seq<Field>)
    requires v.Object? && Supported(v) && forall f :: f in fields ==> f in v.fields
    ensures EncodeFields(v, fields) == Joined(FieldTexts(fields))
  {
    if fields != [] {
      assert fields[0] in v.fields;
      FieldsJoined(v, fields[1..]);
      assert FieldTexts(fields)[1..] == FieldTexts(fields[1..]);
    }
  }

  /** Brackets, commas, and no white space. */
  lemma ArrayText(items: seq<Value>)
    requires Supported(Array(items))
    ensures Encode(Array(items)) == [91] + Joined(ItemTexts(items)) + [93]
  {
    ItemsJoined(Array(items), items);
  }

  /** Braces, keys in ascending order, colons, commas, and no white space. */
  lemma ObjectText(fields: seq<Field>)
    requires Supported(Object(fields))
    ensures Encode(Object(fields)) == [123] + Joined(FieldTexts(SortFields(fields))) + [125]
  {
    FieldsJoined(Object(fields), SortFields(fields));
  }

  // ------------------------------------------------------------------- what is refused

  /** The value itself, or a value in it at any depth. */
  ghost predicate Inside(x: Value, v: Value) {
    x == v ||
    match v
    case Array(items) => exists y :: y in items && Inside(x, y)
    case Object(fields) => exists f :: f in fields && Inside(x, f.value)
    case _ => false
  }

  predicate IsRefused(x: Value) { x.NotFinite? || x.Undefined? || x.Unsupported? }

  /** A value is canonicalized exactly when nothing in it, at any depth, is refused. */
  lemma {:induction false} RefusedExactly(v: Value)
    ensures Supported(v) <==> forall x :: Inside(x, v) ==> !IsRefused(x)
    ensures Canonicalize(v).Success? <==> Supported(v)
    decreases v
  {
    assert Inside(v, v);
    match v {
      case Array(items) =>
        forall y | y in items ensures Supported(y) <==> forall x :: Inside(x, y) ==> !IsRefused(x) {
          RefusedExactly(y);
        }
        forall y, x | y in items && Inside(x, y) ensures Inside(x, v) {
        }
      case Object(fields) =>
        forall f | f in fields ensures Supported(f.value) <==> forall x :: Inside(x, f.value) ==> !IsRefused(x) {
          RefusedExactly(f.value);
        }
        forall f, x | f in fields && Inside(x, f.value) ensures Inside(x, v) {
        }
      case _ =>
    }
  }

  /** Property names are distinct in every object inside. */
  lemma {:induction false} WellFormedExactly(v: Value)
    ensures WellFormed(v) <==> forall x :: Inside(x, v) && x.Object? ==> DistinctKeys(x.fields)
    decreases v
  {
    assert Inside(v, v);
    match v {
      case Array(items) =>
        forall y | y in items ensures WellFormed(y) <==> forall x :: Inside(x, y) && x.Object? ==> DistinctKeys(x.fields) {
          WellFormedExactly(y);
        }
        forall y, x | y in items && Inside(x, y) ensures Inside(x, v) {
        }
      case Object(fields) =>
        forall f | f in fields ensures WellFormed(f.value) <==> forall x :: Inside(x, f.value) && x.Object? ==> DistinctKeys(x.fields) {
          WellFormedExactly(f.value);
        }
        forall f, x | f in fields && Inside(x, f.value) ensures Inside(x, v) {
        }
      case _ =>
    }
  }
}
