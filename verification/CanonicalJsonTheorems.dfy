/**
  Canonical text and reading undo each other, so canonical texts coincide exactly for values that
  are equal as JSON; hence the command hash identifies (device, incarnation, kind, payload).
*/
module CanonicalJsonTheorems {
  import opened Basics
  import opened CanonicalJson

  // ------------------------------------------------------------------- strings

  lemma HexRoundTrip(u: Unit)
    ensures ParseHex(UnicodeEscape(u)[2..6]) == Some(u)
  {
    assert UnicodeEscape(u)[2..6] == [HexDigit(u / 4096), HexDigit(u / 256 % 16), HexDigit(u / 16 % 16), HexDigit(u % 16)];
    assert u / 256 == u / 4096 * 16 + u / 256 % 16;
    assert u / 16 == u / 256 * 16 + u / 16 % 16;
  }

  lemma EscapedUnitReadsBack(u: Unit, t: Text, s: Text, rest: Text)
    requires ParseStringBody(t) == Parsed(s, rest)
    ensures ParseStringBody(EscapeUnit(u) + t) == Parsed([u] + s, rest)
  {
    var e := EscapeUnit(u);
    if |e| == 6 {
      assert (e + t)[2..6] == e[2..6];
      HexRoundTrip(u);
      assert (e + t)[6..] == t;
    } else if |e| == 2 {
      assert (e + t)[2..] == t;
      assert SimpleEscape(e[1]) == Some(u);
    } else {
      assert (e + t)[1..] == t;
    }
  }

  lemma RawUnitReadsBack(u: Unit, t: Text, s: Text, rest: Text)
    requires u >= 32 && u != QUOTE && u != BACKSLASH
    requires ParseStringBody(t) == Parsed(s, rest)
    ensures ParseStringBody([u] + t) == Parsed([u] + s, rest)
  {
    assert ([u] + t)[1..] == t;
  }

  lemma {:induction false} StringReadsBack(s: Text, rest: Text)
    ensures ParseStringBody(QuoteBody(s) + [QUOTE] + rest) == Parsed(s, rest)
  {
    var t := QuoteBody(s) + [QUOTE] + rest;
    if s == [] {
      assert t == [QUOTE] + rest;
    } else if IsHigh(s[0]) && |s| > 1 && IsLow(s[1]) {
      var tail := QuoteBody(s[2..]) + [QUOTE] + rest;
      assert t == [s[0]] + ([s[1]] + tail) && s == [s[0]] + ([s[1]] + s[2..]) by {
        assert QuoteBody(s) == [s[0], s[1]] + QuoteBody(s[2..]);
      }
      StringReadsBack(s[2..], rest);
      RawUnitReadsBack(s[1], tail, s[2..], rest);
      RawUnitReadsBack(s[0], [s[1]] + tail, [s[1]] + s[2..], rest);
    } else {
      var tail := QuoteBody(s[1..]) + [QUOTE] + rest;
      assert t == EscapeUnit(s[0]) + tail && s == [s[0]] + s[1..] by {
        assert QuoteBody(s) == EscapeUnit(s[0]) + QuoteBody(s[1..]);
      }
      StringReadsBack(s[1..], rest);
      EscapedUnitReadsBack(s[0], tail, s[1..], rest);
    }
  }

  // ------------------------------------------------------------------- numbers

  lemma {:induction false} DigitsReadBack(n: nat)
    ensures forall i :: 0 <= i < |Digits(n)| ==> IsDigit(Digits(n)[i])
    ensures Digits(n)[0] == 48 ==> |Digits(n)| == 1
    ensures n > 0 ==> Digits(n)[0] != 48
    ensures DigitsValue(Digits(n)) == n
  {
    if n < 10 {
      assert Digits(n)[..0] == [];
    } else {
      DigitsReadBack(n / 10);
      assert Digits(n)[..|Digits(n)| - 1] == Digits(n / 10);
    }
  }

  lemma {:induction false} SpanStops(ds: Text, rest: Text)
    requires forall i :: 0 <= i < |ds| ==> IsDigit(ds[i])
    requires rest == [] || !IsDigit(rest[0])
    ensures DigitSpan(ds + rest) == |ds|
  {
    if ds == [] {
      assert ds + rest == rest;
    } else {
      assert (ds + rest)[1..] == ds[1..] + rest;
      SpanStops(ds[1..], rest);
    }
  }

  lemma DigitsParse(m: nat, rest: Text)
    requires rest == [] || !IsDigit(rest[0])
    ensures var t, k := Digits(m) + rest, |Digits(m)|;
            DigitSpan(t) == k && t[..k] == Digits(m) && t[k..] == rest && IsDigit(t[0]) && !(k > 1 && t[0] == 48)
  {
    DigitsReadBack(m);
    SpanStops(Digits(m), rest);
  }

  lemma NumberReadsBack(n: int, rest: Text)
    requires rest == [] || !IsDigit(rest[0])
    ensures ParseNumber(EncodeNumber(n) + rest) == Parsed(Number(n), rest)
  {
    if n < 0 {
      NegativeReadsBack(-n, rest);
    } else {
      PositiveReadsBack(n, rest);
    }
  }

  lemma NegativeReadsBack(m: nat, rest: Text)
    requires rest == [] || !IsDigit(rest[0])
    ensures ParseNumber([MINUS] + Digits(m) + rest) == Parsed(Number(0 - m as int), rest)
  {
    PositiveReadsBack(m, rest);
    FirstDigit(m, rest);
    SignedParse(Digits(m) + rest);
    Regroup([MINUS], Digits(m), rest);
  }

  lemma Regroup(a: Text, b: Text, c: Text)
    ensures a + b + c == a + (b + c)
  {
  }

  lemma FirstDigit(m: nat, rest: Text)
    requires rest == [] || !IsDigit(rest[0])
    ensures var t := Digits(m) + rest; t != [] && IsDigit(t[0])
  {
    DigitsParse(m, rest);
  }

  lemma SignedParse(t: Text)
    requires t != [] && IsDigit(t[0])
    ensures var r := ParseNumber(t);
            r.Parsed? ==> r.value.Number? && ParseNumber([MINUS] + t) == Parsed(Number(-r.value.n), r.rest)
  {
    assert ([MINUS] + t)[1..] == t;
  }

  lemma PositiveReadsBack(n: nat, rest: Text)
    requires rest == [] || !IsDigit(rest[0])
    ensures ParseNumber(Digits(n) + rest) == Parsed(Number(n), rest)
  {
    DigitsParse(n, rest);
    DigitsReadBack(n);
  }

  lemma ReadsAsNumber(t: Text)
    requires t != [] && (IsDigit(t[0]) || t[0] == MINUS)
    ensures ParseValue(t) == ParseNumber(t)
  {
    assert SkipSpace(t) == t;
  }

  // -------------------------------------------------------------------- values

  /** What follows a value inside a canonical text. */
  predicate Delimited(rest: Text) {
    rest == [] || rest[0] == COMMA || rest[0] == CLOSE_BRACKET || rest[0] == CLOSE_BRACE
  }

  lemma EncodingStarts(v: Value)
    requires Supported(v)
    ensures Encode(v) != []
    ensures !IsSpace(Encode(v)[0])
    ensures Encode(v)[0] != CLOSE_BRACKET && Encode(v)[0] != CLOSE_BRACE
    ensures v.Number? ==> IsDigit(Encode(v)[0]) || Encode(v)[0] == MINUS
  {
    match v
    case Number(n) => DigitsReadBack(if n < 0 then -n else n);
    case _ =>
  }

  lemma SkipsNothing(t: Text)
    requires t == [] || !IsSpace(t[0])
    ensures SkipSpace(t) == t
  {
  }

  lemma LiteralReadsBack(v: Value, rest: Text)
    requires v.Null? || v.Bool?
    ensures ParseValue(Encode(v) + rest) == Parsed(v, rest)
  {
    var t := Encode(v) + rest;
    SkipsNothing(t);
    assert t[|Encode(v)|..] == rest;
  }

  lemma ReadNumber(n: int, rest: Text)
    requires Delimited(rest)
    ensures ParseValue(EncodeNumber(n) + rest) == Parsed(Number(n), rest)
  {
    EncodingStarts(Number(n));
    var t := EncodeNumber(n) + rest;
    assert t[0] == Encode(Number(n))[0];
    ReadsAsNumber(t);
    NumberReadsBack(n, rest);
  }

  lemma ReadString(s: Text, rest: Text)
    ensures ParseValue(Quote(s) + rest) == Parsed(String(s), rest)
  {
    var t := Quote(s) + rest;
    SkipsNothing(t);
    assert t[1..] == QuoteBody(s) + [QUOTE] + rest;
    StringReadsBack(s, rest);
  }

  lemma ReadArray(inner: Text, items: seq<Value>, rest: Text)
    requires inner != [] && !IsSpace(inner[0]) && inner[0] != CLOSE_BRACKET
    requires ParseItems(inner) == Parsed(items, rest)
    ensures ParseValue([OPEN_BRACKET] + inner) == Parsed(Array(items), rest)
  {
    var t := [OPEN_BRACKET] + inner;
    SkipsNothing(t);
    assert t[1..] == inner;
    SkipsNothing(inner);
  }

  lemma ReadObject(inner: Text, fields: seq<Field>, rest: Text)
    requires inner != [] && !IsSpace(inner[0]) && inner[0] != CLOSE_BRACE
    requires ParseFields(inner) == Parsed(fields, rest)
    ensures ParseValue([OPEN_BRACE] + inner) == Parsed(Object(fields), rest)
  {
    var t := [OPEN_BRACE] + inner;
    SkipsNothing(t);
    assert t[1..] == inner;
    SkipsNothing(inner);
  }

  lemma ReadEmpty(rest: Text)
    ensures ParseValue([OPEN_BRACKET, CLOSE_BRACKET] + rest) == Parsed(Array([]), rest)
    ensures ParseValue([OPEN_BRACE, CLOSE_BRACE] + rest) == Parsed(Object([]), rest)
  {
    var t, u := [OPEN_BRACKET, CLOSE_BRACKET] + rest, [OPEN_BRACE, CLOSE_BRACE] + rest;
    SkipsNothing(t);
    SkipsNothing(u);
    assert t[1..] == [CLOSE_BRACKET] + rest && u[1..] == [CLOSE_BRACE] + rest;
    SkipsNothing(t[1..]);
    SkipsNothing(u[1..]);
    assert t[1..][1..] == rest && u[1..][1..] == rest;
  }

  lemma {:induction false} ValueReadsBack(v: Value, rest: Text)
    requires Supported(v) && Delimited(rest)
    ensures ParseValue(Encode(v) + rest) == Parsed(Normalize(v), rest)
    decreases v
  {
    match v {
      case Null => LiteralReadsBack(v, rest);
      case Bool(b) => LiteralReadsBack(v, rest);
      case Number(n) => ReadNumber(n, rest);
      case String(s) => ReadString(s, rest);
      case Array(items) => ArrayReadsBack(v, rest);
      case Object(fields) => ObjectReadsBack(v, rest);
    }
  }

  lemma ArrayReadsBack(v: Value, rest: Text)
    requires v.Array? && Supported(v)
    ensures ParseValue(Encode(v) + rest) == Parsed(Normalize(v), rest)
    decreases v, 1 + |v.items|
  {
    var items := v.items;
    if items == [] {
      ReadEmpty(rest);
      assert Encode(v) + rest == [OPEN_BRACKET, CLOSE_BRACKET] + rest;
    } else {
      var inner := EncodeItems(v, items) + [CLOSE_BRACKET] + rest;
      ItemsReadBack(v, items, rest);
      ItemsStart(v, items);
      assert Encode(v) + rest == [OPEN_BRACKET] + inner;
      ReadArray(inner, NormalizeItems(v, items), rest);
    }
  }

  lemma EmptyObjectReadsBack(v: Value, rest: Text)
    requires v == Object([])
    ensures ParseValue(Encode(v) + rest) == Parsed(v, rest)
  {
    ReadEmpty(rest);
    assert Encode(v) + rest == [OPEN_BRACE, CLOSE_BRACE] + rest;
  }

  lemma ObjectReadsBack(v: Value, rest: Text)
    requires v.Object? && Supported(v)
    ensures ParseValue(Encode(v) + rest) == Parsed(Normalize(v), rest)
    decreases v, 2 + |v.fields|
  {
    var sorted := SortFields(v.fields);
    if sorted == [] {
      EmptyObjectReadsBack(v, rest);
    } else {
      var body := EncodeFields(v, sorted);
      FieldsReadBack(v, sorted, rest);
      FieldsStart(v, sorted);
      BracedReadsBack(body, NormalizeFields(v, sorted), rest);
      assert Encode(v) == [OPEN_BRACE] + body + [CLOSE_BRACE];
    }
  }

  lemma BracedReadsBack(body: Text, fields: seq<Field>, rest: Text)
    requires body != [] && body[0] == QUOTE
    requires ParseFields(body + [CLOSE_BRACE] + rest) == Parsed(fields, rest)
    ensures ParseValue([OPEN_BRACE] + body + [CLOSE_BRACE] + rest) == Parsed(Object(fields), rest)
  {
    var inner := body + [CLOSE_BRACE] + rest;
    ReadObject(inner, fields, rest);
    assert [OPEN_BRACE] + body + [CLOSE_BRACE] + rest == [OPEN_BRACE] + inner;
  }

  lemma ItemsStart(v: Value, items: seq<Value>)
    requires v.Array? && Supported(v) && items != [] && forall x :: x in items ==> x in v.items
    ensures EncodeItems(v, items) != []
    ensures EncodeItems(v, items)[0] == Encode(items[0])[0]
    ensures !IsSpace(EncodeItems(v, items)[0]) && EncodeItems(v, items)[0] != CLOSE_BRACKET
  {
    EncodingStarts(items[0]);
  }

  lemma ReadLastItem(t: Text, x: Value, rest: Text)
    requires ParseValue(t) == Parsed(x, [CLOSE_BRACKET] + rest)
    ensures ParseItems(t) == Parsed([x], rest)
  {
    SkipsNothing([CLOSE_BRACKET] + rest);
  }

  lemma ReadAnotherItem(t: Text, x: Value, tail: Text, xs: seq<Value>, rest: Text)
    requires ParseValue(t) == Parsed(x, [COMMA] + tail)
    requires ParseItems(tail) == Parsed(xs, rest)
    ensures ParseItems(t) == Parsed([x] + xs, rest)
  {
    SkipsNothing([COMMA] + tail);
    assert ([COMMA] + tail)[1..] == tail;
  }

  lemma {:induction false} ItemsReadBack(v: Value, items: seq<Value>, rest: Text)
    requires v.Array? && Supported(v) && items != [] && forall x :: x in items ==> x in v.items
    ensures ParseItems(EncodeItems(v, items) + [CLOSE_BRACKET] + rest) == Parsed(NormalizeItems(v, items), rest)
    decreases v, |items|
  {
    var t := EncodeItems(v, items) + [CLOSE_BRACKET] + rest;
    assert items[0] in v.items;
    var x := Normalize(items[0]);
    if |items| == 1 {
      var after := [CLOSE_BRACKET] + rest;
      assert t == Encode(items[0]) + after;
      ValueReadsBack(items[0], after);
      ReadLastItem(t, x, rest);
      assert NormalizeItems(v, items) == [x];
    } else {
      var tail := EncodeItems(v, items[1..]) + [CLOSE_BRACKET] + rest;
      assert t == Encode(items[0]) + ([COMMA] + tail);
      ValueReadsBack(items[0], [COMMA] + tail);
      ItemsReadBack(v, items[1..], rest);
      ReadAnotherItem(t, x, tail, NormalizeItems(v, items[1..]), rest);
    }
  }

  lemma ReadField(key: Text, text: Text, value: Value, rest: Text)
    requires ParseValue(text) == Parsed(value, rest)
    ensures ParseField(Quote(key) + [COLON] + text) == Parsed(Field(key, value), rest)
  {
    var t := Quote(key) + [COLON] + text;
    var after := [COLON] + text;
    SkipsNothing(t);
    SkipsNothing(after);
    assert t[1..] == QuoteBody(key) + [QUOTE] + after;
    StringReadsBack(key, after);
    assert after[1..] == text;
  }

  lemma FieldReadsBack(v: Value, f: Field, rest: Text)
    requires v.Object? && Supported(v) && f in v.fields && Delimited(rest)
    ensures ParseField(EncodeField(v, f) + rest) == Parsed(Field(f.key, Normalize(f.value)), rest)
    decreases v, 0
  {
    var text := Encode(f.value) + rest;
    assert EncodeField(v, f) + rest == Quote(f.key) + [COLON] + text;
    ValueReadsBack(f.value, rest);
    ReadField(f.key, text, Normalize(f.value), rest);
  }

  lemma FieldsStart(v: Value, fields: seq<Field>)
    requires v.Object? && Supported(v) && fields != [] && forall f :: f in fields ==> f in v.fields
    ensures EncodeFields(v, fields) != [] && EncodeFields(v, fields)[0] == QUOTE
  {
  }

  lemma ReadLastField(t: Text, f: Field, rest: Text)
    requires ParseField(t) == Parsed(f, [CLOSE_BRACE] + rest)
    ensures ParseFields(t) == Parsed([f], rest)
  {
    SkipsNothing([CLOSE_BRACE] + rest);
  }

  lemma ReadAnotherField(t: Text, f: Field, tail: Text, fs: seq<Field>, rest: Text)
    requires ParseField(t) == Parsed(f, [COMMA] + tail)
    requires ParseFields(tail) == Parsed(fs, rest)
    ensures ParseFields(t) == Parsed([f] + fs, rest)
  {
    SkipsNothing([COMMA] + tail);
    assert ([COMMA] + tail)[1..] == tail;
  }

  lemma {:induction false} FieldsReadBack(v: Value, fields: seq<Field>, rest: Text)
    requires v.Object? && Supported(v) && fields != [] && forall f :: f in fields ==> f in v.fields
    ensures ParseFields(EncodeFields(v, fields) + [CLOSE_BRACE] + rest) == Parsed(NormalizeFields(v, fields), rest)
    decreases v, 1 + |fields|
  {
    var t := EncodeFields(v, fields) + [CLOSE_BRACE] + rest;
    assert fields[0] in v.fields;
    var f := Field(fields[0].key, Normalize(fields[0].value));
    if |fields| == 1 {
      var after := [CLOSE_BRACE] + rest;
      assert t == EncodeField(v, fields[0]) + after;
      FieldReadsBack(v, fields[0], after);
      ReadLastField(t, f, rest);
      assert NormalizeFields(v, fields) == [f];
    } else {
      var tail := EncodeFields(v, fields[1..]) + [CLOSE_BRACE] + rest;
      assert t == EncodeField(v, fields[0]) + ([COMMA] + tail);
      FieldReadsBack(v, fields[0], [COMMA] + tail);
      FieldsReadBack(v, fields[1..], rest);
      ReadAnotherField(t, f, tail, NormalizeFields(v, fields[1..]), rest);
    }
  }

  /** Reading a canonical text gives the value back with its keys in order. */
  lemma CanonicalTextReadsBack(v: Value)
    requires Supported(v)
    ensures ParseText(Encode(v)) == Some(Normalize(v))
  {
    ValueReadsBack(v, []);
    assert Encode(v) + [] == Encode(v);
  }

  // ------------------------------------------------------------------ equality

  lemma SortedFieldsAgree(fields: seq<Field>)
    ensures KeysOf(SortFields(fields)) == KeysOf(fields)
  {
    forall k ensures k in KeysOf(SortFields(fields)) <==> k in KeysOf(fields) {
      assert k in KeysOf(fields) <==> exists f :: f in fields && f.key == k;
      assert k in KeysOf(SortFields(fields)) <==> exists f :: f in SortFields(fields) && f.key == k;
    }
  }

  lemma {:induction false} NormalizedItem(v: Value, items: seq<Value>, i: nat)
    requires v.Array? && (forall x :: x in items ==> x in v.items) && i < |items|
    ensures NormalizeItems(v, items)[i] == Normalize(items[i])
  {
    if i > 0 { NormalizedItem(v, items[1..], i - 1); }
  }

  lemma {:induction false} NormalizedField(v: Value, fields: seq<Field>, i: nat)
    requires v.Object? && (forall f :: f in fields ==> f in v.fields) && i < |fields|
    ensures NormalizeFields(v, fields)[i] == Field(fields[i].key, Normalize(fields[i].value))
  {
    if i > 0 { NormalizedField(v, fields[1..], i - 1); }
  }

  /** Values with one normal form are equal as JSON. */
  lemma {:induction false} SameNormalForm(a: Value, b: Value)
    requires WellFormed(a) && WellFormed(b)
    requires Normalize(a) == Normalize(b)
    ensures JsonEqual(a, b)
    decreases a
  {
    match a {
      case Array(xs) =>
        forall i | 0 <= i < |xs| ensures JsonEqual(xs[i], b.items[i]) {
          NormalizedItem(a, xs, i);
          NormalizedItem(b, b.items, i);
          SameNormalForm(xs[i], b.items[i]);
        }
      case Object(fs) => SameNormalObject(a, b);
      case _ =>
    }
  }

  lemma SameNormalObject(a: Value, b: Value)
    requires a.Object? && b.Object? && WellFormed(a) && WellFormed(b)
    requires Normalize(a) == Normalize(b)
    ensures JsonEqual(a, b)
    decreases a, 0
  {
    var sa, sb := SortFields(a.fields), SortFields(b.fields);
    SortFieldsSorts(a.fields);
    SortFieldsSorts(b.fields);
    forall i | 0 <= i < |sa| ensures sa[i].key == sb[i].key && Normalize(sa[i].value) == Normalize(sb[i].value) {
      NormalizedField(a, sa, i);
      NormalizedField(b, sb, i);
    }
    SortedFieldsAgree(a.fields);
    SortedFieldsAgree(b.fields);
    SameKeySets(sa, sb);
    forall f, g | f in a.fields && g in b.fields && f.key == g.key ensures JsonEqual(f.value, g.value) {
      var i := SamePlace(sa, sb, f, g);
      SameNormalForm(f.value, g.value);
    }
  }

  lemma SameKeySets(sa: seq<Field>, sb: seq<Field>)
    requires |sa| == |sb| && forall i :: 0 <= i < |sa| ==> sa[i].key == sb[i].key
    ensures KeysOf(sa) == KeysOf(sb)
  {
    forall k ensures k in KeysOf(sa) <==> k in KeysOf(sb) {
      if k in KeysOf(sa) { var i :| 0 <= i < |sa| && sa[i].key == k; assert sb[i] in sb; }
      if k in KeysOf(sb) { var i :| 0 <= i < |sb| && sb[i].key == k; assert sa[i] in sa; }
    }
  }

  /** Members with one key stand at one index of two sorted sequences with the same keys. */
  lemma SamePlace(sa: seq<Field>, sb: seq<Field>, f: Field, g: Field) returns (i: nat)
    requires SortedByKey(sa) && |sa| == |sb| && forall i :: 0 <= i < |sa| ==> sa[i].key == sb[i].key
    requires f in sa && g in sb && f.key == g.key
    ensures i < |sa| && sa[i] == f && sb[i] == g
  {
    i :| 0 <= i < |sa| && sa[i] == f;
    var j :| 0 <= j < |sb| && sb[j] == g;
    if i != j {
      var p, q := if i < j then i else j, if i < j then j else i;
      assert Before(sa[p].key, sa[q].key);
      BeforeIsStrict(sa[p].key, sa[q].key);
    }
  }

  /** Values equal as JSON have one normal form. */
  lemma {:induction false} EqualNormalForms(a: Value, b: Value)
    requires WellFormed(a) && WellFormed(b)
    requires JsonEqual(a, b)
    ensures Normalize(a) == Normalize(b)
    decreases a
  {
    match a {
      case Array(xs) =>
        forall i | 0 <= i < |xs| ensures NormalizeItems(a, xs)[i] == NormalizeItems(b, b.items)[i] {
          NormalizedItem(a, xs, i);
          NormalizedItem(b, b.items, i);
          EqualNormalForms(xs[i], b.items[i]);
        }
      case Object(fs) => EqualNormalObjects(a, b);
      case _ =>
    }
  }

  lemma EqualNormalObjects(a: Value, b: Value)
    requires a.Object? && b.Object? && WellFormed(a) && WellFormed(b)
    requires JsonEqual(a, b)
    ensures Normalize(a) == Normalize(b)
    decreases a, 0
  {
    var sa, sb := SortFields(a.fields), SortFields(b.fields);
    SameSortedKeys(a, b);
    var na, nb := NormalizeFields(a, sa), NormalizeFields(b, sb);
    forall i | 0 <= i < |sa| ensures na[i] == nb[i] {
      assert sa[i] in a.fields && sb[i] in b.fields;
      EqualNormalForms(sa[i].value, sb[i].value);
      NormalizedField(a, sa, i);
      NormalizedField(b, sb, i);
    }
    assert na == nb;
  }

  lemma SameSortedKeys(a: Value, b: Value)
    requires a.Object? && b.Object? && WellFormed(a) && WellFormed(b)
    requires KeysOf(a.fields) == KeysOf(b.fields)
    ensures var sa, sb := SortFields(a.fields), SortFields(b.fields);
            |sa| == |sb| && forall i :: 0 <= i < |sa| ==> sa[i].key == sb[i].key
  {
    SortFieldsSorts(a.fields);
    SortFieldsSorts(b.fields);
    SortedFieldsAgree(a.fields);
    SortedFieldsAgree(b.fields);
    SortedKeysAreUnique(SortFields(a.fields), SortFields(b.fields));
  }

  /** A normal form keeps the meaning: it is well formed, supported and equal to the value as JSON. */
  lemma {:induction false} NormalizeIsIdempotent(v: Value)
    requires WellFormed(v)
    ensures Normalize(Normalize(v)) == Normalize(v)
    ensures WellFormed(Normalize(v))
    ensures Supported(v) ==> Supported(Normalize(v))
    decreases v
  {
    match v {
      case Array(items) =>
        var ns := NormalizeItems(v, items);
        forall i | 0 <= i < |items|
          ensures WellFormed(ns[i]) && Normalize(ns[i]) == ns[i] && (Supported(v) ==> Supported(ns[i]))
        {
          NormalizedItem(v, items, i);
          NormalizeIsIdempotent(items[i]);
        }
        forall i | 0 <= i < |items| ensures NormalizeItems(Array(ns), ns)[i] == ns[i] {
          NormalizedItem(Array(ns), ns, i);
        }
        assert NormalizeItems(Array(ns), ns) == ns;
      case Object(fields) => NormalObjectIsNormal(v);
      case _ =>
    }
  }

  lemma {:induction false} SortOfSorted(fields: seq<Field>)
    requires SortedByKey(fields)
    ensures SortFields(fields) == fields
  {
    if |fields| > 1 {
      SortOfSorted(fields[1..]);
      BeforeIsStrict(fields[0].key, fields[1].key);
    } else if |fields| == 1 {
      assert fields[1..] == [] && fields == [fields[0]];
    }
  }

  lemma NormalObjectIsNormal(v: Value)
    requires v.Object? && WellFormed(v)
    ensures Normalize(Normalize(v)) == Normalize(v)
    ensures WellFormed(Normalize(v))
    ensures Supported(v) ==> Supported(Normalize(v))
    decreases v, 0
  {
    var s := SortFields(v.fields);
    SortFieldsSorts(v.fields);
    var ns := NormalizeFields(v, s);
    forall i | 0 <= i < |s|
      ensures ns[i].key == s[i].key && WellFormed(ns[i].value) && Normalize(ns[i].value) == ns[i].value
      ensures Supported(v) ==> Supported(ns[i].value)
    {
      NormalizedField(v, s, i);
      assert s[i] in v.fields;
      NormalizeIsIdempotent(s[i].value);
    }
    forall i, j | 0 <= i < j < |ns| ensures Before(ns[i].key, ns[j].key) && ns[i].key != ns[j].key {
      BeforeIsStrict(s[i].key, s[j].key);
    }
    SortOfSorted(ns);
    forall i | 0 <= i < |ns| ensures NormalizeFields(Object(ns), ns)[i] == ns[i] {
      NormalizedField(Object(ns), ns, i);
    }
    assert NormalizeFields(Object(ns), ns) == ns;
  }

  lemma JsonEqualIsReflexive(v: Value)
    requires WellFormed(v)
    ensures JsonEqual(v, v)
  {
    SameNormalForm(v, v);
  }

  /** Two values have the same canonical text exactly when they are equal as JSON. */
  lemma CanonicalTextDecidesEquality(a: Value, b: Value)
    requires WellFormed(a) && WellFormed(b) && Supported(a) && Supported(b)
    ensures Encode(a) == Encode(b) <==> JsonEqual(a, b)
  {
    CanonicalTextReadsBack(a);
    CanonicalTextReadsBack(b);
    if Encode(a) == Encode(b) {
      SameNormalForm(a, b);
    }
    if JsonEqual(a, b) {
      EqualNormalForms(a, b);
      NormalTextIsCanonical(a);
      NormalTextIsCanonical(b);
    }
  }

  /** The canonical text of a value is the canonical text of its normal form. */
  lemma {:induction false} NormalTextIsCanonical(v: Value)
    requires WellFormed(v) && Supported(v)
    ensures Supported(Normalize(v)) && Encode(Normalize(v)) == Encode(v)
    decreases v
  {
    NormalizeIsIdempotent(v);
    match v {
      case Array(items) =>
        var ns := NormalizeItems(v, items);
        forall i | 0 <= i < |items| ensures ns[i] == Normalize(items[i]) { NormalizedItem(v, items, i); }
        NormalItemsText(v, items, Normalize(v), ns);
      case Object(fields) =>
        var s := SortFields(fields);
        SortFieldsSorts(fields);
        var ns := NormalizeFields(v, s);
        forall i | 0 <= i < |s| ensures ns[i] == Field(s[i].key, Normalize(s[i].value)) { NormalizedField(v, s, i); }
        SortOfSorted(ns);
        NormalFieldsText(v, s, Normalize(v), ns);
      case _ =>
    }
  }

  lemma {:induction false} NormalItemsText(v: Value, items: seq<Value>, n: Value, ns: seq<Value>)
    requires v.Array? && WellFormed(v) && Supported(v) && forall x :: x in items ==> x in v.items
    requires n.Array? && Supported(n) && forall x :: x in ns ==> x in n.items
    requires |items| == |ns| && forall i :: 0 <= i < |items| ==> ns[i] == Normalize(items[i])
    ensures EncodeItems(v, items) == EncodeItems(n, ns)
    decreases v, |items|
  {
    if items != [] {
      assert items[0] in v.items;
      NormalTextIsCanonical(items[0]);
      NormalItemsText(v, items[1..], n, ns[1..]);
    }
  }

  lemma {:induction false} NormalFieldsText(v: Value, fields: seq<Field>, n: Value, ns: seq<Field>)
    requires v.Object? && WellFormed(v) && Supported(v) && forall f :: f in fields ==> f in v.fields
    requires n.Object? && Supported(n) && forall f :: f in ns ==> f in n.fields
    requires |fields| == |ns|
    requires forall i :: 0 <= i < |fields| ==> ns[i] == Field(fields[i].key, Normalize(fields[i].value))
    ensures EncodeFields(v, fields) == EncodeFields(n, ns)
    decreases v, |fields|
  {
    if fields != [] {
      assert fields[0] in v.fields && ns[0] in n.fields;
      NormalTextIsCanonical(fields[0].value);
      assert EncodeField(v, fields[0]) == EncodeField(n, ns[0]);
      NormalFieldsText(v, fields[1..], n, ns[1..]);
    }
  }

  /** A stored column reads back as a value equal to the one stored, with the same canonical text. */
  lemma ColumnsReadBack(v: Value)
    requires WellFormed(v) && Supported(v)
    ensures var r := ParseColumn(Encode(v));
            r.Some? && WellFormed(r.value) && Supported(r.value) && JsonEqual(v, r.value) && Encode(r.value) == Encode(v)
  {
    CanonicalTextReadsBack(v);
    NormalizeIsIdempotent(v);
    SameNormalForm(v, Normalize(v));
    NormalTextIsCanonical(v);
  }
}
