/**
  Canonical JSON (apps/host/src/store.ts) and a JSON reader as in RFC 8259 sections 4, 5 and 7.
  Text is a sequence of UTF-16 code units, and numbers are integers.
*/
module CanonicalJson {
  import opened Basics

  type Unit = u: int | 0 <= u < 0x1_0000
  type Text = seq<Unit>

  /** A JavaScript value handed to the canonicalizer; the last three are refused wherever they occur. */
  datatype Value =
    | Null
    | Bool(b: bool)
    | Number(n: int)
    | String(s: Text)
    | Array(items: seq<Value>)
    | Object(fields: seq<Field>)
    | NotFinite
    | Undefined
    | Unsupported

  /** One own enumerable data property, in insertion order. */
  datatype Field = Field(key: Text, value: Value)

  const QUOTE: Unit := 34
  const COMMA: Unit := 44
  const MINUS: Unit := 45
  const COLON: Unit := 58
  const OPEN_BRACKET: Unit := 91
  const BACKSLASH: Unit := 92
  const CLOSE_BRACKET: Unit := 93
  const OPEN_BRACE: Unit := 123
  const CLOSE_BRACE: Unit := 125

  const NULL_TEXT: Text := [110, 117, 108, 108]
  const TRUE_TEXT: Text := [116, 114, 117, 101]
  const FALSE_TEXT: Text := [102, 97, 108, 115, 101]

  /** The text in code units of a string of ASCII characters. */
  predicate Spells(t: Text, s: string) {
    |t| == |s| && forall i | 0 <= i < |s| :: t[i] == s[i] as int
  }

  // ---------------------------------------------------------------- key order

  /** Code-unit order, the order of `Array.prototype.sort` on strings. */
  predicate Before(a: Text, b: Text) {
    b != [] && (a == [] || a[0] < b[0] || (a[0] == b[0] && Before(a[1..], b[1..])))
  }

  lemma {:induction false} BeforeIsStrict(a: Text, b: Text)
    ensures Before(a, b) ==> !Before(b, a) && a != b
    ensures Before(a, b) || Before(b, a) || a == b
  {
    if a != [] && b != [] && a[0] == b[0] {
      BeforeIsStrict(a[1..], b[1..]);
      assert a == [a[0]] + a[1..] && b == [b[0]] + b[1..];
    }
  }

  lemma {:induction false} BeforeIsTransitive(a: Text, b: Text, c: Text)
    requires Before(a, b) && Before(b, c)
    ensures Before(a, c)
  {
    if a != [] && a[0] == b[0] == c[0] {
      BeforeIsTransitive(a[1..], b[1..], c[1..]);
    }
  }

  predicate DistinctKeys(fields: seq<Field>) {
    forall i, j :: 0 <= i < j < |fields| ==> fields[i].key != fields[j].key
  }

  predicate SortedByKey(fields: seq<Field>) {
    forall i, j :: 0 <= i < j < |fields| ==> Before(fields[i].key, fields[j].key)
  }

  function KeysOf(fields: seq<Field>): set<Text> {
    set f | f in fields :: f.key
  }

  function Insert(f: Field, fields: seq<Field>): (r: seq<Field>)
    ensures forall g :: g in r <==> g == f || g in fields
    ensures |r| == |fields| + 1
  {
    if fields == [] then [f]
    else if Before(fields[0].key, f.key) then [fields[0]] + Insert(f, fields[1..])
    else [f] + fields
  }

  /** `keys.sort()`. */
  function SortFields(fields: seq<Field>): (r: seq<Field>)
    ensures forall g :: g in r <==> g in fields
    ensures |r| == |fields|
  {
    if fields == [] then [] else Insert(fields[0], SortFields(fields[1..]))
  }

  lemma {:induction false} InsertKeepsOrder(f: Field, fields: seq<Field>)
    requires SortedByKey(fields)
    requires forall g :: g in fields ==> g.key != f.key
    ensures SortedByKey(Insert(f, fields))
  {
    if fields == [] {
    } else if Before(fields[0].key, f.key) {
      InsertKeepsOrder(f, fields[1..]);
      var rest := Insert(f, fields[1..]);
      forall j | 0 <= j < |rest| ensures Before(fields[0].key, rest[j].key) {
        assert rest[j] in rest;
        if rest[j] != f {
          var k :| 0 <= k < |fields[1..]| && fields[1..][k] == rest[j];
          assert fields[k + 1] == rest[j];
        }
      }
    } else {
      forall j | 0 <= j < |fields| ensures Before(f.key, fields[j].key) {
        assert fields[0] in fields;
        BeforeIsStrict(f.key, fields[0].key);
        if j > 0 {
          BeforeIsTransitive(f.key, fields[0].key, fields[j].key);
        }
      }
    }
  }

  lemma {:induction false} SortFieldsSorts(fields: seq<Field>)
    requires DistinctKeys(fields)
    ensures SortedByKey(SortFields(fields))
  {
    if fields != [] {
      SortFieldsSorts(fields[1..]);
      InsertKeepsOrder(fields[0], SortFields(fields[1..]));
    }
  }

  /** A strictly sorted sequence of keys is determined by the set of its keys. */
  lemma {:induction false} SortedKeysAreUnique(a: seq<Field>, b: seq<Field>)
    requires SortedByKey(a) && SortedByKey(b)
    requires KeysOf(a) == KeysOf(b)
    ensures |a| == |b|
    ensures forall i :: 0 <= i < |a| ==> a[i].key == b[i].key
  {
    if a == [] {
      if b != [] { FirstKey(b); }
    } else {
      assert a[0].key in KeysOf(a);
      var j :| 0 <= j < |b| && b[j].key == a[0].key;
      assert b[0].key in KeysOf(b);
      var i :| 0 <= i < |a| && a[i].key == b[0].key;
      BeforeIsStrict(a[0].key, b[0].key);
      assert a[0].key == b[0].key;
      forall k ensures k in KeysOf(a[1..]) <==> k in KeysOf(b[1..]) {
        TailKeys(a, k);
        TailKeys(b, k);
      }
      SortedKeysAreUnique(a[1..], b[1..]);
    }
  }

  lemma FirstKey(a: seq<Field>)
    requires a != []
    ensures a[0].key in KeysOf(a)
  {
    assert a[0] in a;
  }

  lemma TailKeys(a: seq<Field>, k: Text)
    requires a != [] && SortedByKey(a)
    ensures k in KeysOf(a[1..]) <==> k in KeysOf(a) && k != a[0].key
  {
    if k in KeysOf(a[1..]) {
      var i :| 0 <= i < |a[1..]| && a[1..][i].key == k;
      assert a[i + 1] in a;
      BeforeIsStrict(a[0].key, a[i + 1].key);
    }
    if k in KeysOf(a) && k != a[0].key {
      var i :| 0 <= i < |a| && a[i].key == k;
      assert a[i] == a[1..][i - 1];
      assert a[i] in a[1..];
    }
  }

  // ------------------------------------------------------------- the data model

  /** Own property names of a JavaScript object are distinct, at every depth. */
  ghost predicate WellFormed(v: Value) {
    match v
    case Array(items) => forall x :: x in items ==> WellFormed(x)
    case Object(fields) => DistinctKeys(fields) && forall f :: f in fields ==> WellFormed(f.value)
    case _ => true
  }

  /** No value the canonicalizer refuses occurs at any depth. */
  predicate Supported(v: Value) {
    match v
    case NotFinite => false
    case Undefined => false
    case Unsupported => false
    case Array(items) => forall x | x in items :: Supported(x)
    case Object(fields) => forall f | f in fields :: Supported(f.value)
    case _ => true
  }

  /** Equality as JSON: arrays element by element, objects with the order of keys ignored. */
  ghost predicate JsonEqual(a: Value, b: Value)
    decreases a
  {
    match a
    case Array(xs) =>
      b.Array? && |xs| == |b.items| && forall i :: 0 <= i < |xs| ==> JsonEqual(xs[i], b.items[i])
    case Object(fs) =>
      && b.Object?
      && KeysOf(fs) == KeysOf(b.fields)
      && forall f, g :: f in fs && g in b.fields && f.key == g.key ==> JsonEqual(f.value, g.value)
    case _ => a == b
  }

  // ------------------------------------------------------------------ encoding

  predicate IsHigh(u: Unit) { 0xD800 <= u < 0xDC00 }
  predicate IsLow(u: Unit) { 0xDC00 <= u < 0xE000 }

  function HexDigit(d: int): (u: Unit)
    requires 0 <= d < 16
  {
    if d < 10 then 48 + d else 87 + d
  }

  function UnicodeEscape(u: Unit): Text {
    [BACKSLASH, 117, HexDigit(u / 4096), HexDigit(u / 256 % 16), HexDigit(u / 16 % 16), HexDigit(u % 16)]
  }

  /** One code unit inside a quoted string, when it does not start a surrogate pair. */
  function EscapeUnit(u: Unit): Text {
    if u == QUOTE || u == BACKSLASH then [BACKSLASH, u]
    else if u == 8 then [BACKSLASH, 98]
    else if u == 9 then [BACKSLASH, 116]
    else if u == 10 then [BACKSLASH, 110]
    else if u == 12 then [BACKSLASH, 102]
    else if u == 13 then [BACKSLASH, 114]
    else if u < 32 || IsHigh(u) || IsLow(u) then UnicodeEscape(u)
    else [u]
  }

  function QuoteBody(s: Text): Text {
    if s == [] then []
    else if IsHigh(s[0]) && |s| > 1 && IsLow(s[1]) then [s[0], s[1]] + QuoteBody(s[2..])
    else EscapeUnit(s[0]) + QuoteBody(s[1..])
  }

  /** `JSON.stringify` of a string. */
  function Quote(s: Text): Text {
    [QUOTE] + QuoteBody(s) + [QUOTE]
  }

  function Digits(n: nat): (t: Text)
    ensures t != []
  {
    if n < 10 then [48 + n] else Digits(n / 10) + [48 + n % 10]
  }

  function EncodeNumber(n: int): Text {
    if n < 0 then [MINUS] + Digits(-n) else Digits(n)
  }

  /** The inner `encode` of `canonicalizeJson`, on a value without refused parts. */
  function Encode(v: Value): Text
    requires Supported(v)
    decreases v
  {
    match v
    case Null => NULL_TEXT
    case Bool(b) => if b then TRUE_TEXT else FALSE_TEXT
    case Number(n) => EncodeNumber(n)
    case String(s) => Quote(s)
    case Array(items) => [OPEN_BRACKET] + EncodeItems(v, items) + [CLOSE_BRACKET]
    case Object(fields) => [OPEN_BRACE] + EncodeFields(v, SortFields(fields)) + [CLOSE_BRACE]
  }

  function EncodeItems(v: Value, items: seq<Value>): Text
    requires v.Array? && Supported(v) && forall x :: x in items ==> x in v.items
    decreases v, |items|
  {
    if items == [] then []
    else
      assert items[0] in v.items;
      if |items| == 1 then Encode(items[0])
      else Encode(items[0]) + [COMMA] + EncodeItems(v, items[1..])
  }

  function EncodeField(v: Value, f: Field): Text
    requires v.Object? && Supported(v) && f in v.fields
    decreases v, 0
  {
    Quote(f.key) + [COLON] + Encode(f.value)
  }

  function EncodeFields(v: Value, fields: seq<Field>): Text
    requires v.Object? && Supported(v) && forall f :: f in fields ==> f in v.fields
    decreases v, 1 + |fields|
  {
    if fields == [] then []
    else if |fields| == 1 then EncodeField(v, fields[0])
    else EncodeField(v, fields[0]) + [COMMA] + EncodeFields(v, fields[1..])
  }

  datatype Refusal = NotSerializable

  function Canonicalize(v: Value): Result<Text, Refusal> {
    if Supported(v) then Success(Encode(v)) else Failure(NotSerializable)
  }

  // ------------------------------------------------------------------- reading

  datatype Parsed<T> = Parsed(value: T, rest: Text) | Bad

  predicate IsSpace(u: Unit) { u == 32 || u == 9 || u == 10 || u == 13 }

  function SkipSpace(t: Text): (r: Text)
    ensures |r| <= |t|
  {
    if t != [] && IsSpace(t[0]) then SkipSpace(t[1..]) else t
  }

  function HexValue(u: Unit): (r: Option<int>)
    ensures r.Some? ==> 0 <= r.value < 16
  {
    if 48 <= u <= 57 then Some(u - 48)
    else if 97 <= u <= 102 then Some(u - 87)
    else if 65 <= u <= 70 then Some(u - 55)
    else None
  }

  /** The four hexadecimal digits after `\u`. */
  function ParseHex(t: Text): (r: Option<Unit>)
    requires |t| >= 4
  {
    var a, b, c, d := HexValue(t[0]), HexValue(t[1]), HexValue(t[2]), HexValue(t[3]);
    if a.Some? && b.Some? && c.Some? && d.Some?
    then Some(a.value * 4096 + b.value * 256 + c.value * 16 + d.value)
    else None
  }

  /** The single-character escapes of section 7. */
  function SimpleEscape(u: Unit): Option<Unit> {
    if u == QUOTE || u == BACKSLASH || u == 47 then Some(u)
    else if u == 98 then Some(8)
    else if u == 116 then Some(9)
    else if u == 110 then Some(10)
    else if u == 102 then Some(12)
    else if u == 114 then Some(13)
    else None
  }

  /** The characters of a string up to its closing quotation mark. */
  function ParseStringBody(t: Text): (r: Parsed<Text>)
    ensures r.Parsed? ==> |r.rest| < |t|
  {
    if t == [] || t[0] < 32 then Bad
    else if t[0] == QUOTE then Parsed([], t[1..])
    else if t[0] != BACKSLASH then
      match ParseStringBody(t[1..])
      case Parsed(s, rest) => Parsed([t[0]] + s, rest)
      case Bad => Bad
    else if |t| >= 6 && t[1] == 117 then
      match ParseHex(t[2..6])
      case None => Bad
      case Some(u) =>
        match ParseStringBody(t[6..])
        case Parsed(s, rest) => Parsed([u] + s, rest)
        case Bad => Bad
    else if |t| >= 2 && SimpleEscape(t[1]).Some? then
      match ParseStringBody(t[2..])
      case Parsed(s, rest) => Parsed([SimpleEscape(t[1]).value] + s, rest)
      case Bad => Bad
    else Bad
  }

  predicate IsDigit(u: Unit) { 48 <= u <= 57 }

  function DigitSpan(t: Text): (k: nat)
    ensures k <= |t| && forall i :: 0 <= i < k ==> IsDigit(t[i])
  {
    if t != [] && IsDigit(t[0]) then 1 + DigitSpan(t[1..]) else 0
  }

  function DigitsValue(t: Text): int {
    if t == [] then 0 else DigitsValue(t[..|t| - 1]) * 10 + (t[|t| - 1] as int - 48)
  }

  /** An integer: no leading zero, no sign other than a minus. */
  function ParseNumber(t: Text): (r: Parsed<Value>)
    ensures r.Parsed? ==> |r.rest| < |t|
  {
    var sign := t != [] && t[0] == MINUS;
    var body := if sign then t[1..] else t;
    var k := DigitSpan(body);
    if k == 0 || (k > 1 && body[0] == 48) then Bad
    else
      var n := DigitsValue(body[..k]);
      Parsed(Number(if sign then -n else n), body[k..])
  }

  function ParseValue(t0: Text): (r: Parsed<Value>)
    ensures r.Parsed? ==> |r.rest| < |t0|
    decreases |t0|, 1
  {
    var t := SkipSpace(t0);
    if t == [] then Bad
    else if NULL_TEXT <= t then Parsed(Null, t[4..])
    else if TRUE_TEXT <= t then Parsed(Bool(true), t[4..])
    else if FALSE_TEXT <= t then Parsed(Bool(false), t[5..])
    else if t[0] == QUOTE then
      match ParseStringBody(t[1..])
      case Parsed(s, rest) => Parsed(String(s), rest)
      case Bad => Bad
    else if t[0] == OPEN_BRACKET then
      var inner := SkipSpace(t[1..]);
      if inner != [] && inner[0] == CLOSE_BRACKET then Parsed(Array([]), inner[1..])
      else
        match ParseItems(t[1..])
        case Parsed(items, rest) => Parsed(Array(items), rest)
        case Bad => Bad
    else if t[0] == OPEN_BRACE then
      var inner := SkipSpace(t[1..]);
      if inner != [] && inner[0] == CLOSE_BRACE then Parsed(Object([]), inner[1..])
      else
        match ParseFields(t[1..])
        case Parsed(fields, rest) => Parsed(Object(fields), rest)
        case Bad => Bad
    else ParseNumber(t)
  }

  /** One or more elements and the closing bracket. */
  function ParseItems(t: Text): (r: Parsed<seq<Value>>)
    ensures r.Parsed? ==> |r.rest| < |t|
    decreases |t|, 2
  {
    match ParseValue(t)
    case Bad => Bad
    case Parsed(x, after) =>
      var next := SkipSpace(after);
      if next == [] then Bad
      else if next[0] == CLOSE_BRACKET then Parsed([x], next[1..])
      else if next[0] != COMMA then Bad
      else
        match ParseItems(next[1..])
        case Parsed(xs, rest) => Parsed([x] + xs, rest)
        case Bad => Bad
  }

  function ParseField(t0: Text): (r: Parsed<Field>)
    ensures r.Parsed? ==> |r.rest| < |t0|
    decreases |t0|, 2
  {
    var t := SkipSpace(t0);
    if t == [] || t[0] != QUOTE then Bad
    else
      match ParseStringBody(t[1..])
      case Bad => Bad
      case Parsed(key, after) =>
        var next := SkipSpace(after);
        if next == [] || next[0] != COLON then Bad
        else
          match ParseValue(next[1..])
          case Bad => Bad
          case Parsed(value, rest) => Parsed(Field(key, value), rest)
  }

  /** One or more members and the closing brace. */
  function ParseFields(t: Text): (r: Parsed<seq<Field>>)
    ensures r.Parsed? ==> |r.rest| < |t|
    decreases |t|, 3
  {
    match ParseField(t)
    case Bad => Bad
    case Parsed(f, after) =>
      var next := SkipSpace(after);
      if next == [] then Bad
      else if next[0] == CLOSE_BRACE then Parsed([f], next[1..])
      else if next[0] != COMMA then Bad
      else
        match ParseFields(next[1..])
        case Parsed(fs, rest) => Parsed([f] + fs, rest)
        case Bad => Bad
  }

  /** `JSON.parse`: a value with nothing but white space after it. */
  function ParseText(t: Text): Option<Value> {
    match ParseValue(t)
    case Parsed(v, rest) => if SkipSpace(rest) == [] then Some(v) else None
    case Bad => None
  }

  /** `parseJson`: what a stored column reads back as; anything the canonicalizer refuses is refused. */
  function ParseColumn(t: Text): Option<Value> {
    match ParseText(t)
    case Some(v) => if Supported(v) then Some(v) else None
    case None => None
  }

  // ----------------------------------------------------------- the normal form

  /** The same value with the keys of every object in code-unit order. */
  function Normalize(v: Value): Value
    decreases v
  {
    match v
    case Array(items) => Array(NormalizeItems(v, items))
    case Object(fields) => Object(NormalizeFields(v, SortFields(fields)))
    case _ => v
  }

  function NormalizeItems(v: Value, items: seq<Value>): (r: seq<Value>)
    requires v.Array? && forall x :: x in items ==> x in v.items
    ensures |r| == |items|
    decreases v, |items|
  {
    if items == [] then [] else
      assert items[0] in v.items;
      [Normalize(items[0])] + NormalizeItems(v, items[1..])
  }

  function NormalizeFields(v: Value, fields: seq<Field>): (r: seq<Field>)
    requires v.Object? && forall f :: f in fields ==> f in v.fields
    ensures |r| == |fields|
    decreases v, |fields|
  {
    if fields == [] then []
    else
      assert fields[0] in v.fields;
      [Field(fields[0].key, Normalize(fields[0].value))] + NormalizeFields(v, fields[1..])
  }
}
