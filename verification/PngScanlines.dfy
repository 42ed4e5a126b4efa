/**
  Reconstruction of PNG scanlines (scripts/png-pixel-probe.py) against the filters of RFC 2083,
  sections 6.2 to 6.6.
*/
module PngScanlines {
  import opened Basics

  type Byte = b: int | 0 <= b < 256

  type Row = seq<Byte>

  const NONE := 0
  const SUB := 1
  const UP := 2
  const AVERAGE := 3
  const PAETH := 4

  // --------------------------------------------------------- the filters of PNG

  function Distance(a: int, b: int): nat { if a < b then b - a else a - b }

  /** `PaethPredictor` of section 6.6. */
  function Paeth(a: Byte, b: Byte, c: Byte): Byte {
    var p := a + b - c;
    var pa, pb, pc := Distance(p, a), Distance(p, b), Distance(p, c);
    if pa <= pb && pa <= pc then a else if pb <= pc then b else c
  }

  /** The predictor is the neighbour nearest to `a + b - c`; ties go to left, then above, then upper left. */
  lemma PaethIsNearest(a: Byte, b: Byte, c: Byte, x: Byte)
    requires x == a || x == b || x == c
    ensures var p := a + b - c; Distance(p, Paeth(a, b, c)) <= Distance(p, x)
    ensures Paeth(a, b, c) != a ==> Distance(a + b - c, Paeth(a, b, c)) < Distance(a + b - c, a)
    ensures Paeth(a, b, c) != a && Paeth(a, b, c) != b ==> Distance(a + b - c, c) < Distance(a + b - c, b)
  {
  }

  /** What a filter predicts from the bytes to the left, above, and to the upper left. */
  function Predict(filter: int, a: Byte, b: Byte, c: Byte): Byte {
    if filter == SUB then a
    else if filter == UP then b
    else if filter == AVERAGE then (a + b) / 2
    else if filter == PAETH then Paeth(a, b, c)
    else 0
  }

  /** The corresponding byte of the pixel to the left. */
  function Left(row: Row, i: nat, bpp: nat): Byte
    requires i < |row|
  {
    if bpp > 0 && i >= bpp then row[i - bpp] else 0
  }

  function FilteredAt(filter: int, row: Row, previous: Row, bpp: nat, i: nat): Byte
    requires |row| == |previous| && i < |row|
  {
    (row[i] - Predict(filter, Left(row, i, bpp), previous[i], Left(previous, i, bpp))) % 256
  }

  /** A row as the encoder filters it. */
  function Filter(filter: int, row: Row, previous: Row, bpp: nat): (r: Row)
    requires |row| == |previous|
    ensures |r| == |row|
  {
    seq(|row|, i requires 0 <= i < |row| => FilteredAt(filter, row, previous, bpp, i))
  }

  /** The byte before this one in its row, or zero at the start. */
  function Before(row: Row, i: nat, bpp: nat): int
    requires i < |row|
  {
    if i < bpp || bpp == 0 then 0 else row[i - bpp]
  }

  /** The five filters of section 6: none, left, above, their mean, and the nearest neighbour. */
  lemma FilterTypes(row: Row, previous: Row, bpp: nat, i: nat)
    requires |row| == |previous| && i < |row|
    ensures Filter(0, row, previous, bpp)[i] == row[i]
    ensures Filter(1, row, previous, bpp)[i] == (row[i] - Before(row, i, bpp)) % 256
    ensures Filter(2, row, previous, bpp)[i] == (row[i] as int - previous[i] as int) % 256
    ensures Filter(3, row, previous, bpp)[i] == (row[i] - (Before(row, i, bpp) + previous[i]) / 2) % 256
    ensures Filter(4, row, previous, bpp)[i] == (row[i] - Paeth(Before(row, i, bpp), previous[i], Before(previous, i, bpp))) % 256
  {
  }

  /** No information is lost: a filtered row has only one original. */
  lemma FilterIsInjective(filter: int, x: Row, y: Row, previous: Row, bpp: nat)
    requires |x| == |y| == |previous| && bpp > 0
    requires Filter(filter, x, previous, bpp) == Filter(filter, y, previous, bpp)
    ensures x == y
  {
    forall i | 0 <= i < |x| ensures x[i] == y[i] {
      SameByte(filter, x, y, previous, bpp, i);
    }
  }

  lemma {:induction false} SameByte(filter: int, x: Row, y: Row, previous: Row, bpp: nat, i: nat)
    requires |x| == |y| == |previous| && bpp > 0 && i < |x|
    requires Filter(filter, x, previous, bpp) == Filter(filter, y, previous, bpp)
    ensures x[i] == y[i]
    decreases i
  {
    if i >= bpp {
      SameByte(filter, x, y, previous, bpp, i - bpp);
    }
    assert Filter(filter, x, previous, bpp)[i] == Filter(filter, y, previous, bpp)[i];
    assert FilteredAt(filter, x, previous, bpp, i) == FilteredAt(filter, y, previous, bpp, i);
  }

  // ---------------------------------------------------------------- whole images

  function Zeros(n: nat): (r: Row)
    ensures |r| == n
  {
    seq(n, i => 0)
  }

  predicate IsImage(rows: seq<Row>, stride: nat) {
    forall i :: 0 <= i < |rows| ==> |rows[i]| == stride
  }

  predicate AreFilters(filters: seq<Byte>) {
    forall i :: 0 <= i < |filters| ==> filters[i] <= 4
  }

  /** The row above, which is all zeros above the first. */
  function Above(rows: seq<Row>, i: nat, stride: nat): (r: Row)
    requires i <= |rows| && IsImage(rows, stride)
    ensures |r| == stride
  {
    if i == 0 then Zeros(stride) else rows[i - 1]
  }

  /** The uncompressed stream of the first `n` rows: for each row its filter and the filtered bytes. */
  function Stream(rows: seq<Row>, filters: seq<Byte>, stride: nat, bpp: nat, n: nat): seq<Byte>
    requires n <= |rows| == |filters| && IsImage(rows, stride)
  {
    if n == 0 then []
    else
      Stream(rows, filters, stride, bpp, n - 1) + FilteredRow(filters[n - 1], rows[n - 1], Above(rows, n - 1, stride), bpp)
  }

  /** A row in the stream: the filter byte and the filtered bytes. */
  function FilteredRow(filter: Byte, row: Row, above: Row, bpp: nat): (s: seq<Byte>)
    requires |row| == |above|
    ensures |s| == |row| + 1 && s[0] == filter && s[1..] == Filter(filter, row, above, bpp)
  {
    [filter] + Filter(filter, row, above, bpp)
  }

  function Flatten(rows: seq<Row>, stride: nat, n: nat): seq<Byte>
    requires n <= |rows| && IsImage(rows, stride)
  {
    if n == 0 then [] else Flatten(rows, stride, n - 1) + rows[n - 1]
  }

  lemma {:induction false} StreamLength(rows: seq<Row>, filters: seq<Byte>, stride: nat, bpp: nat, n: nat)
    requires n <= |rows| == |filters| && IsImage(rows, stride)
    ensures |Stream(rows, filters, stride, bpp, n)| == n * (stride + 1)
    ensures |Flatten(rows, stride, n)| == n * stride
  {
    if n > 0 {
      StreamLength(rows, filters, stride, bpp, n - 1);
      OneMore(n - 1, stride);
      OneMore(n - 1, stride + 1);
    }
  }

  /** Row by row: the filter byte, then the row filtered against the one above, zeros above the first. */
  lemma StreamByRows(rows: seq<Row>, filters: seq<Byte>, stride: nat, bpp: nat, n: nat)
    requires n < |rows| == |filters| && IsImage(rows, stride)
    ensures Stream(rows, filters, stride, bpp, 0) == [] && Flatten(rows, stride, 0) == []
    ensures Stream(rows, filters, stride, bpp, n + 1) ==
      Stream(rows, filters, stride, bpp, n) + [filters[n]] + Filter(filters[n], rows[n], if n == 0 then seq(stride, _ => 0) else rows[n - 1], bpp)
    ensures Flatten(rows, stride, n + 1) == Flatten(rows, stride, n) + rows[n]
  {
  }

  lemma OneMore(n: nat, size: nat)
    ensures (n + 1) * size == n * size + size
  {
  }

  lemma SameAbove(x: seq<Row>, y: seq<Row>, stride: nat, n: nat)
    requires IsImage(x, stride) && IsImage(y, stride) && n <= |x| && n <= |y| && x[..n] == y[..n]
    ensures Above(x, n, stride) == Above(y, n, stride)
  {
    if n > 0 {
      assert x[..n][n - 1] == y[..n][n - 1];
    }
  }

  lemma SameTail(a: seq<Byte>, u: seq<Byte>, b: seq<Byte>, v: seq<Byte>)
    requires |a| == |b| && a + u == b + v
    ensures a == b && u == v
  {
    assert a == (a + u)[..|a|] && b == (b + v)[..|a|];
    assert u == (a + u)[|a|..] && v == (b + v)[|a|..];
  }

  /** Equal streams have equal last rows and equal streams before them. */
  lemma SameLastRow(x: seq<Row>, fx: seq<Byte>, y: seq<Row>, fy: seq<Byte>, stride: nat, bpp: nat, n: nat)
    requires n < |x| == |fx| && n < |y| == |fy| && IsImage(x, stride) && IsImage(y, stride)
    requires Stream(x, fx, stride, bpp, n + 1) == Stream(y, fy, stride, bpp, n + 1)
    ensures Stream(x, fx, stride, bpp, n) == Stream(y, fy, stride, bpp, n)
    ensures fx[n] == fy[n]
    ensures Filter(fx[n], x[n], Above(x, n, stride), bpp) == Filter(fy[n], y[n], Above(y, n, stride), bpp)
  {
    StreamLength(x, fx, stride, bpp, n);
    StreamLength(y, fy, stride, bpp, n);
    SameTail(Stream(x, fx, stride, bpp, n), FilteredRow(fx[n], x[n], Above(x, n, stride), bpp),
             Stream(y, fy, stride, bpp, n), FilteredRow(fy[n], y[n], Above(y, n, stride), bpp));
  }

  lemma TakeOneMore<T>(s: seq<T>, t: seq<T>, n: nat)
    requires n < |s| && n < |t| && s[..n] == t[..n] && s[n] == t[n]
    ensures s[..n + 1] == t[..n + 1]
  {
    assert s[..n + 1] == s[..n] + [s[n]] && t[..n + 1] == t[..n] + [t[n]];
  }

  /** A stream determines its rows and filters. */
  lemma {:induction false} StreamIsInjective(x: seq<Row>, fx: seq<Byte>, y: seq<Row>, fy: seq<Byte>, stride: nat, bpp: nat, n: nat)
    requires n <= |x| == |fx| && n <= |y| == |fy| && IsImage(x, stride) && IsImage(y, stride) && bpp > 0
    requires Stream(x, fx, stride, bpp, n) == Stream(y, fy, stride, bpp, n)
    ensures x[..n] == y[..n] && fx[..n] == fy[..n]
    decreases n
  {
    if n > 0 {
      var m: nat := n - 1;
      SameLastRow(x, fx, y, fy, stride, bpp, m);
      StreamIsInjective(x, fx, y, fy, stride, bpp, m);
      SameAbove(x, y, stride, m);
      FilterIsInjective(fx[m], x[m], y[m], Above(x, m, stride), bpp);
      TakeOneMore(x, y, m);
      TakeOneMore(fx, fy, m);
    }
  }

  // -------------------------------------------------------------- reconstruction

  datatype Problem = UnknownFilter(row: nat, filter: Byte) | Truncated

  /** Addition of bytes, as `& 0xFF` does it. */
  function Sum(x: Byte, y: Byte): (z: Byte)
    ensures (z - y) % 256 == x
  {
    (x + y) % 256
  }

  /** The first `i` bytes of the line are original again, the others still filtered. */
  ghost predicate Undone(filter: int, line: Row, previous: Row, bpp: nat, given: Row, i: nat) {
    && |line| == |previous| == |given| && i <= |line|
    && (forall k :: 0 <= k < i ==> FilteredAt(filter, line, previous, bpp, k) == given[k])
    && (forall k :: i <= k < |line| ==> line[k] == given[k])
  }

  lemma UndoOne(filter: int, line: Row, previous: Row, bpp: nat, given: Row, i: nat, predicted: Byte)
    requires Undone(filter, line, previous, bpp, given, i) && i < |line|
    requires predicted == Predict(filter, Left(line, i, bpp), previous[i], Left(previous, i, bpp))
    ensures Undone(filter, line[i := Sum(line[i], predicted)], previous, bpp, given, i + 1)
  {
    var next := line[i := Sum(line[i], predicted)];
    assert Left(next, i, bpp) == Left(line, i, bpp);
    forall k | 0 <= k < i ensures FilteredAt(filter, next, previous, bpp, k) == given[k] {
      assert FilteredAt(filter, line, previous, bpp, k) == given[k];
    }
  }

  lemma AllUndone(filter: int, line: Row, previous: Row, bpp: nat, given: Row)
    requires Undone(filter, line, previous, bpp, given, |line|)
    ensures Filter(filter, line, previous, bpp) == given
  {
  }

  method UndoSub(line: array<Byte>, previous: array<Byte>, bpp: nat)
    requires line != previous && line.Length == previous.Length && bpp > 0
    modifies line
    ensures Filter(SUB, line[..], previous[..], bpp) == old(line[..])
  {
    ghost var given := line[..];
    var i := if bpp < line.Length then bpp else line.Length;
    while i < line.Length
      invariant i >= bpp || i == line.Length
      invariant Undone(SUB, line[..], previous[..], bpp, given, i)
    {
      UndoOne(SUB, line[..], previous[..], bpp, given, i, line[i - bpp]);
      line[i] := Sum(line[i], line[i - bpp]);
      i := i + 1;
    }
    AllUndone(SUB, line[..], previous[..], bpp, given);
  }

  method UndoUp(line: array<Byte>, previous: array<Byte>, bpp: nat)
    requires line != previous && line.Length == previous.Length
    modifies line
    ensures Filter(UP, line[..], previous[..], bpp) == old(line[..])
  {
    ghost var given := line[..];
    for i := 0 to line.Length
      invariant Undone(UP, line[..], previous[..], bpp, given, i)
    {
      UndoOne(UP, line[..], previous[..], bpp, given, i, previous[i]);
      line[i] := Sum(line[i], previous[i]);
    }
    AllUndone(UP, line[..], previous[..], bpp, given);
  }

  method UndoAverage(line: array<Byte>, previous: array<Byte>, bpp: nat)
    requires line != previous && line.Length == previous.Length && bpp > 0
    modifies line
    ensures Filter(AVERAGE, line[..], previous[..], bpp) == old(line[..])
  {
    ghost var given := line[..];
    for i := 0 to line.Length
      invariant Undone(AVERAGE, line[..], previous[..], bpp, given, i)
    {
      var left: int := if i >= bpp then line[i - bpp] else 0;
      UndoOne(AVERAGE, line[..], previous[..], bpp, given, i, (left + previous[i]) / 2);
      line[i] := Sum(line[i], (left + previous[i]) / 2);
    }
    AllUndone(AVERAGE, line[..], previous[..], bpp, given);
  }

  method UndoPaeth(line: array<Byte>, previous: array<Byte>, bpp: nat)
    requires line != previous && line.Length == previous.Length && bpp > 0
    modifies line
    ensures Filter(PAETH, line[..], previous[..], bpp) == old(line[..])
  {
    ghost var given := line[..];
    for i := 0 to line.Length
      invariant Undone(PAETH, line[..], previous[..], bpp, given, i)
    {
      var left: int := if i >= bpp then line[i - bpp] else 0;
      var up: int := previous[i];
      var upleft: int := if i >= bpp then previous[i - bpp] else 0;
      var estimate := left + up - upleft;
      var pa, pb, pc := Distance(estimate, left), Distance(estimate, up), Distance(estimate, upleft);
      var predictor := if pa <= pb && pa <= pc then left else if pb <= pc then up else upleft;
      UndoOne(PAETH, line[..], previous[..], bpp, given, i, predictor);
      line[i] := Sum(line[i], predictor);
    }
    AllUndone(PAETH, line[..], previous[..], bpp, given);
  }

  /** One scanline in place: its bytes become the row whose filtering they were. */
  method Unfilter(filter: Byte, line: array<Byte>, previous: array<Byte>, bpp: nat)
    requires line != previous && line.Length == previous.Length && bpp > 0 && filter <= 4
    modifies line
    ensures Filter(filter, line[..], previous[..], bpp) == old(line[..])
  {
    if filter == SUB {
      UndoSub(line, previous, bpp);
    } else if filter == UP {
      UndoUp(line, previous, bpp);
    } else if filter == AVERAGE {
      UndoAverage(line, previous, bpp);
    } else if filter == PAETH {
      UndoPaeth(line, previous, bpp);
    } else {
      assert Filter(NONE, line[..], previous[..], bpp) == line[..];
    }
  }

  /** The line at this position of the stream, reconstructed. */
  method ReadLine(raw: seq<Byte>, position: nat, filter: Byte, previous: array<Byte>, bpp: nat) returns (line: array<Byte>)
    requires position + previous.Length <= |raw| && bpp > 0 && filter <= 4
    ensures fresh(line) && line.Length == previous.Length
    ensures Filter(filter, line[..], previous[..], bpp) == raw[position..position + previous.Length]
  {
    ghost var bytes := raw[position..position + previous.Length];
    line := new Byte[previous.Length](i requires 0 <= i && position + i < |raw| => raw[position + i]);
    assert line[..] == bytes;
    Unfilter(filter, line, previous, bpp);
  }

  /** The filter byte and the line at this position, or why the row cannot be read. */
  method ReadRow(raw: seq<Byte>, position: nat, row: nat, previous: array<Byte>, bpp: nat) returns (r: Result<array<Byte>, Problem>)
    requires position <= |raw| && bpp > 0
    ensures r.Failure? ==> Unreadable(raw[position..], previous.Length, row, r.error)
    ensures r.Success? ==>
      && position + 1 + previous.Length <= |raw| && raw[position] <= 4
      && fresh(r.value) && r.value.Length == previous.Length
      && Filter(raw[position], r.value[..], previous[..], bpp) == raw[position + 1..position + 1 + previous.Length]
  {
    if position >= |raw| { return Failure(Truncated); }
    var filter := raw[position];
    if filter > 4 { return Failure(UnknownFilter(row, filter)); }
    if position + 1 + previous.Length > |raw| { return Failure(Truncated); }
    var line := ReadLine(raw, position + 1, filter, previous, bpp);
    r := Success(line);
  }

  /** One turn of the scanline loop: the next row is read and put into the image. */
  method DecodeRow(raw: seq<Byte>, position: nat, row: nat, previous: array<Byte>, bpp: nat, decoded: array<Byte>, start: nat, ghost done: seq<Byte>)
    returns (r: Result<array<Byte>, Problem>)
    requires position <= |raw| && bpp > 0 && decoded != previous
    requires start + previous.Length <= decoded.Length && |done| == start && decoded[..start] == done
    modifies decoded
    ensures r.Failure? ==> Unreadable(raw[position..], previous.Length, row, r.error) && decoded[..start] == done
    ensures r.Success? ==>
      && position + 1 + previous.Length <= |raw| && raw[position] <= 4
      && fresh(r.value) && r.value.Length == previous.Length
      && Filter(raw[position], r.value[..], previous[..], bpp) == raw[position + 1..position + 1 + previous.Length]
      && decoded[..start + previous.Length] == done + r.value[..]
  {
    r := ReadRow(raw, position, row, previous, bpp);
    if r.Success? {
      PlaceRow(decoded, start, r.value, done);
    }
  }

  /** The rows whose filtered stream lies before this position, and their pixels. */
  ghost predicate ReadSoFar(raw: seq<Byte>, position: nat, rows: seq<Row>, filters: seq<Byte>, stride: nat, bpp: nat, done: seq<Byte>) {
    && |rows| == |filters| && IsImage(rows, stride) && AreFilters(filters) && position <= |raw|
    && Stream(rows, filters, stride, bpp, |rows|) == raw[..position]
    && done == Flatten(rows, stride, |rows|)
  }

  lemma RawFilteredRow(raw: seq<Byte>, position: nat, row: Row, above: Row, bpp: nat)
    requires |row| == |above| && position + 1 + |row| <= |raw|
    requires Filter(raw[position], row, above, bpp) == raw[position + 1..position + 1 + |row|]
    ensures raw[..position + 1 + |row|] == raw[..position] + FilteredRow(raw[position], row, above, bpp)
  {
    RawRow(raw, position, FilteredRow(raw[position], row, above, bpp));
  }

  lemma ImageOneMore(rows: seq<Row>, filters: seq<Byte>, stride: nat, row: Row, filter: Byte)
    requires IsImage(rows, stride) && AreFilters(filters) && |row| == stride && filter <= 4
    ensures IsImage(rows + [row], stride) && AreFilters(filters + [filter])
  {
  }

  lemma ReadOneMore(raw: seq<Byte>, position: nat, rows: seq<Row>, filters: seq<Byte>, stride: nat, bpp: nat, done: seq<Byte>, row: Row)
    requires ReadSoFar(raw, position, rows, filters, stride, bpp, done)
    requires position + 1 + stride <= |raw| && |row| == stride && raw[position] <= 4
    requires Filter(raw[position], row, Above(rows, |rows|, stride), bpp) == raw[position + 1..position + 1 + stride]
    ensures ReadSoFar(raw, position + 1 + stride, rows + [row], filters + [raw[position]], stride, bpp, done + row)
    ensures Above(rows + [row], |rows| + 1, stride) == row
  {
    var above := Above(rows, |rows|, stride);
    ImageOneMore(rows, filters, stride, row, raw[position]);
    StreamOneMore(rows, filters, stride, bpp, row, raw[position]);
    RawFilteredRow(raw, position, row, above, bpp);
    var n := |rows| + 1;
    assert |rows + [row]| == n == |filters + [raw[position]]|;
    assert Stream(rows + [row], filters + [raw[position]], stride, bpp, n) == raw[..position] + FilteredRow(raw[position], row, above, bpp);
  }

  /** Before the loop. */
  lemma NothingRead(raw: seq<Byte>, stride: nat, bpp: nat)
    ensures ReadSoFar(raw, 0, [], [], stride, bpp, []) && Above([], 0, stride) == Zeros(stride)
  {
  }

  /** After the loop, or where it stopped. */
  lemma ReadFits(raw: seq<Byte>, position: nat, rows: seq<Row>, filters: seq<Byte>, stride: nat, bpp: nat, done: seq<Byte>)
    requires ReadSoFar(raw, position, rows, filters, stride, bpp, done)
    ensures |done| == Offset(|rows|, stride) && Stream(rows, filters, stride, bpp, |rows|) <= raw
    ensures |Stream(rows, filters, stride, bpp, |rows|)| == position
  {
    FlattenLength(rows, stride, |rows|);
  }

  /** The bytes of the last line, without its filter byte, where the stream ends inside it. */
  method LastLine(raw: seq<Byte>, position: nat, decoded: array<Byte>, start: nat) returns (shorter: array<Byte>)
    requires position < |raw| && start <= decoded.Length
    ensures fresh(shorter) && shorter[..] == decoded[..start] + raw[position + 1..]
  {
    var line := raw[position + 1..];
    shorter := new Byte[start + |line|](i requires 0 <= i reads decoded =>
      if i < start && i < decoded.Length then decoded[i] else if 0 <= i - start < |line| then line[i - start] else 0);
    assert shorter[..start] == decoded[..start] && shorter[start..] == line;
    assert shorter[..] == shorter[..start] + shorter[start..];
  }

  /**
    The scanline loop.  The rows it decoded are those whose filtered stream it read; it stops early
    only at a byte that is no filter, or where the stream ends inside a row.  A last row that needs no
    byte beyond the end is taken as it is: the buffer then gets shorter, as a slice assignment makes it.
  */
  method ReadScanlines(raw: seq<Byte>, stride: nat, height: nat, bpp: nat)
    returns (r: Result<array<Byte>, Problem>, ghost rows: seq<Row>, ghost filters: seq<Byte>)
    requires bpp > 0
    ensures |rows| == |filters| <= height && IsImage(rows, stride) && AreFilters(filters)
    ensures Stream(rows, filters, stride, bpp, |rows|) <= raw
    ensures var rest := raw[|Stream(rows, filters, stride, bpp, |rows|)|..];
            && (r.Success? <==> |rows| == height || EndsShort(rest, stride, bpp, |rows|, height))
            && (r.Success? ==> r.value[..] == Flatten(rows, stride, |rows|) + if |rows| == height then [] else rest[1..])
            && (r.Failure? ==> Unreadable(rest, stride, |rows|, r.error))
    ensures r.Success? ==> fresh(r.value)
  {
    rows, filters := [], [];
    var size := RowStart(height, stride);
    var decoded := Blank(size);
    var previous := Blank(stride);
    NothingRead(raw, stride, bpp);
    var position: nat := 0;
    ghost var done: seq<Byte> := [];
    for row := 0 to height
      invariant |rows| == row && ReadSoFar(raw, position, rows, filters, stride, bpp, done)
      invariant fresh(previous) && previous != decoded && previous.Length == stride && previous[..] == Above(rows, row, stride)
      invariant |done| <= decoded.Length && decoded[..|done|] == done
    {
      var start := RowStart(row, stride);
      ReadFits(raw, position, rows, filters, stride, bpp, done);
      RowFits(row, height, stride);
      var read := DecodeRow(raw, position, row, previous, bpp, decoded, start, done);
      if read.Failure? {
        if EndsShort(raw[position..], stride, bpp, row, height) {
          var shorter := LastLine(raw, position, decoded, start);
          r := Success(shorter);
          ShortRest(raw, position);
          return;
        }
        r := Failure(read.error);
        return;
      }
      var line := read.value;
      ReadOneMore(raw, position, rows, filters, stride, bpp, done, line[..]);
      rows, filters, done := rows + [line[..]], filters + [raw[position]], done + line[..];
      position := position + 1 + stride;
      previous := line;
    }
    ReadFits(raw, position, rows, filters, stride, bpp, done);
    assert decoded[..] == done + [];
    r := Success(decoded);
  }

  lemma ShortRest(raw: seq<Byte>, position: nat)
    requires position < |raw|
    ensures raw[position..][1..] == raw[position + 1..]
  {
  }

  /** Why a row cannot be read here. */
  predicate Unreadable(rest: seq<Byte>, stride: nat, row: nat, problem: Problem) {
    if |rest| > 0 && rest[0] > 4 then problem == UnknownFilter(row, rest[0])
    else problem == Truncated && |rest| < stride + 1
  }

  /** The filters that look at no byte of a line, however long it is. */
  predicate LeavesLine(filter: Byte, stride: nat, bpp: nat) { filter == NONE || (filter == SUB && stride <= bpp) }

  /** The stream ends inside the last row, and nobody notices. */
  predicate EndsShort(rest: seq<Byte>, stride: nat, bpp: nat, row: nat, height: nat) {
    row + 1 == height && 0 < |rest| < stride + 1 && LeavesLine(rest[0], stride, bpp)
  }

  /** Where reading stops: at a byte above 4, or where fewer bytes are left than a filter byte and a row. */
  lemma StopsTold(rest: seq<Byte>, stride: nat, bpp: nat, row: nat, height: nat, problem: Problem)
    ensures Unreadable(rest, stride, row, problem) <==>
      if rest != [] && rest[0] > 4 then problem == UnknownFilter(row, rest[0]) else problem == Truncated && |rest| <= stride
    ensures EndsShort(rest, stride, bpp, row, height) <==>
      row == height - 1 && 0 < |rest| <= stride && (rest[0] == 0 || (rest[0] == 1 && stride <= bpp))
  {
  }

  /** Where a row starts in the image. */
  function Offset(row: nat, stride: nat): (r: nat)
    ensures r == row * stride
  {
    if row == 0 then 0
    else
      OneMore(row - 1, stride);
      Offset(row - 1, stride) + stride
  }

  lemma {:induction false} RowFits(row: nat, height: nat, stride: nat)
    requires row < height
    ensures Offset(row, stride) + stride == Offset(row + 1, stride) <= Offset(height, stride)
    decreases height - row
  {
    if row + 1 < height {
      RowFits(row + 1, height, stride);
    }
  }

  method RowStart(row: nat, stride: nat) returns (start: nat)
    ensures start == Offset(row, stride)
  {
    start := row * stride;
  }

  method Blank(length: nat) returns (bytes: array<Byte>)
    ensures fresh(bytes) && bytes[..] == Zeros(length)
  {
    bytes := new Byte[length](_ => 0);
  }

  lemma {:induction false} FlattenLength(rows: seq<Row>, stride: nat, n: nat)
    requires n <= |rows| && IsImage(rows, stride)
    ensures |Flatten(rows, stride, n)| == Offset(n, stride)
  {
    if n > 0 {
      FlattenLength(rows, stride, n - 1);
    }
  }

  /** The decoded line goes to its place in the image. */
  method PlaceRow(decoded: array<Byte>, start: nat, line: array<Byte>, ghost done: seq<Byte>)
    requires decoded != line && start + line.Length <= decoded.Length && |done| == start && decoded[..start] == done
    modifies decoded
    ensures decoded[..start + line.Length] == done + line[..]
  {
    CopyInto(decoded, start, line);
    assert decoded[..start + line.Length] == decoded[..start] + decoded[start..start + line.Length];
  }

  method CopyInto(decoded: array<Byte>, start: nat, line: array<Byte>)
    requires start + line.Length <= decoded.Length && decoded != line
    modifies decoded
    ensures decoded[..start] == old(decoded[..start])
    ensures decoded[start..start + line.Length] == line[..]
  {
    for i := 0 to line.Length
      invariant decoded[..start] == old(decoded[..start])
      invariant decoded[start..start + i] == line[..i]
    {
      decoded[start + i] := line[i];
    }
  }

  lemma {:induction false} StreamOfPrefix(rows: seq<Row>, filters: seq<Byte>, row: Row, filter: Byte, stride: nat, bpp: nat, n: nat)
    requires n <= |rows| == |filters| && IsImage(rows, stride) && |row| == stride
    ensures Stream(rows + [row], filters + [filter], stride, bpp, n) == Stream(rows, filters, stride, bpp, n)
    ensures Flatten(rows + [row], stride, n) == Flatten(rows, stride, n)
  {
    if n > 0 {
      StreamOfPrefix(rows, filters, row, filter, stride, bpp, n - 1);
    }
  }

  /** The stream and the pixels of one more row. */
  lemma StreamOneMore(rows: seq<Row>, filters: seq<Byte>, stride: nat, bpp: nat, row: Row, filter: Byte)
    requires |rows| == |filters| && IsImage(rows, stride) && |row| == stride
    ensures Stream(rows + [row], filters + [filter], stride, bpp, |rows| + 1)
         == Stream(rows, filters, stride, bpp, |rows|) + FilteredRow(filter, row, Above(rows, |rows|, stride), bpp)
    ensures Flatten(rows + [row], stride, |rows| + 1) == Flatten(rows, stride, |rows|) + row
  {
    StreamOfPrefix(rows, filters, row, filter, stride, bpp, |rows|);
    assert Above(rows + [row], |rows|, stride) == Above(rows, |rows|, stride);
  }

  lemma RawRow(raw: seq<Byte>, position: nat, row: seq<Byte>)
    requires position + |row| <= |raw| && |row| > 0
    requires raw[position] == row[0] && raw[position + 1..position + |row|] == row[1..]
    ensures raw[..position + |row|] == raw[..position] + row
  {
    assert row == [row[0]] + row[1..];
    assert raw[..position + |row|] == raw[..position] + ([raw[position]] + raw[position + 1..position + |row|]);
  }

  // ------------------------------------------------------------------ the probe

  /** RGB pixels expanded to RGBA; RGBA pixels as they are. */
  function Rgba(pixels: seq<Byte>, channels: nat): seq<Byte>
    requires channels == 3 || channels == 4
  {
    if |pixels| < channels then []
    else pixels[..3] + [if channels == 4 then pixels[3] else 255] + Rgba(pixels[channels..], channels)
  }

  /** Pixel `p` of the expansion of RGB is source pixel `p`, opaque. */
  lemma {:induction false} RgbExpands(pixels: seq<Byte>, p: nat)
    requires 3 * p + 3 <= |pixels|
    ensures 4 * p + 4 <= |Rgba(pixels, 3)|
    ensures Rgba(pixels, 3)[4 * p..4 * p + 4] == pixels[3 * p..3 * p + 3] + [255]
  {
    var rest := Rgba(pixels[3..], 3);
    assert Rgba(pixels, 3) == pixels[..3] + [255] + rest;
    if p > 0 {
      RgbExpands(pixels[3..], p - 1);
      assert Rgba(pixels, 3)[4 * p..4 * p + 4] == rest[4 * (p - 1)..4 * (p - 1) + 4];
      assert pixels[3..][3 * (p - 1)..3 * (p - 1) + 3] == pixels[3 * p..3 * p + 3];
    }
  }

  lemma {:induction false} RgbaIsIdentity(pixels: seq<Byte>)
    requires |pixels| % 4 == 0
    ensures Rgba(pixels, 4) == pixels
  {
    if pixels != [] {
      RgbaIsIdentity(pixels[4..]);
    }
  }

  lemma {:induction false} RgbaOneMore(pixels: seq<Byte>, k: nat)
    requires 3 * k + 3 <= |pixels|
    ensures Rgba(pixels[..3 * k + 3], 3) == Rgba(pixels[..3 * k], 3) + pixels[3 * k..3 * k + 3] + [255]
  {
    var x, y := pixels[..3 * k + 3], pixels[..3 * k];
    if k == 0 {
      assert Rgba(x[3..], 3) == [];
    } else {
      RgbaOneMore(pixels[3..], k - 1);
      assert x[3..] == pixels[3..][..3 * (k - 1) + 3] && y[3..] == pixels[3..][..3 * (k - 1)];
      assert pixels[3..][3 * (k - 1)..3 * (k - 1) + 3] == pixels[3 * k..3 * k + 3];
    }
  }

  lemma Areas(width: nat, height: nat, channels: nat)
    ensures height * (width * channels) == (width * height) * channels
  {
    assert height * (width * channels) == (height * width) * channels;
  }

  /**
    Reading got as far as these rows, which the stream begins with when filtered by these filters.  It
    succeeded with their pixels if they are all.  Otherwise the stream does not go on with a row, which
    is an error unless it is the last row of an RGBA image and its filter looks at none of its bytes.
  */
  ghost predicate ReadAs(raw: seq<Byte>, width: nat, height: nat, channels: nat, r: Result<seq<Byte>, Problem>, rows: seq<Row>, filters: seq<Byte>)
    requires channels == 3 || channels == 4
  {
    var stride := width * channels;
    && |rows| == |filters| <= height && IsImage(rows, stride) && AreFilters(filters)
    && Stream(rows, filters, stride, channels, |rows|) <= raw
    && var rest := raw[|Stream(rows, filters, stride, channels, |rows|)|..];
       && (r.Success? <==> |rows| == height || (channels == 4 && EndsShort(rest, stride, channels, |rows|, height)))
       && (r.Success? && |rows| == height ==> r.value == Rgba(Flatten(rows, stride, height), channels))
       && (r.Success? && |rows| < height ==> r.value == Flatten(rows, stride, |rows|) + rest[1..])
       && (r.Failure? ==> Unreadable(rest, stride, |rows|, r.error))
  }

  lemma ImageSize(rows: seq<Row>, width: nat, height: nat, channels: nat)
    requires |rows| <= height && IsImage(rows, width * channels)
    ensures |rows| == height ==> |Flatten(rows, width * channels, height)| == (width * height) * channels
    ensures |rows| + 1 == height ==> |Flatten(rows, width * channels, |rows|)| + width * channels == (width * height) * channels
  {
    FlattenLength(rows, width * channels, |rows|);
    Areas(width, height, channels);
    if |rows| + 1 == height {
      RowFits(|rows|, height, width * channels);
    }
  }

  lemma RgbaImage(rows: seq<Row>, width: nat, height: nat)
    requires |rows| == height && IsImage(rows, width * 4)
    ensures Rgba(Flatten(rows, width * 4, height), 4) == Flatten(rows, width * 4, height)
  {
    ImageSize(rows, width, height, 4);
    RgbaIsIdentity(Flatten(rows, width * 4, height));
  }

  /** `read_png` after decompression: scanlines, then RGB to RGBA. */
  method ReadPixels(raw: seq<Byte>, width: nat, height: nat, channels: nat) returns (r: Result<seq<Byte>, Problem>)
    requires channels == 3 || channels == 4
    ensures exists rows, filters :: ReadAs(raw, width, height, channels, r, rows, filters)
  {
    var stride := width * channels;
    var lines;
    ghost var rows, filters;
    lines, rows, filters := ReadScanlines(raw, stride, height, channels);
    if lines.Failure? {
      r := Failure(lines.error);
      assert ReadAs(raw, width, height, channels, r, rows, filters);
      return;
    }
    var decoded := lines.value;
    assert |rows| == height ==> decoded[..] == Flatten(rows, stride, height);
    if channels == 4 {
      if |rows| == height {
        RgbaImage(rows, width, height);
      }
      r := Success(decoded[..]);
    } else {
      ImageSize(rows, width, height, 3);
      r := Expand(decoded, width * height);
    }
    assert ReadAs(raw, width, height, channels, r, rows, filters);
  }

  method PutPixel(pixels: array<Byte>, target: nat, red: Byte, green: Byte, blue: Byte)
    requires target + 4 <= pixels.Length
    modifies pixels
    ensures pixels[..target + 4] == old(pixels[..target]) + [red, green, blue] + [255]
  {
    ghost var done := pixels[..target];
    pixels[target] := red;
    pixels[target + 1] := green;
    pixels[target + 2] := blue;
    pixels[target + 3] := 255;
    assert pixels[..target] == done;
  }

  /** RGB to RGBA; a buffer that is too short is noticed at its end. */
  method Expand(decoded: array<Byte>, count: nat) returns (r: Result<seq<Byte>, Problem>)
    requires decoded.Length <= 3 * count
    ensures r == if decoded.Length == 3 * count then Success(Rgba(decoded[..], 3)) else Failure(Truncated)
  {
    var pixels := new Byte[4 * count](_ => 0);
    for index := 0 to count
      invariant 3 * index <= decoded.Length
      invariant pixels[..4 * index] == Rgba(decoded[..3 * index], 3)
    {
      var source, target := 3 * index, 4 * index;
      if source + 2 >= decoded.Length { return Failure(Truncated); }
      RgbaOneMore(decoded[..], index);
      assert decoded[..][..source] == decoded[..source] && decoded[..][..source + 3] == decoded[..source + 3];
      assert decoded[..][source..source + 3] == [decoded[source], decoded[source + 1], decoded[source + 2]];
      PutPixel(pixels, target, decoded[source], decoded[source + 1], decoded[source + 2]);
    }
    assert pixels[..4 * count] == pixels[..] && decoded[..3 * count] == decoded[..];
    r := Success(pixels[..]);
  }

  lemma TakeAll<T>(s: seq<T>, t: seq<T>)
    requires |s| == |t| && s[..|t|] == t[..|t|]
    ensures s == t
  {
    assert s[..|t|] == s && t[..|t|] == t;
  }

  /**
    Reconstruction inverts filtering: whatever rows an image has and whichever filter each row uses,
    any reading of its stream as `ReadPixels` promises it yields exactly the original pixels.
  */
  lemma ReadingInvertsFiltering(image: seq<Row>, chosen: seq<Byte>, stride: nat, bpp: nat, raw: seq<Byte>, rows: seq<Row>, filters: seq<Byte>)
    requires |image| == |chosen| && IsImage(image, stride) && AreFilters(chosen) && bpp > 0
    requires raw == Stream(image, chosen, stride, bpp, |image|)
    requires |rows| == |filters| == |image| && IsImage(rows, stride)
    requires Stream(rows, filters, stride, bpp, |rows|) <= raw
    ensures rows == image && filters == chosen
  {
    StreamLength(image, chosen, stride, bpp, |image|);
    StreamLength(rows, filters, stride, bpp, |rows|);
    assert Stream(rows, filters, stride, bpp, |rows|) == raw[..|raw|] == raw;
    StreamIsInjective(rows, filters, image, chosen, stride, bpp, |image|);
    TakeAll(rows, image);
    TakeAll(filters, chosen);
  }

  lemma {:induction false} StreamGrows(rows: seq<Row>, filters: seq<Byte>, stride: nat, bpp: nat, m: nat, n: nat)
    requires m <= n <= |rows| == |filters| && IsImage(rows, stride)
    ensures Stream(rows, filters, stride, bpp, m) <= Stream(rows, filters, stride, bpp, n)
    decreases n - m
  {
    if m < n {
      StreamGrows(rows, filters, stride, bpp, m, n - 1);
    }
  }

  /** And the reading gets to the end: the stream of an image never stops it. */
  lemma ImagesAreReadToTheEnd(image: seq<Row>, chosen: seq<Byte>, stride: nat, bpp: nat, raw: seq<Byte>, rows: seq<Row>, filters: seq<Byte>, problem: Problem)
    requires |image| == |chosen| && IsImage(image, stride) && AreFilters(chosen)
    requires raw == Stream(image, chosen, stride, bpp, |image|)
    requires |rows| == |filters| < |image| && IsImage(rows, stride)
    requires Stream(rows, filters, stride, bpp, |rows|) <= raw
    ensures var rest := raw[|Stream(rows, filters, stride, bpp, |rows|)|..];
            !Unreadable(rest, stride, |rows|, problem) && !EndsShort(rest, stride, bpp, |rows|, |image|)
  {
    var n := |rows|;
    var head := Stream(image, chosen, stride, bpp, n);
    StreamLength(rows, filters, stride, bpp, n);
    StreamLength(image, chosen, stride, bpp, n);
    StreamGrows(image, chosen, stride, bpp, n + 1, |image|);
    var next := head + FilteredRow(chosen[n], image[n], Above(image, n, stride), bpp);
    assert next <= raw && raw[|head|] == next[|head|];
    assert raw[|head|..][0] == chosen[n] && |raw[|head|..]| >= stride + 1;
  }

  /** The pixels of an image come back from its filtered stream, whatever its size and filters. */
  method RoundTrip(image: seq<Row>, chosen: seq<Byte>, width: nat, channels: nat) returns (pixels: seq<Byte>)
    requires channels == 3 || channels == 4
    requires |image| == |chosen| && IsImage(image, width * channels) && AreFilters(chosen)
    ensures pixels == Rgba(Flatten(image, width * channels, |image|), channels)
  {
    var raw := Stream(image, chosen, width * channels, channels, |image|);
    var r := ReadPixels(raw, width, |image|, channels);
    ghost var rows, filters :| ReadAs(raw, width, |image|, channels, r, rows, filters);
    if |rows| < |image| {
      ImagesAreReadToTheEnd(image, chosen, width * channels, channels, raw, rows, filters, if r.Failure? then r.error else Truncated);
      assert false;
    }
    ReadingInvertsFiltering(image, chosen, width * channels, channels, raw, rows, filters);
    pixels := r.value;
  }
}
