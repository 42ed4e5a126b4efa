/**
  The event log of a session, the router's pages and slices of it, and the client that follows the cursor
  (store.ts and router.ts in apps/host/src, and apps/macos/src/api.ts).
*/
module EventPages {
  import opened Basics
  import J = CanonicalJson

  type Text = J.Text

  const MAX_PAGE := 1_000
  const LARGEST_SAFE := 9_007_199_254_740_991
  const INLINE_BYTES := 48_000
  const PAGE_BYTES := 128_000
  const SLICE := 24_000
  const MAX_REFERENCE := 64 * 1024 * 1024

  /** A stored event: its frame as JSON text, and the bytes its other columns take in a response. */
  datatype Event = Event(sequence: int, frame: Text, envelope: nat)

  /** A frame as the router sends it; the hash is the text it digests. */
  datatype Frame = Inline(text: Text) | Reference(sequence: int, length: nat, sha256: Text)
  datatype Projected = Projected(sequence: int, frame: Frame, envelope: nat)

  datatype Problem = BadCursor | BadLimit | SequenceExhausted | EventNotFound | BadReference
  datatype StorePage = StorePage(events: seq<Event>, cursor: int, hasMore: bool)
  datatype Page = Page(events: seq<Projected>, cursor: int, hasMore: bool)
  datatype Slice = Slice(sequence: int, offset: nat, text: Text, length: nat, sha256: Text)

  // ---------------------------------------------------------------------- sizes

  /** UTF-8 bytes of one code unit; the two halves of a surrogate pair take four bytes together. */
  function UnitBytes(u: J.Unit): nat {
    if u < 0x80 then 1 else if u < 0x800 then 2 else if J.IsHigh(u) || J.IsLow(u) then 2 else 3
  }

  function Bytes(t: Text): nat {
    if t == [] then 0 else UnitBytes(t[0]) + Bytes(t[1..])
  }

  /** `{"type":"cedia_frame_reference","sequence":,"length":,"sha256":""}` with a digest of 64 digits. */
  const REFERENCE_BYTES := 130

  function FrameBytes(f: Frame): nat {
    match f
    case Inline(text) => Bytes(text)
    case Reference(sequence, length, _) => REFERENCE_BYTES + |J.EncodeNumber(sequence)| + |J.EncodeNumber(length)|
  }

  function Size(p: Projected): nat { p.envelope + FrameBytes(p.frame) }

  function TotalSize(ps: seq<Projected>): nat {
    if ps == [] then 0 else TotalSize(ps[..|ps| - 1]) + Size(ps[|ps| - 1])
  }

  function Project(e: Event): Projected {
    Projected(e.sequence,
      if Bytes(e.frame) > INLINE_BYTES then Reference(e.sequence, |e.frame|, e.frame) else Inline(e.frame),
      e.envelope)
  }

  function ProjectAll(es: seq<Event>): (ps: seq<Projected>)
    ensures |ps| == |es| && forall i :: 0 <= i < |es| ==> ps[i] == Project(es[i])
  {
    seq(|es|, i requires 0 <= i < |es| => Project(es[i]))
  }

  /** A session's log: sequences 1..n with no gap or repeat. */
  ghost predicate IsLog(log: seq<Event>) {
    forall i :: 0 <= i < |log| ==> log[i].sequence == i + 1
  }

  /** A frame of more than 48000 bytes is sent as a reference to itself, and any other as it is. */
  lemma LargeFramesAreReferenced(e: Event)
    ensures var p := Project(e);
            && p.sequence == e.sequence && p.envelope == e.envelope
            && p.frame == if Bytes(e.frame) > 48_000 then Reference(e.sequence, |e.frame|, e.frame) else Inline(e.frame)
  {
  }

  /** The text of a reference takes the fixed parts, two numbers and a digest of 64 digits. */
  lemma ReferenceText(sequence: int, length: nat, sha256: Text)
    ensures FrameBytes(Reference(sequence, length, sha256)) ==
      |"{\"type\":\"cedia_frame_reference\",\"sequence\":"| + |J.EncodeNumber(sequence)| + |",\"length\":"| + |J.EncodeNumber(length)|
      + |",\"sha256\":\""| + 64 + |"\"}"|
    ensures FrameBytes(Inline(sha256)) == Bytes(sha256)
  {
  }

  /** Every surrogate stands in a pair, as in every JSON text. */
  predicate Paired(t: Text) {
    t == [] || (if J.IsHigh(t[0]) then |t| > 1 && J.IsLow(t[1]) && Paired(t[2..]) else !J.IsLow(t[0]) && Paired(t[1..]))
  }

  /** UTF-8 as in RFC 3629, section 3. */
  function Utf8(t: Text): seq<int> {
    if t == [] then []
    else if J.IsHigh(t[0]) && |t| > 1 && J.IsLow(t[1]) then
      var high: int, low: int := t[0], t[1];
      var c := 0x1_0000 + (high - 0xD800) * 0x400 + (low - 0xDC00);
      [0xF0 + c / 0x4_0000, 0x80 + c / 0x1000 % 64, 0x80 + c / 64 % 64, 0x80 + c % 64] + Utf8(t[2..])
    else
      (var u := t[0];
       if u < 0x80 then [u]
       else if u < 0x800 then [0xC0 + u / 64, 0x80 + u % 64]
       else [0xE0 + u / 0x1000, 0x80 + u / 64 % 64, 0x80 + u % 64]) + Utf8(t[1..])
  }

  /** The byte count is the length of the UTF-8 form. */
  lemma {:induction false} BytesAreUtf8(t: Text)
    requires Paired(t)
    ensures Bytes(t) == |Utf8(t)|
  {
    if t != [] {
      if J.IsHigh(t[0]) {
        BytesAreUtf8(t[2..]);
        assert t[1..][1..] == t[2..];
      } else {
        BytesAreUtf8(t[1..]);
      }
    }
  }

  // ---------------------------------------------------------------------- store

  class EventLog {
    var rows: seq<Event>

    constructor ()
      ensures rows == []
    {
      rows := [];
    }

    /** `appendEvent`: one more than the largest sequence so far. */
    method AppendEvent(frame: Text, envelope: nat) returns (r: Result<Event, Problem>)
      requires IsLog(rows)
      modifies this
      ensures IsLog(rows)
      ensures |old(rows)| < 9_007_199_254_740_991 ==>
        r == Success(Event(|old(rows)| + 1, frame, envelope)) && rows == old(rows) + [r.value]
      ensures |old(rows)| >= 9_007_199_254_740_991 ==> r == Failure(SequenceExhausted) && rows == old(rows)
    {
      var previous := 0;
      for i := 0 to |rows|
        invariant previous == i
      {
        if rows[i].sequence > previous {
          previous := rows[i].sequence;
        }
      }
      if previous + 1 > LARGEST_SAFE { return Failure(SequenceExhausted); }
      var event := Event(previous + 1, frame, envelope);
      rows := rows + [event];
      return Success(event);
    }

    /** `readEvents`: the rows after the cursor, read one beyond the page to see whether there are more. */
    method ReadEvents(after: int, limit: int) returns (r: Result<StorePage, Problem>)
      requires IsLog(rows)
      ensures after < 0 || after > 9_007_199_254_740_991 ==> r == Failure(BadCursor)
      ensures 0 <= after <= 9_007_199_254_740_991 && !(1 <= limit <= 1_000) ==> r == Failure(BadLimit)
      ensures 0 <= after <= 9_007_199_254_740_991 && 1 <= limit <= 1_000 ==>
        && r.Success?
        && var from := if after < |rows| then after else |rows|;
           var to := if from + limit < |rows| then from + limit else |rows|;
           r.value == StorePage(rows[from..to], if from < to then to else after, to < |rows|)
    {
      if after < 0 || after > LARGEST_SAFE { return Failure(BadCursor); }
      if limit < 1 || limit > MAX_PAGE { return Failure(BadLimit); }
      var selected: seq<Event> := [];
      ghost var from := if after < |rows| then after else |rows|;
      var i := 0;
      while i < |rows| && |selected| < limit + 1
        invariant 0 <= i <= |rows| && |selected| <= limit + 1
        invariant selected == if i <= from then [] else rows[from..i]
      {
        if rows[i].sequence > after {
          selected := selected + [rows[i]];
        }
        i := i + 1;
      }
      var hasMore := |selected| > limit;
      var events := if hasMore then selected[..limit] else selected;
      r := Success(StorePage(events, if |events| > 0 then events[|events| - 1].sequence else after, hasMore));
    }
  }

  // --------------------------------------------------------------------- router

  /** What a page read at `after` inside the log must be. */
  ghost predicate PageAt(log: seq<Event>, after: int, limit: int, page: Page) {
    && 0 <= after < |log|
    && var next := page.cursor;
       && after < next <= |log| && next <= after + limit
       && page.events == ProjectAll(log[after..next])
       && (next - after > 1 ==> TotalSize(page.events) <= 128_000)
       && (next < |log| && next < after + limit ==> TotalSize(page.events) + Size(Project(log[next])) > 128_000)
       && (page.hasMore <==> next < |log|)
  }

  /** The router's loop: events are taken while they fit the budget, and the first one always is. */
  method TakeWithinBudget(page: seq<Event>) returns (events: seq<Projected>)
    ensures |events| <= |page| && events == ProjectAll(page[..|events|])
    ensures |page| > 0 ==> |events| > 0
    ensures |events| > 1 ==> TotalSize(events) <= 128_000
    ensures |events| < |page| ==> TotalSize(events) + Size(Project(page[|events|])) > 128_000
  {
    var bytes := 0;
    events := [];
    var n := 0;
    while n < |page| && (n == 0 || bytes + Size(Project(page[n])) <= PAGE_BYTES)
      invariant n <= |page| && events == ProjectAll(page[..n])
      invariant bytes == TotalSize(events) && (n <= 1 || bytes <= PAGE_BYTES)
    {
      ProjectOneMore(page, n);
      TotalOneMore(events, Project(page[n]));
      events := events + [Project(page[n])];
      bytes := bytes + Size(Project(page[n]));
      n := n + 1;
    }
  }

  /**
    The event page of the router.  It holds at least one event when there is one, stays within the byte
    budget unless it holds a single event, and stops only at the page limit, at the end of the log or
    where the next event would not fit.
  */
  method EventPage(log: EventLog, after: int, limit: int) returns (r: Result<Page, Problem>)
    requires IsLog(log.rows)
    ensures r.Success? <==> 0 <= after <= 9_007_199_254_740_991 && 1 <= limit <= 1_000
    ensures r.Success? && after >= |log.rows| ==> r.value == Page([], after, false)
    ensures r.Success? && after < |log.rows| ==> PageAt(log.rows, after, limit, r.value)
  {
    var read := log.ReadEvents(after, limit);
    if read.Failure? { return Failure(read.error); }
    var page := read.value;
    var events := TakeWithinBudget(page.events);
    var cursor := if |events| > 0 then events[|events| - 1].sequence else after;
    r := Success(Page(events, cursor, page.hasMore || |events| < |page.events|));
    if after < |log.rows| {
      var m := |events|;
      PageOfRows(log.rows, after, page.events, m);
      assert events[m - 1] == Project(page.events[m - 1]);
      assert m < |page.events| ==> page.events[m] == log.rows[after + m];
      PageIsRight(log.rows, after, limit, after + |page.events|, m);
    }
  }

  lemma PageIsRight(rows: seq<Event>, after: int, limit: int, to: int, m: nat)
    requires 0 <= after < to <= |rows| && to == (if after + limit < |rows| then after + limit else |rows|) && 0 < m <= to - after
    requires m > 1 ==> Span(rows, after, after + m) <= 128_000
    requires m < to - after ==> Span(rows, after, after + m) + Size(Project(rows[after + m])) > 128_000
    ensures PageAt(rows, after, limit, Page(ProjectAll(rows[after..after + m]), after + m, to < |rows| || m < to - after))
  {
    var events := ProjectAll(rows[after..after + m]);
    assert TotalSize(events) == Span(rows, after, after + m);
  }

  lemma PageOfRows(rows: seq<Event>, after: int, page: seq<Event>, n: nat)
    requires IsLog(rows) && 0 <= after && after + |page| <= |rows| && page == rows[after..after + |page|] && 0 < n <= |page|
    ensures page[..n] == rows[after..after + n] && page[n - 1].sequence == after + n
  {
    assert page[n - 1] == rows[after + n - 1];
  }

  lemma ProjectOneMore(es: seq<Event>, n: nat)
    requires n < |es|
    ensures ProjectAll(es[..n + 1]) == ProjectAll(es[..n]) + [Project(es[n])]
  {
  }

  /** The size of a page is the sum of what its events take, envelope and frame. */
  lemma TotalOneMore(ps: seq<Projected>, p: Projected)
    ensures TotalSize(ps + [p]) == TotalSize(ps) + (p.envelope + FrameBytes(p.frame)) && TotalSize([]) == 0
  {
    assert (ps + [p])[..|ps|] == ps;
  }

  /** A page is determined by the log, the cursor and the limit. */
  lemma PageIsUnique(log: seq<Event>, after: int, limit: int, p: Page, q: Page)
    requires PageAt(log, after, limit, p) && PageAt(log, after, limit, q)
    ensures p == q
  {
    if p.cursor < q.cursor {
      LongerPageIsLarger(log, after, p.cursor, q.cursor);
    } else if q.cursor < p.cursor {
      LongerPageIsLarger(log, after, q.cursor, p.cursor);
    }
  }

  /** The bytes of the events between two cursors. */
  function Span(log: seq<Event>, after: int, n: int): nat
    requires 0 <= after <= n <= |log|
  {
    TotalSize(ProjectAll(log[after..n]))
  }

  lemma SpanOneMore(log: seq<Event>, after: int, n: int)
    requires 0 <= after < n <= |log|
    ensures Span(log, after, n) == Span(log, after, n - 1) + Size(Project(log[n - 1]))
  {
    var shorter := ProjectAll(log[after..n - 1]);
    assert ProjectAll(log[after..n]) == shorter + [Project(log[n - 1])];
    TotalOneMore(shorter, Project(log[n - 1]));
  }

  lemma {:induction false} LongerPageIsLarger(log: seq<Event>, after: int, m: int, n: int)
    requires 0 <= after <= m < n <= |log|
    ensures Span(log, after, n) >= Span(log, after, m) + Size(Project(log[m]))
    decreases n
  {
    SpanOneMore(log, after, n);
    if m < n - 1 {
      LongerPageIsLarger(log, after, m, n - 1);
    }
  }

  /** One slice of a large frame. */
  method ReadFrame(log: EventLog, sequence: int, offset: nat) returns (r: Result<Slice, Problem>)
    requires IsLog(log.rows)
    ensures sequence < 1 || sequence > 9_007_199_254_740_991 + 1 ==> r == Failure(BadCursor)
    ensures 1 <= sequence <= 9_007_199_254_740_991 + 1 && sequence > |log.rows| ==> r == Failure(EventNotFound)
    ensures 1 <= sequence <= 9_007_199_254_740_991 + 1 && sequence <= |log.rows| ==>
      var text := log.rows[sequence - 1].frame;
      var from := if offset < |text| then offset else |text|;
      var to := if from + 24_000 < |text| then from + 24_000 else |text|;
      r == Success(Slice(sequence, offset, text[from..to], |text|, text))
  {
    var page := log.ReadEvents(sequence - 1, 1);
    if page.Failure? { return Failure(page.error); }
    if |page.value.events| == 0 || page.value.events[0].sequence != sequence { return Failure(EventNotFound); }
    var text := page.value.events[0].frame;
    var from := if offset < |text| then offset else |text|;
    var to := if from + SLICE < |text| then from + SLICE else |text|;
    r := Success(Slice(sequence, offset, text[from..to], |text|, text));
  }

  // --------------------------------------------------------------------- client

  /** The client's loop over the slices of a referenced frame, with its checks of every slice. */
  method RebuildFrame(log: EventLog, sequence: int, reference: Frame) returns (r: Result<Text, Problem>)
    requires IsLog(log.rows) && reference.Reference?
    requires 1 <= sequence <= |log.rows| && sequence <= LARGEST_SAFE
    requires reference == Reference(sequence, |log.rows[sequence - 1].frame|, log.rows[sequence - 1].frame)
    ensures r == if 1 <= reference.length <= 67_108_864 then Success(log.rows[sequence - 1].frame) else Failure(BadReference)
  {
    if reference.length < 1 || reference.length > MAX_REFERENCE { return Failure(BadReference); }
    ghost var whole := log.rows[sequence - 1].frame;
    var text: Text := [];
    while |text| < reference.length
      invariant |text| <= |whole| && text == whole[..|text|]
      decreases reference.length - |text|
    {
      var chunk := ReadFrame(log, sequence, |text|);
      var c := chunk.value;
      if c.offset != |text| || c.length != reference.length || c.sha256 != reference.sha256 || |c.text| == 0 || |c.text| > SLICE {
        return Failure(BadReference);
      }
      text := text + c.text;
    }
    if |text| != reference.length || text != reference.sha256 { return Failure(BadReference); }
    r := Success(text);
  }

  predicate Rebuildable(e: Event) {
    Bytes(e.frame) > INLINE_BYTES ==> |e.frame| <= MAX_REFERENCE
  }

  lemma {:induction false} BytesBoundLength(t: Text)
    ensures |t| <= Bytes(t) <= 3 * |t|
  {
    if t != [] {
      BytesBoundLength(t[1..]);
    }
  }

  /** The text of one projected event: itself, or the text its reference stands for. */
  method Hydrate(log: EventLog, event: Projected) returns (text: Text)
    requires IsLog(log.rows) && |log.rows| <= LARGEST_SAFE && 1 <= event.sequence <= |log.rows|
    requires var stored := log.rows[event.sequence - 1]; Rebuildable(stored) && event == Project(stored)
    ensures text == log.rows[event.sequence - 1].frame
  {
    BytesBoundLength(log.rows[event.sequence - 1].frame);
    if event.frame.Inline? { return event.frame.text; }
    var rebuilt := RebuildFrame(log, event.sequence, event.frame);
    text := rebuilt.value;
  }

  /** The frames of one page, with every reference replaced by the text it stands for. */
  method ReadPage(log: EventLog, after: int, limit: int) returns (frames: seq<Text>, page: Page)
    requires IsLog(log.rows) && |log.rows| <= LARGEST_SAFE
    requires 0 <= after <= |log.rows| && 1 <= limit <= MAX_PAGE
    requires forall e :: e in log.rows ==> Rebuildable(e)
    ensures after == |log.rows| ==> frames == [] && page == Page([], after, false)
    ensures after < |log.rows| ==> PageAt(log.rows, after, limit, page) && frames == Frames(log.rows[after..page.cursor])
  {
    var read := EventPage(log, after, limit);
    page := read.value;
    frames := [];
    ghost var part := log.rows[after..after + |page.events|];
    assert page.events == ProjectAll(part);
    var n := 0;
    while n < |page.events|
      invariant n <= |page.events|
      invariant frames == Frames(part[..n])
    {
      assert part[n] == log.rows[after + n];
      var text := Hydrate(log, page.events[n]);
      FramesOneMore(part, n);
      frames := frames + [text];
      n := n + 1;
    }
    assert part[..n] == part;
  }

  lemma FramesOneMore(es: seq<Event>, n: nat)
    requires n < |es|
    ensures Frames(es[..n + 1]) == Frames(es[..n]) + [es[n].frame]
  {
  }

  function Frames(es: seq<Event>): (fs: seq<Text>)
    ensures |fs| == |es| && forall i :: 0 <= i < |es| ==> fs[i] == es[i].frame
  {
    seq(|es|, i requires 0 <= i < |es| => es[i].frame)
  }

  /**
    Following the cursor from 0 ends, and the pages concatenate to exactly the session's log, for any
    frame sizes and any page limit.
  */
  method FollowCursor(log: EventLog, limit: int) returns (frames: seq<Text>)
    requires IsLog(log.rows) && |log.rows| <= LARGEST_SAFE && 1 <= limit <= MAX_PAGE
    requires forall e :: e in log.rows ==> Rebuildable(e)
    ensures frames == Frames(log.rows)
  {
    frames := [];
    var after, hasMore := 0, true;
    while hasMore
      invariant 0 <= after <= |log.rows|
      invariant frames == Frames(log.rows[..after])
      invariant !hasMore ==> after == |log.rows|
      decreases |log.rows| - after, hasMore
    {
      var texts, page := ReadPage(log, after, limit);
      if after < |log.rows| {
        FramesOfBoth(log.rows, after, page.cursor);
      }
      frames := frames + texts;
      after, hasMore := page.cursor, page.hasMore;
    }
    assert log.rows[..after] == log.rows;
  }

  lemma FramesOfBoth(rows: seq<Event>, a: int, b: int)
    requires 0 <= a <= b <= |rows|
    ensures Frames(rows[..a]) + Frames(rows[a..b]) == Frames(rows[..b])
  {
    assert rows[..b] == rows[..a] + rows[a..b];
  }

  // --------------------------------------------------------------- growing logs

  /** Pages read one after another, each from the cursor of the one before, while the log only grows. */
  ghost predicate Followed(logs: seq<seq<Event>>, limits: seq<int>, pages: seq<Page>) {
    && |logs| == |limits| == |pages|
    && (forall i :: 0 <= i < |logs| ==> IsLog(logs[i]))
    && (forall i, j :: 0 <= i <= j < |logs| ==> logs[i] <= logs[j])
    && (forall i {:trigger ReadAt(logs[i], CursorBefore(pages, i), limits[i], pages[i])} ::
          0 <= i < |pages| ==> ReadAt(logs[i], CursorBefore(pages, i), limits[i], pages[i]))
  }

  function CursorBefore(pages: seq<Page>, i: nat): int
    requires i <= |pages|
  {
    if i == 0 then 0 else pages[i - 1].cursor
  }

  ghost predicate ReadAt(log: seq<Event>, after: int, limit: int, page: Page) {
    if 0 <= after < |log| then PageAt(log, after, limit, page) else page == Page([], after, false)
  }

  /** What the first `n` pages hold, one after another. */
  function Concatenated(pages: seq<Page>, n: nat): seq<Projected>
    requires n <= |pages|
  {
    if n == 0 then [] else Concatenated(pages, n - 1) + pages[n - 1].events
  }

  lemma NextPage(logs: seq<seq<Event>>, limits: seq<int>, pages: seq<Page>, i: nat)
    requires Followed(logs, limits, pages) && 0 < i < |pages|
    requires 0 <= pages[i - 1].cursor <= |logs[i - 1]|
    ensures 0 <= pages[i].cursor <= |logs[i]|
    ensures ProjectAll(logs[i - 1][..pages[i - 1].cursor]) + pages[i].events == ProjectAll(logs[i][..pages[i].cursor])
    ensures pages[i].hasMore <==> pages[i].cursor < |logs[i]|
  {
    assert ReadAt(logs[i], CursorBefore(pages, i), limits[i], pages[i]);
    ExtendPrefix(logs[i - 1], logs[i], pages[i - 1].cursor, limits[i], pages[i]);
  }

  /** While the log grows, the pages read so far are always exactly the part of it up to the cursor. */
  lemma {:induction false} PagesAreAPrefix(logs: seq<seq<Event>>, limits: seq<int>, pages: seq<Page>, i: nat)
    requires Followed(logs, limits, pages) && i < |pages|
    ensures 0 <= pages[i].cursor <= |logs[i]|
    ensures Concatenated(pages, i + 1) == ProjectAll(logs[i][..pages[i].cursor])
    ensures pages[i].hasMore <==> pages[i].cursor < |logs[i]|
    decreases i
  {
    if i == 0 {
      FirstPrefix(logs, limits, pages);
    } else {
      PagesAreAPrefix(logs, limits, pages, i - 1);
      assert Concatenated(pages, i + 1) == Concatenated(pages, i) + pages[i].events;
      NextPage(logs, limits, pages, i);
    }
  }

  lemma FirstPrefix(logs: seq<seq<Event>>, limits: seq<int>, pages: seq<Page>)
    requires Followed(logs, limits, pages) && |pages| > 0
    ensures 0 <= pages[0].cursor <= |logs[0]| && pages[0].events == ProjectAll(logs[0][..pages[0].cursor])
    ensures pages[0].hasMore <==> pages[0].cursor < |logs[0]|
  {
    assert ReadAt(logs[0], CursorBefore(pages, 0), limits[0], pages[0]);
    FirstPage(logs[0], limits[0], pages[0]);
  }

  lemma FirstPage(log: seq<Event>, limit: int, page: Page)
    requires ReadAt(log, 0, limit, page)
    ensures 0 <= page.cursor <= |log| && page.events == ProjectAll(log[..page.cursor])
    ensures page.hasMore <==> page.cursor < |log|
  {
    if |log| > 0 {
      assert log[0..page.cursor] == log[..page.cursor];
    }
  }

  lemma ExtendPrefix(before: seq<Event>, log: seq<Event>, after: int, limit: int, page: Page)
    requires before <= log && 0 <= after <= |before| && ReadAt(log, after, limit, page)
    ensures after <= page.cursor <= |log|
    ensures ProjectAll(before[..after]) + page.events == ProjectAll(log[..page.cursor])
    ensures page.hasMore <==> page.cursor < |log|
  {
    assert before[..after] == log[..after];
    if after < |log| {
      assert log[..page.cursor] == log[..after] + log[after..page.cursor];
    }
  }
}
