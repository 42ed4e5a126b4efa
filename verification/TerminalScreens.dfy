/** What each frame does to a terminal, and what its screen has been fed in any run. */
module TerminalScreens {
  import opened Basics
  import opened Terminals

  // ---------------------------------------------------------------------- one frame

  lemma {:induction false} PlaceOf(ts: seq<Terminal>, i: nat)
    requires DistinctIds(ts) && i < |ts|
    ensures Place(ts, ts[i].id) == Some(i)
  {
    var at := Place(ts, ts[i].id);
    assert at.Some? && ts[at.value].id == ts[i].id;
    assert !(at.value < i) && !(i < at.value);
  }

  /** An output of an open terminal with a new number is fed, and a gap before it is remembered; any other changes nothing. */
  lemma OutputOutcome(ts: seq<Terminal>, i: nat, sequence: int, data: string)
    requires DistinctIds(ts) && i < |ts|
    ensures var t, after := ts[i], ApplyFrame(ts, Output(ts[i].id, sequence, data));
            if !t.closed && sequence > t.lastSequence then
              after == ts[i := t.(screen := t.screen + [Fed(sequence, data)], lastSequence := sequence,
                                  historyIncomplete := t.historyIncomplete || sequence > t.lastSequence + 1)]
            else after == ts
  {
    PlaceOf(ts, i);
  }

  /** Closing remembers the first reason, and keeps everything else. */
  lemma CloseOutcome(ts: seq<Terminal>, i: nat, reason: Option<string>)
    requires DistinctIds(ts) && i < |ts|
    ensures var t, after := ts[i], ApplyFrame(ts, CloseFrame(ts[i].id, reason));
            if t.closed then after == ts
            else after == ts[i := t.(closed := true, closeReason := Some(if reason.Some? then reason.value else "closed"))]
  {
    PlaceOf(ts, i);
  }

  /** Opening a known terminal again keeps its screen and makes it writable. */
  lemma ReopenOutcome(ts: seq<Terminal>, i: nat, cols: Option<nat>, rows: Option<nat>, title: Option<string>)
    requires DistinctIds(ts) && i < |ts|
    ensures var t, c, r := ts[i], if cols.Some? then cols.value else 80, if rows.Some? then rows.value else 24;
            ApplyFrame(ts, Open(ts[i].id, cols, rows, title)) ==
              ts[i := t.(cols := c, rows := r, title := if title.Some? then title else t.title, closed := false, closeReason := None,
                         screen := t.screen + [Resized(c, r)])]
  {
    PlaceOf(ts, i);
  }

  predicate IsKnown(ts: seq<Terminal>, id: TerminalId) { exists i | 0 <= i < |ts| :: ts[i].id == id }

  /** The first closed terminal, in the order of insertion. */
  predicate IsOldestClosed(ts: seq<Terminal>, i: nat)
    requires i < |ts|
  {
    ts[i].closed && forall j | 0 <= j < i :: !ts[j].closed
  }

  /** A new terminal starts empty at the end; a full registry gives up its first closed one, or refuses. */
  lemma OpenOutcome(ts: seq<Terminal>, id: TerminalId, cols: Option<nat>, rows: Option<nat>, title: Option<string>)
    requires !IsKnown(ts, id)
    ensures var c, r := if cols.Some? then cols.value else 80, if rows.Some? then rows.value else 24;
            var created, after := Terminal(id, title, c, r, -1, false, None, false, []), ApplyFrame(ts, Open(id, cols, rows, title));
            && (|ts| < 8 ==> after == ts + [created])
            && (|ts| >= 8 ==> forall i | 0 <= i < |ts| && IsOldestClosed(ts, i) :: after == ts[..i] + ts[i + 1..] + [created])
            && (|ts| >= 8 && (forall i | 0 <= i < |ts| :: !ts[i].closed) ==> after == ts)
  {
    if |ts| >= 8 {
      var oldest := OldestClosed(ts);
      forall i | 0 <= i < |ts| && IsOldestClosed(ts, i) ensures oldest == Some(i) {
        assert oldest.Some? && !(oldest.value < i) && !(i < oldest.value);
      }
    }
  }

  /** Frames for terminals that are not known change nothing. */
  lemma UnknownOutcome(ts: seq<Terminal>, id: TerminalId, sequence: int, data: string, reason: Option<string>)
    requires !IsKnown(ts, id)
    ensures ApplyFrame(ts, Output(id, sequence, data)) == ts && ApplyFrame(ts, CloseFrame(id, reason)) == ts && ApplyFrame(ts, Noise) == ts
  {
  }

  /** The registry as a whole: frames are folded, buffered up to 512, or dropped when there is no engine. */
  lemma RegistryOutcome(r: Registry, f: Frame)
    ensures r.engine.Ready? ==> Step(r, Applies(f)) == r.(terminals := ApplyFrame(r.terminals, f))
    ensures r.engine.LoadFailed? ==> Step(r, Applies(f)) == r
    ensures r.engine.Absent? || r.engine.Loading? ==>
      Step(r, Applies(f)) == r.(engine := Loading, pending := if |r.pending| < 512 then r.pending + [f] else r.pending)
    ensures r.engine.Loading? ==> Step(r, FailsToLoad) == Registry(LoadFailed, [], r.terminals)
    ensures Step(r, Disposes) == Registry(r.engine, [], [])
  {
  }

  /** Only an open terminal gets a new size, when it is a new one. */
  lemma ResizeOutcome(r: Registry, i: nat, cols: nat, rows: nat)
    requires DistinctIds(r.terminals) && i < |r.terminals|
    ensures var t := r.terminals[i];
            Step(r, Resizes(t.id, cols, rows)) ==
              if t.closed || (t.cols == cols && t.rows == rows) then r
              else r.(terminals := r.terminals[i := t.(cols := cols, rows := rows, screen := t.screen + [Resized(cols, rows)])])
  {
    PlaceOf(r.terminals, i);
  }

  // -------------------------------------------------------------------- whole runs

  /** What was fed to a screen. */
  function FedOf(screen: seq<Input>): seq<Input> {
    if screen == [] then []
    else FedOf(screen[..|screen| - 1]) + if screen[|screen| - 1].Fed? then [screen[|screen| - 1]] else []
  }

  /** The outputs of a terminal that came while it was open, in order. */
  function Heard(events: seq<Event>, id: TerminalId, open: bool): seq<Input>
    decreases |events|
  {
    if events == [] then []
    else
      match events[0]
      case Applies(Output(x, sequence, data)) =>
        (if x == id && open then [Fed(sequence, data)] else []) + Heard(events[1..], id, open)
      case Applies(Open(x, _, _, _)) => Heard(events[1..], id, open || x == id)
      case Applies(CloseFrame(x, _)) => Heard(events[1..], id, open && x != id)
      case _ => Heard(events[1..], id, open)
  }

  /** Of these outputs, those whose number is larger than all before. */
  function Ahead(said: seq<Input>, last: int): seq<Input> {
    if said == [] then []
    else if said[0].Fed? && said[0].sequence > last then [said[0]] + Ahead(said[1..], said[0].sequence)
    else Ahead(said[1..], last)
  }

  /** The terminal with this id. */
  function Of(r: Registry, id: TerminalId): Terminal
    requires Place(r.terminals, id).Some?
  {
    r.terminals[Place(r.terminals, id).value]
  }

  /** The terminal is there all the time: it is never evicted and the registry is never disposed. */
  ghost predicate Stays(r: Registry, events: seq<Event>, id: TerminalId)
    decreases |events|
  {
    Place(r.terminals, id).Some? && (events != [] ==> Stays(Step(r, events[0]), events[1..], id))
  }

  /** What one event says to this terminal, if it is open. */
  function Says(e: Event, id: TerminalId, open: bool): seq<Input> {
    if e.Applies? && e.frame.Output? && e.frame.id == id && open then [Fed(e.frame.sequence, e.frame.data)] else []
  }

  function OpenAfter(e: Event, id: TerminalId, open: bool): bool {
    if e.Applies? && e.frame.Open? && e.frame.id == id then true
    else if e.Applies? && e.frame.CloseFrame? && e.frame.id == id then false
    else open
  }

  lemma HeardCons(events: seq<Event>, id: TerminalId, open: bool)
    requires events != []
    ensures Heard(events, id, open) == Says(events[0], id, open) + Heard(events[1..], id, OpenAfter(events[0], id, open))
  {
  }

  function LastOf(fed: seq<Input>, last: int): int {
    if fed != [] && fed[|fed| - 1].Fed? then fed[|fed| - 1].sequence else last
  }

  /** From one state of the terminal to a later one it was fed these, and is open or closed as told. */
  ghost predicate WasFed(t: Terminal, g: Terminal, fed: seq<Input>, open: bool) {
    FedOf(g.screen) == FedOf(t.screen) + fed && g.lastSequence == LastOf(fed, t.lastSequence) && g.closed == !open
  }

  lemma FedOneMore(screen: seq<Input>, input: Input)
    ensures FedOf(screen + [input]) == FedOf(screen) + if input.Fed? then [input] else []
  {
    assert (screen + [input])[..|screen|] == screen;
  }

  lemma SameTerminal(ts: seq<Terminal>, after: seq<Terminal>, i: nat, j: nat)
    requires DistinctIds(ts) && DistinctIds(after) && i < |ts| && j < |after| && after[j].id == ts[i].id
    ensures Place(ts, ts[i].id) == Some(i) && Place(after, ts[i].id) == Some(j)
  {
    PlaceOf(ts, i);
    PlaceOf(after, j);
  }

  lemma StaysDistinct(ts: seq<Terminal>, f: Frame)
    requires TerminalsOk(ts)
    ensures DistinctIds(ts) && DistinctIds(ApplyFrame(ts, f))
  {
    ApplyFrameKeeps(ts, f);
  }

  lemma OtherOpened(ts: seq<Terminal>, f: Frame, i: nat)
    requires f.Open? && DistinctIds(ts) && i < |ts| && f.id != ts[i].id && DistinctIds(ApplyFrame(ts, f))
    requires Place(ApplyFrame(ts, f), ts[i].id).Some?
    ensures ts[i] in ApplyFrame(ts, f)
  {
    var after := ApplyFrame(ts, f);
    if Place(ts, f.id).Some? {
      assert after[i] == ts[i];
    } else if |ts| < MAX_TERMINALS || OldestClosed(ts).None? {
      assert after[i] == ts[i];
    } else {
      var k, j := OldestClosed(ts).value, Place(after, ts[i].id).value;
      assert after[j] == ts[if j < k then j else j + 1];
      assert (if j < k then j else j + 1) == i;
    }
  }

  lemma OtherFed(ts: seq<Terminal>, f: Frame, i: nat)
    requires !f.Open? && DistinctIds(ts) && i < |ts| && (f.Noise? || f.id != ts[i].id)
    ensures ts[i] in ApplyFrame(ts, f)
  {
    assert ApplyFrame(ts, f)[i] == ts[i];
  }

  /** A frame for another terminal. */
  lemma OthersUntouched(ts: seq<Terminal>, f: Frame, i: nat)
    requires DistinctIds(ts) && DistinctIds(ApplyFrame(ts, f)) && i < |ts| && Place(ApplyFrame(ts, f), ts[i].id).Some?
    requires f.Noise? || f.id != ts[i].id
    ensures var after := ApplyFrame(ts, f); after[Place(after, ts[i].id).value] == ts[i]
  {
    if f.Open? {
      OtherOpened(ts, f, i);
    } else {
      OtherFed(ts, f, i);
    }
    var after := ApplyFrame(ts, f);
    var j :| 0 <= j < |after| && after[j] == ts[i];
    SameTerminal(ts, after, i, j);
  }

  /** A frame for this terminal changes it in place. */
  lemma OwnFrame(ts: seq<Terminal>, f: Frame, i: nat)
    requires DistinctIds(ts) && DistinctIds(ApplyFrame(ts, f)) && i < |ts| && !f.Noise? && f.id == ts[i].id
    ensures |ApplyFrame(ts, f)| == |ts|
    ensures WasFed(ts[i], ApplyFrame(ts, f)[i],
                   Ahead(Says(Applies(f), ts[i].id, !ts[i].closed), ts[i].lastSequence), OpenAfter(Applies(f), ts[i].id, !ts[i].closed))
  {
    match f
    case Open(id, cols, rows, title) =>
      ReopenOutcome(ts, i, cols, rows, title);
      FedOneMore(ts[i].screen, Resized(OrElse(cols, 80), OrElse(rows, 24)));
    case Output(id, sequence, data) =>
      OutputOutcome(ts, i, sequence, data);
      FedOneMore(ts[i].screen, Fed(sequence, data));
    case CloseFrame(id, reason) => CloseOutcome(ts, i, reason);
  }

  lemma FrameFeeds(ts: seq<Terminal>, f: Frame, i: nat)
    requires DistinctIds(ts) && DistinctIds(ApplyFrame(ts, f)) && i < |ts| && Place(ApplyFrame(ts, f), ts[i].id).Some?
    ensures var after := ApplyFrame(ts, f);
            WasFed(ts[i], after[Place(after, ts[i].id).value],
                   Ahead(Says(Applies(f), ts[i].id, !ts[i].closed), ts[i].lastSequence), OpenAfter(Applies(f), ts[i].id, !ts[i].closed))
  {
    if f.Noise? || f.id != ts[i].id {
      OthersUntouched(ts, f, i);
    } else {
      OwnFrame(ts, f, i);
      IdsInPlace(ts, f, i);
      SameTerminal(ts, ApplyFrame(ts, f), i, i);
    }
  }

  lemma IdsInPlace(ts: seq<Terminal>, f: Frame, i: nat)
    requires DistinctIds(ts) && i < |ts| && !f.Noise? && f.id == ts[i].id
    ensures |ApplyFrame(ts, f)| == |ts| && ApplyFrame(ts, f)[i].id == ts[i].id
  {
    PlaceOf(ts, i);
  }

  lemma StepFeeds(r: Registry, e: Event, id: TerminalId)
    requires Inv(r) && r.engine.Ready? && Place(r.terminals, id).Some? && Place(Step(r, e).terminals, id).Some?
    ensures Step(r, e).engine.Ready?
    ensures var t := Of(r, id);
            WasFed(t, Of(Step(r, e), id), Ahead(Says(e, id, !t.closed), t.lastSequence), OpenAfter(e, id, !t.closed))
  {
    var i := Place(r.terminals, id).value;
    match e
    case Applies(f) =>
      StaysDistinct(r.terminals, f);
      FrameFeeds(r.terminals, f, i);
    case Resizes(x, cols, rows) =>
      StepKeepsInv(r, e);
      var at := Place(r.terminals, x);
      if at.Some? {
        ResizeOutcome(r, at.value, cols, rows);
        SameTerminal(r.terminals, Step(r, e).terminals, i, i);
        FedOneMore(r.terminals[i].screen, Resized(cols, rows));
      }
    case _ =>
  }

  lemma {:induction false} AheadAppends(a: seq<Input>, b: seq<Input>, last: int)
    ensures Ahead(a + b, last) == Ahead(a, last) + Ahead(b, LastOf(Ahead(a, last), last))
    decreases |a|
  {
    if a == [] {
      assert a + b == b;
    } else {
      assert (a + b)[1..] == a[1..] + b;
      if a[0].Fed? && a[0].sequence > last {
        AheadAppends(a[1..], b, a[0].sequence);
        var rest := Ahead(a[1..], a[0].sequence);
        assert Ahead(a, last) == [a[0]] + rest;
        assert LastOf([a[0]] + rest, last) == LastOf(rest, a[0].sequence) by { AllFed(a[1..], a[0].sequence); }
      } else {
        AheadAppends(a[1..], b, last);
      }
    }
  }

  lemma {:induction false} AllFed(said: seq<Input>, last: int)
    ensures forall x :: x in Ahead(said, last) ==> x.Fed?
    decreases |said|
  {
    if said != [] {
      AllFed(said[1..], if said[0].Fed? && said[0].sequence > last then said[0].sequence else last);
    }
  }

  /**
    With the engine ready, a terminal that stays in the registry is fed exactly the outputs that come while
    it is open, each with its data and in order, except those whose number is not larger than all before;
    closing and reopening in between loses none.
  */
  lemma {:induction false} ScreenIsFedWhatItHears(r: Registry, events: seq<Event>, id: TerminalId)
    requires Inv(r) && r.engine.Ready? && Stays(r, events, id)
    ensures Place(Run(r, events).terminals, id).Some?
    ensures Progress(Of(r, id), Of(Run(r, events), id), Heard(events, id, !Of(r, id).closed))
    decreases |events|
  {
    if events != [] {
      var t, next := Of(r, id), Step(r, events[0]);
      StepFeeds(r, events[0], id);
      StepKeepsInv(r, events[0]);
      ScreenIsFedWhatItHears(next, events[1..], id);
      HeardCons(events, id, !t.closed);
      ProgressOn(t, Of(next, id), Of(Run(r, events), id), Says(events[0], id, !t.closed),
                 Heard(events[1..], id, OpenAfter(events[0], id, !t.closed)));
    }
  }

  /** Between these two states the terminal was fed exactly what is ahead of all before. */
  ghost predicate Progress(t: Terminal, g: Terminal, said: seq<Input>) {
    var fed := Ahead(said, t.lastSequence);
    FedOf(g.screen) == FedOf(t.screen) + fed && g.lastSequence == LastOf(fed, t.lastSequence)
  }

  lemma ProgressOn(t: Terminal, u: Terminal, g: Terminal, now: seq<Input>, later: seq<Input>)
    requires Progress(t, u, now) && Progress(u, g, later)
    ensures Progress(t, g, now + later)
  {
    AheadAppends(now, later, t.lastSequence);
    AheadIsFed(now, later, t.lastSequence);
  }

  lemma AheadIsFed(a: seq<Input>, b: seq<Input>, last: int)
    ensures var x, y := Ahead(a, last), Ahead(b, LastOf(Ahead(a, last), last));
            LastOf(x + y, last) == LastOf(y, LastOf(x, last))
  {
    AllFed(a, last);
    AllFed(b, LastOf(Ahead(a, last), last));
  }

  // --------------------------------------------------------------- complete histories

  ghost predicate Numbered(said: seq<Input>, first: int) {
    forall i :: 0 <= i < |said| ==> said[i].Fed? && said[i].sequence == first + i
  }

  lemma {:induction false} NumberedIsAhead(said: seq<Input>, last: int)
    requires Numbered(said, last + 1)
    ensures Ahead(said, last) == said
    decreases |said|
  {
    if said != [] {
      assert said[0].sequence == last + 1;
      assert Numbered(said[1..], last + 2);
      NumberedIsAhead(said[1..], last + 1);
    }
  }

  lemma {:induction false} NumbersOf(screen: seq<Input>)
    ensures |FedNumbers(screen)| == |FedOf(screen)|
    ensures forall i :: 0 <= i < |FedOf(screen)| ==> FedOf(screen)[i].Fed? && FedNumbers(screen)[i] == FedOf(screen)[i].sequence
  {
    if screen != [] {
      NumbersOf(screen[..|screen| - 1]);
    }
  }

  /**
    A terminal that was just opened and hears outputs 0 to n, whatever other frames come in between, has
    been fed exactly their data in order, and its history is complete.
  */
  lemma CompleteHistory(r: Registry, events: seq<Event>, id: TerminalId)
    requires Inv(r) && r.engine.Ready? && Stays(r, events, id)
    requires !Of(r, id).closed && Of(r, id).screen == [] && Numbered(Heard(events, id, true), 0)
    ensures Place(Run(r, events).terminals, id).Some?
    ensures var g := Of(Run(r, events), id);
            && FedOf(g.screen) == Heard(events, id, true)
            && g.lastSequence == |Heard(events, id, true)| - 1
            && !g.historyIncomplete
  {
    var t, said := Of(r, id), Heard(events, id, true);
    assert Honest(t) && FedNumbers([]) == [];
    ScreenIsFedWhatItHears(r, events, id);
    NumberedIsAhead(said, -1);
    RunKeepsInv(r, events);
    var g := Of(Run(r, events), id);
    assert Honest(g);
    NumbersOf(g.screen);
    assert FedNumbers(g.screen) == UpTo(g.lastSequence);
  }
}
