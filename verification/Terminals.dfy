/**
  The registry of headless terminals (apps/host/src/terminal-state.ts): frames are folded into at most
  eight screens, and those that arrive while the engine loads are buffered, up to a bound.
*/
module Terminals {
  import opened Basics

  type TerminalId = string

  const MAX_TERMINALS := 8
  const MAX_PENDING := 512

  /** Frames of the three terminal types; `Noise` is one whose fields are unusable. */
  datatype Frame =
    | Open(id: TerminalId, cols: Option<nat>, rows: Option<nat>, title: Option<string>)
    | Output(id: TerminalId, sequence: int, data: string)
    | CloseFrame(id: TerminalId, reason: Option<string>)
    | Noise

  /** What the engine's terminal was given since it was created. */
  datatype Input = Fed(sequence: int, data: string) | Resized(cols: nat, rows: nat)

  datatype Terminal = Terminal(
    id: TerminalId,
    title: Option<string>,
    cols: nat,
    rows: nat,
    lastSequence: int,
    closed: bool,
    closeReason: Option<string>,
    historyIncomplete: bool,
    screen: seq<Input>)

  datatype Engine = Absent | Loading | Ready | LoadFailed

  datatype Registry = Registry(engine: Engine, pending: seq<Frame>, terminals: seq<Terminal>)

  const EMPTY := Registry(Absent, [], [])

  // --------------------------------------------------------------- one frame

  function OrElse(value: Option<nat>, fallback: nat): nat { if value.Some? then value.value else fallback }

  function Reopen(t: Terminal, cols: nat, rows: nat, title: Option<string>): Terminal {
    t.(cols := cols, rows := rows, title := if title.Some? then title else t.title, closed := false, closeReason := None,
       screen := t.screen + [Resized(cols, rows)])
  }

  function Closed(t: Terminal, reason: Option<string>): Terminal {
    if t.closed then t
    else t.(closed := true, closeReason := Some(if reason.Some? then reason.value else "closed"))
  }

  /** An output is fed unless the terminal is closed or has seen its sequence number; a gap is remembered. */
  function Feed(t: Terminal, sequence: int, data: string): Terminal {
    if t.closed || sequence <= t.lastSequence then t
    else
      t.(historyIncomplete := t.historyIncomplete || sequence > t.lastSequence + 1,
         screen := t.screen + [Fed(sequence, data)],
         lastSequence := sequence)
  }

  function Created(id: TerminalId, cols: nat, rows: nat, title: Option<string>): Terminal {
    Terminal(id, title, cols, rows, -1, false, None, false, [])
  }

  /** Where a terminal is in the map, in the order of insertion. */
  function Place(ts: seq<Terminal>, id: TerminalId): (r: Option<nat>)
    ensures r.Some? ==> r.value < |ts| && ts[r.value].id == id
    ensures r.None? ==> forall i :: 0 <= i < |ts| ==> ts[i].id != id
  {
    if ts == [] then None
    else if ts[0].id == id then Some(0)
    else
      var rest := Place(ts[1..], id);
      if rest.Some? then Some(rest.value + 1) else None
  }

  function OldestClosed(ts: seq<Terminal>): (r: Option<nat>)
    ensures r.Some? ==> r.value < |ts| && ts[r.value].closed && forall i :: 0 <= i < r.value ==> !ts[i].closed
    ensures r.None? ==> forall i :: 0 <= i < |ts| ==> !ts[i].closed
  {
    if ts == [] then None
    else if ts[0].closed then Some(0)
    else
      var rest := OldestClosed(ts[1..]);
      if rest.Some? then Some(rest.value + 1) else None
  }

  function Without(ts: seq<Terminal>, i: nat): seq<Terminal>
    requires i < |ts|
  {
    ts[..i] + ts[i + 1..]
  }

  function OpenFrame(ts: seq<Terminal>, id: TerminalId, cols: nat, rows: nat, title: Option<string>): seq<Terminal> {
    var at := Place(ts, id);
    if at.Some? then ts[at.value := Reopen(ts[at.value], cols, rows, title)]
    else if |ts| < MAX_TERMINALS then ts + [Created(id, cols, rows, title)]
    else
      var oldest := OldestClosed(ts);
      if oldest.None? then ts else Without(ts, oldest.value) + [Created(id, cols, rows, title)]
  }

  /** `#applyWithEngine`. */
  function ApplyFrame(ts: seq<Terminal>, f: Frame): seq<Terminal> {
    match f
    case Open(id, cols, rows, title) => OpenFrame(ts, id, OrElse(cols, 80), OrElse(rows, 24), title)
    case Output(id, sequence, data) =>
      var at := Place(ts, id);
      if at.None? then ts else ts[at.value := Feed(ts[at.value], sequence, data)]
    case CloseFrame(id, reason) =>
      var at := Place(ts, id);
      if at.None? then ts else ts[at.value := Closed(ts[at.value], reason)]
    case Noise => ts
  }

  function Fold(ts: seq<Terminal>, frames: seq<Frame>): seq<Terminal>
    decreases |frames|
  {
    if frames == [] then ts else Fold(ApplyFrame(ts, frames[0]), frames[1..])
  }

  // ------------------------------------------------------------------ events

  datatype Event =
    | Applies(frame: Frame)
    | Resizes(id: TerminalId, cols: nat, rows: nat)
    | Loads
    | FailsToLoad
    | Disposes

  function Apply(r: Registry, f: Frame): Registry {
    match r.engine
    case Ready => r.(terminals := ApplyFrame(r.terminals, f))
    case LoadFailed => r
    case _ => r.(engine := Loading, pending := if |r.pending| < MAX_PENDING then r.pending + [f] else r.pending)
  }

  function Resize(r: Registry, id: TerminalId, cols: nat, rows: nat): Registry {
    var at := Place(r.terminals, id);
    if at.None? then r
    else
      var t := r.terminals[at.value];
      if t.closed || (t.cols == cols && t.rows == rows) then r
      else r.(terminals := r.terminals[at.value := t.(cols := cols, rows := rows, screen := t.screen + [Resized(cols, rows)])])
  }

  /** The loader's promise settles only while the engine is loading. */
  function Step(r: Registry, e: Event): Registry {
    match e
    case Applies(f) => Apply(r, f)
    case Resizes(id, cols, rows) => Resize(r, id, cols, rows)
    case Loads => if r.engine.Loading? then Registry(Ready, [], Fold(r.terminals, r.pending)) else r
    case FailsToLoad => if r.engine.Loading? then r.(engine := LoadFailed, pending := []) else r
    case Disposes => r.(pending := [], terminals := [])
  }

  function Run(r: Registry, events: seq<Event>): Registry
    decreases |events|
  {
    if events == [] then r else Run(Step(r, events[0]), events[1..])
  }

  // ----------------------------------------------------------------- honesty

  /** The sequence numbers that were fed to a screen, in order. */
  function FedNumbers(screen: seq<Input>): seq<int> {
    if screen == [] then []
    else
      var last := screen[|screen| - 1];
      FedNumbers(screen[..|screen| - 1]) + if last.Fed? then [last.sequence] else []
  }

  /** The numbers 0, 1, ..., last. */
  function UpTo(last: int): (r: seq<int>)
    requires last >= -1
  {
    seq(last + 1, i => i)
  }

  ghost predicate Increasing(ns: seq<int>) {
    (forall i :: 0 <= i < |ns| ==> ns[i] >= 0) && forall i, j :: 0 <= i < j < |ns| ==> ns[i] < ns[j]
  }

  /** The flag is false exactly when the screen was fed all outputs from 0 to the last one, in order. */
  ghost predicate Honest(t: Terminal) {
    && t.lastSequence >= -1
    && var fed := FedNumbers(t.screen);
       && Increasing(fed)
       && (if fed == [] then t.lastSequence == -1 else t.lastSequence == fed[|fed| - 1])
       && (!t.historyIncomplete <==> fed == UpTo(t.lastSequence))
  }

  lemma FeedNumbers(screen: seq<Input>, input: Input)
    ensures FedNumbers(screen + [input]) == FedNumbers(screen) + if input.Fed? then [input.sequence] else []
  {
    assert (screen + [input])[..|screen|] == screen;
  }

  lemma FeedIsHonest(t: Terminal, sequence: int, data: string)
    requires Honest(t)
    ensures Honest(Feed(t, sequence, data))
  {
    if !t.closed && sequence > t.lastSequence {
      FeedNumbers(t.screen, Fed(sequence, data));
      NextNumber(FedNumbers(t.screen), t.lastSequence, sequence);
    }
  }

  /** One more number continues 0, 1, 2, ... exactly when nothing was missing and it is the next one. */
  lemma NextNumber(fed: seq<int>, last: int, next: int)
    requires -1 <= last < next && (if fed == [] then last == -1 else last == fed[|fed| - 1])
    ensures fed + [next] == UpTo(next) <==> fed == UpTo(last) && next == last + 1
  {
    if fed + [next] == UpTo(next) {
      assert |fed| == next;
      assert forall i :: 0 <= i < |fed| ==> fed[i] == (fed + [next])[i] == UpTo(next)[i] == i;
      assert fed == UpTo(last);
    }
    if fed == UpTo(last) && next == last + 1 {
      assert UpTo(next) == UpTo(last) + [next];
    }
  }

  lemma ResizedIsHonest(t: Terminal, g: Terminal, cols: nat, rows: nat)
    requires Honest(t) && g.screen == t.screen + [Resized(cols, rows)]
    requires g.lastSequence == t.lastSequence && g.historyIncomplete == t.historyIncomplete
    ensures Honest(g)
  {
    FeedNumbers(t.screen, Resized(cols, rows));
  }

  lemma CreatedIsHonest(id: TerminalId, cols: nat, rows: nat, title: Option<string>)
    ensures Honest(Created(id, cols, rows, title))
  {
    assert UpTo(-1) == [];
  }

  // ---------------------------------------------------------------- invariant

  ghost predicate DistinctIds(ts: seq<Terminal>) {
    forall i, j :: 0 <= i < j < |ts| ==> ts[i].id != ts[j].id
  }

  ghost predicate TerminalsOk(ts: seq<Terminal>) {
    && |ts| <= MAX_TERMINALS && DistinctIds(ts)
    && forall i :: 0 <= i < |ts| ==> Honest(ts[i])
  }

  ghost predicate Inv(r: Registry) {
    && TerminalsOk(r.terminals)
    && |r.pending| <= MAX_PENDING
    && (!r.engine.Ready? ==> r.terminals == [])
    && (!r.engine.Loading? ==> r.pending == [])
  }

  lemma ReplaceKeeps(ts: seq<Terminal>, i: nat, t: Terminal)
    requires TerminalsOk(ts) && i < |ts| && Honest(t) && t.id == ts[i].id
    ensures TerminalsOk(ts[i := t])
  {
  }

  lemma AddKeeps(ts: seq<Terminal>, t: Terminal)
    requires TerminalsOk(ts) && |ts| < MAX_TERMINALS && Honest(t) && forall i :: 0 <= i < |ts| ==> ts[i].id != t.id
    ensures TerminalsOk(ts + [t])
  {
  }

  lemma WithoutKeeps(ts: seq<Terminal>, i: nat)
    requires TerminalsOk(ts) && i < |ts|
    ensures TerminalsOk(Without(ts, i))
    ensures forall j :: 0 <= j < |Without(ts, i)| ==> Without(ts, i)[j] == ts[if j < i then j else j + 1]
  {
  }

  lemma OpenKeeps(ts: seq<Terminal>, id: TerminalId, cols: nat, rows: nat, title: Option<string>)
    requires TerminalsOk(ts)
    ensures TerminalsOk(OpenFrame(ts, id, cols, rows, title))
  {
    var at := Place(ts, id);
    CreatedIsHonest(id, cols, rows, title);
    if at.Some? {
      ResizedIsHonest(ts[at.value], Reopen(ts[at.value], cols, rows, title), cols, rows);
      ReplaceKeeps(ts, at.value, Reopen(ts[at.value], cols, rows, title));
    } else if |ts| < MAX_TERMINALS {
      AddKeeps(ts, Created(id, cols, rows, title));
    } else {
      var oldest := OldestClosed(ts);
      if oldest.Some? {
        WithoutKeeps(ts, oldest.value);
        AddKeeps(Without(ts, oldest.value), Created(id, cols, rows, title));
      }
    }
  }

  lemma ApplyFrameKeeps(ts: seq<Terminal>, f: Frame)
    requires TerminalsOk(ts)
    ensures TerminalsOk(ApplyFrame(ts, f))
  {
    match f
    case Open(id, cols, rows, title) => OpenKeeps(ts, id, OrElse(cols, 80), OrElse(rows, 24), title);
    case Output(id, sequence, data) =>
      var at := Place(ts, id);
      if at.Some? {
        FeedIsHonest(ts[at.value], sequence, data);
        ReplaceKeeps(ts, at.value, Feed(ts[at.value], sequence, data));
      }
    case CloseFrame(id, reason) =>
      var at := Place(ts, id);
      if at.Some? {
        ReplaceKeeps(ts, at.value, Closed(ts[at.value], reason));
      }
    case Noise =>
  }

  lemma {:induction false} FoldKeeps(ts: seq<Terminal>, frames: seq<Frame>)
    requires TerminalsOk(ts)
    ensures TerminalsOk(Fold(ts, frames))
    decreases |frames|
  {
    if frames != [] {
      ApplyFrameKeeps(ts, frames[0]);
      FoldKeeps(ApplyFrame(ts, frames[0]), frames[1..]);
    }
  }

  lemma StepKeepsInv(r: Registry, e: Event)
    requires Inv(r)
    ensures Inv(Step(r, e))
  {
    match e
    case Applies(f) => ApplyFrameKeeps(r.terminals, f);
    case Resizes(id, cols, rows) =>
      var at := Place(r.terminals, id);
      if at.Some? && Resize(r, id, cols, rows) != r {
        var g := Resize(r, id, cols, rows).terminals[at.value];
        ResizedIsHonest(r.terminals[at.value], g, cols, rows);
        ReplaceKeeps(r.terminals, at.value, g);
      }
    case Loads => FoldKeeps(r.terminals, r.pending);
    case _ =>
  }

  lemma {:induction false} RunKeepsInv(r: Registry, events: seq<Event>)
    requires Inv(r)
    ensures Inv(Run(r, events))
    decreases |events|
  {
    if events != [] {
      StepKeepsInv(r, events[0]);
      RunKeepsInv(Step(r, events[0]), events[1..]);
    }
  }

  /**
    In every run, with duplicates, gaps, closing, reopening, eviction and dropped frames: there are at
    most eight terminals and 512 buffered frames, and the history flag of a terminal is false exactly
    when its screen was fed the outputs 0 to `lastSequence`, each once and in order.
  */
  lemma RunsAreHonest(events: seq<Event>, t: Terminal)
    ensures var r := Run(EMPTY, events);
            && |r.terminals| <= MAX_TERMINALS && |r.pending| <= MAX_PENDING && DistinctIds(r.terminals)
            && (t in r.terminals ==> t.lastSequence >= -1 && (!t.historyIncomplete <==> FedNumbers(t.screen) == UpTo(t.lastSequence)))
  {
    RunKeepsInv(EMPTY, events);
    var ts := Run(EMPTY, events).terminals;
    if t in ts {
      var i :| 0 <= i < |ts| && ts[i] == t;
      assert Honest(ts[i]);
    }
  }

  // ------------------------------------------------------------- where data come from

  /** Everything fed to the screen came in one of these frames, for this terminal. */
  ghost predicate FromFrames(t: Terminal, frames: set<Frame>) {
    forall x :: x in t.screen && x.Fed? ==> Output(t.id, x.sequence, x.data) in frames
  }

  ghost predicate AllFromFrames(ts: seq<Terminal>, frames: set<Frame>) {
    forall i :: 0 <= i < |ts| ==> FromFrames(ts[i], frames)
  }

  lemma ApplyFrameFeedsFrames(ts: seq<Terminal>, f: Frame, frames: set<Frame>)
    requires AllFromFrames(ts, frames) && f in frames
    ensures AllFromFrames(ApplyFrame(ts, f), frames)
  {
  }

  lemma {:induction false} FoldFeedsFrames(ts: seq<Terminal>, fs: seq<Frame>, frames: set<Frame>)
    requires AllFromFrames(ts, frames) && forall f :: f in fs ==> f in frames
    ensures AllFromFrames(Fold(ts, fs), frames)
    decreases |fs|
  {
    if fs != [] {
      ApplyFrameFeedsFrames(ts, fs[0], frames);
      FoldFeedsFrames(ApplyFrame(ts, fs[0]), fs[1..], frames);
    }
  }

  ghost predicate HoldsFrames(r: Registry, frames: set<Frame>) {
    AllFromFrames(r.terminals, frames) && forall f :: f in r.pending ==> f in frames
  }

  lemma StepHoldsFrames(r: Registry, e: Event, frames: set<Frame>)
    requires HoldsFrames(r, frames) && (e.Applies? ==> e.frame in frames)
    ensures HoldsFrames(Step(r, e), frames)
  {
    match e
    case Applies(f) => ApplyFrameFeedsFrames(r.terminals, f, frames);
    case Loads => FoldFeedsFrames(r.terminals, r.pending, frames);
    case _ =>
  }

  lemma {:induction false} RunHoldsFrames(r: Registry, events: seq<Event>, frames: set<Frame>)
    requires HoldsFrames(r, frames) && forall e :: e in events && e.Applies? ==> e.frame in frames
    ensures HoldsFrames(Run(r, events), frames)
    decreases |events|
  {
    if events != [] {
      StepHoldsFrames(r, events[0], frames);
      RunHoldsFrames(Step(r, events[0]), events[1..], frames);
    }
  }

  /**
    In every run whatever was fed to a screen is the data of an output frame of that terminal with that
    sequence number; together with `RunsAreHonest`, a complete history is outputs 0 to `lastSequence`
    of the terminal, with their data.
  */
  lemma ScreensShowTheirOutputs(events: seq<Event>, t: Terminal, x: Input)
    requires t in Run(EMPTY, events).terminals && x in t.screen && x.Fed?
    ensures Applies(Output(t.id, x.sequence, x.data)) in events
  {
    var frames := set e | e in events && e.Applies? :: e.frame;
    RunHoldsFrames(EMPTY, events, frames);
    var ts := Run(EMPTY, events).terminals;
    var i :| 0 <= i < |ts| && ts[i] == t;
    assert FromFrames(ts[i], frames);
  }

  // ---------------------------------------------------------------- eviction

  /** The terminal is still there, with everything its screen was given. */
  ghost predicate Survives(t: Terminal, ts: seq<Terminal>) {
    exists i :: 0 <= i < |ts| && ts[i].id == t.id && t.screen <= ts[i].screen
  }

  lemma SurvivesAt(t: Terminal, ts: seq<Terminal>, i: nat)
    requires i < |ts| && ts[i].id == t.id && t.screen <= ts[i].screen
    ensures Survives(t, ts)
  {
  }

  lemma SurvivesReplacing(ts: seq<Terminal>, k: nat, t: Terminal, i: nat)
    requires k < |ts| && i < |ts| && i != k
    ensures Survives(ts[i], Without(ts, k) + [t])
  {
    var g := Without(ts, k) + [t];
    if i < k {
      assert g[i] == ts[i];
    } else {
      assert g[i - 1] == ts[i];
    }
  }

  lemma SurvivesOpening(ts: seq<Terminal>, id: TerminalId, cols: nat, rows: nat, title: Option<string>, i: nat)
    requires i < |ts| <= MAX_TERMINALS && !(|ts| == MAX_TERMINALS && Place(ts, id).None? && OldestClosed(ts) == Some(i))
    ensures Survives(ts[i], OpenFrame(ts, id, cols, rows, title))
  {
    if Place(ts, id).None? && |ts| == MAX_TERMINALS && OldestClosed(ts).Some? {
      SurvivesReplacing(ts, OldestClosed(ts).value, Created(id, cols, rows, title), i);
    } else {
      SurvivesAt(ts[i], OpenFrame(ts, id, cols, rows, title), i);
    }
  }

  /** A frame never drops an open terminal; it drops a closed one only when it creates another in a full registry. */
  lemma OnlyTheOldestClosedIsEvicted(ts: seq<Terminal>, f: Frame, i: nat)
    requires TerminalsOk(ts) && i < |ts|
    ensures Survives(ts[i], ApplyFrame(ts, f))
         || (f.Open? && |ts| == MAX_TERMINALS && Place(ts, f.id).None? && OldestClosed(ts) == Some(i))
  {
    match f
    case Open(id, cols, rows, title) =>
      if !(|ts| == MAX_TERMINALS && Place(ts, id).None? && OldestClosed(ts) == Some(i)) {
        SurvivesOpening(ts, id, OrElse(cols, 80), OrElse(rows, 24), title, i);
      }
    case _ => SurvivesAt(ts[i], ApplyFrame(ts, f), i);
  }

  /** An open terminal survives every frame. */
  lemma OpenTerminalsSurvive(ts: seq<Terminal>, f: Frame, i: nat)
    requires TerminalsOk(ts) && i < |ts| && !ts[i].closed
    ensures Survives(ts[i], ApplyFrame(ts, f))
  {
    OnlyTheOldestClosedIsEvicted(ts, f, i);
  }

  // ------------------------------------------------------------- delayed load

  predicate BeforeLoad(events: seq<Event>) {
    forall i :: 0 <= i < |events| ==> events[i].Applies? || events[i].Resizes? || events[i].Disposes?
  }

  /** The frames since the registry was last disposed. */
  function Frames(events: seq<Event>): seq<Frame> {
    if events == [] then []
    else
      var last := events[|events| - 1];
      var before := Frames(events[..|events| - 1]);
      match last
      case Applies(f) => before + [f]
      case Disposes => []
      case _ => before
  }

  function First<T>(s: seq<T>, n: nat): seq<T> { if |s| <= n then s else s[..n] }

  /** What a registry without its engine is: the first 512 frames, and nothing else. */
  ghost predicate Buffers(r: Registry, events: seq<Event>) {
    && r.terminals == [] && r.pending == First(Frames(events), MAX_PENDING)
    && r.engine == if exists i :: 0 <= i < |events| && events[i].Applies? then Loading else Absent
  }

  lemma {:induction false} RunAppends(r: Registry, a: seq<Event>, b: seq<Event>)
    ensures Run(r, a + b) == Run(Run(r, a), b)
    decreases |a|
  {
    if a == [] {
      assert a + b == b;
    } else {
      assert (a + b)[1..] == a[1..] + b;
      RunAppends(Step(r, a[0]), a[1..], b);
    }
  }

  lemma BuffersOneMore(r: Registry, events: seq<Event>, e: Event)
    requires Buffers(r, events) && (e.Applies? || e.Resizes? || e.Disposes?)
    ensures Buffers(Step(r, e), events + [e])
  {
    var more := events + [e];
    assert more[..|events|] == events;
    assert (exists i :: 0 <= i < |more| && more[i].Applies?) <==> e.Applies? || exists i :: 0 <= i < |events| && events[i].Applies? by {
      if exists i :: 0 <= i < |events| && events[i].Applies? {
        var i :| 0 <= i < |events| && events[i].Applies?;
        assert more[i].Applies?;
      }
      if e.Applies? {
        assert more[|events|].Applies?;
      }
    }
  }

  lemma {:induction false} LoadingBuffers(events: seq<Event>)
    requires BeforeLoad(events)
    ensures Buffers(Run(EMPTY, events), events)
    decreases |events|
  {
    if events != [] {
      var n := |events| - 1;
      LoadingBuffers(events[..n]);
      RunAppends(EMPTY, events[..n], [events[n]]);
      assert events == events[..n] + [events[n]];
      assert Run(Run(EMPTY, events[..n]), [events[n]]) == Step(Run(EMPTY, events[..n]), events[n]);
      BuffersOneMore(Run(EMPTY, events[..n]), events[..n], events[n]);
    }
  }

  /**
    Loading the engine late is the same as having had it all along and seen only the first 512 frames
    that came before it was there.
  */
  lemma DelayedLoadRefinesEagerUse(before: seq<Event>, after: seq<Event>)
    requires BeforeLoad(before) && exists i :: 0 <= i < |before| && before[i].Applies?
    ensures Run(EMPTY, before + [Loads] + after)
         == Run(Registry(Ready, [], []), FramesAsEvents(First(Frames(before), MAX_PENDING)) + after)
  {
    var frames := First(Frames(before), MAX_PENDING);
    LoadingBuffers(before);
    RunAppends(EMPTY, before, [Loads]);
    RunAppends(EMPTY, before + [Loads], after);
    var loaded := Run(EMPTY, before);
    assert Run(loaded, [Loads]) == Step(loaded, Loads) == Registry(Ready, [], Fold([], frames));
    RunAppends(Registry(Ready, [], []), FramesAsEvents(frames), after);
    EagerFold([], frames);
  }

  function FramesAsEvents(frames: seq<Frame>): (r: seq<Event>)
    ensures |r| == |frames| && forall i :: 0 <= i < |r| ==> r[i] == Applies(frames[i])
  {
    seq(|frames|, i requires 0 <= i < |frames| => Applies(frames[i]))
  }

  lemma {:induction false} EagerFold(ts: seq<Terminal>, frames: seq<Frame>)
    ensures Run(Registry(Ready, [], ts), FramesAsEvents(frames)) == Registry(Ready, [], Fold(ts, frames))
    decreases |frames|
  {
    if frames != [] {
      assert FramesAsEvents(frames)[1..] == FramesAsEvents(frames[1..]);
      EagerFold(ApplyFrame(ts, frames[0]), frames[1..]);
    }
  }

  // ------------------------------------------------------------------ the object

  /** `TerminalStateRegistry`. */
  class TerminalStateRegistry {
    var engine: Engine
    var pending: seq<Frame>
    var terminals: seq<Terminal>

    ghost function Value(): Registry
      reads this
    {
      Registry(engine, pending, terminals)
    }

    constructor ()
      ensures Value() == EMPTY
    {
      engine, pending, terminals := Absent, [], [];
    }

    method Find(id: TerminalId) returns (at: Option<nat>)
      ensures at == Place(terminals, id)
    {
      for i := 0 to |terminals|
        invariant forall j :: 0 <= j < i ==> terminals[j].id != id
      {
        if terminals[i].id == id {
          FirstPlace(terminals, id, i);
          return Some(i);
        }
      }
      return None;
    }

    method FindOldestClosed() returns (at: Option<nat>)
      ensures at == OldestClosed(terminals)
    {
      for i := 0 to |terminals|
        invariant forall j :: 0 <= j < i ==> !terminals[j].closed
      {
        if terminals[i].closed { return Some(i); }
      }
      return None;
    }

    /** `#applyWithEngine`. */
    method ApplyWithEngine(f: Frame)
      modifies this`terminals
      ensures terminals == ApplyFrame(old(terminals), f)
    {
      match f {
        case Noise =>
        case Open(id, maybeCols, maybeRows, title) =>
          var cols, rows := OrElse(maybeCols, 80), OrElse(maybeRows, 24);
          var existing := Find(id);
          if existing.Some? {
            terminals := terminals[existing.value := Reopen(terminals[existing.value], cols, rows, title)];
            return;
          }
          if |terminals| >= MAX_TERMINALS {
            var oldestClosed := FindOldestClosed();
            if oldestClosed.None? { return; }
            terminals := terminals[..oldestClosed.value] + terminals[oldestClosed.value + 1..];
          }
          terminals := terminals + [Created(id, cols, rows, title)];
        case CloseFrame(id, reason) =>
          var at := Find(id);
          if at.None? { return; }
          terminals := terminals[at.value := Closed(terminals[at.value], reason)];
        case Output(id, sequence, data) =>
          var at := Find(id);
          if at.None? { return; }
          var t := terminals[at.value];
          if t.closed || sequence <= t.lastSequence {
            assert terminals[at.value := t] == terminals;
            return;
          }
          if sequence > t.lastSequence + 1 {
            t := t.(historyIncomplete := true);
          }
          t := t.(screen := t.screen + [Fed(sequence, data)]);
          t := t.(lastSequence := sequence);
          terminals := terminals[at.value := t];
      }
    }

    /** `apply`. */
    method Apply(f: Frame)
      modifies this
      ensures Value() == Step(old(Value()), Applies(f))
    {
      if engine.LoadFailed? { return; }
      if engine.Ready? {
        ApplyWithEngine(f);
        return;
      }
      if |pending| < MAX_PENDING {
        pending := pending + [f];
      }
      engine := Loading;
    }

    /** `resize`. */
    method Resize(id: TerminalId, cols: nat, rows: nat)
      modifies this`terminals
      ensures Value() == Step(old(Value()), Resizes(id, cols, rows))
    {
      var at := Find(id);
      if at.None? { return; }
      var t := terminals[at.value];
      if t.closed || (t.cols == cols && t.rows == rows) { return; }
      terminals := terminals[at.value := t.(cols := cols, rows := rows, screen := t.screen + [Resized(cols, rows)])];
    }

    /** `#ensureEngine` when the loader has answered. */
    method EngineLoaded(available: bool)
      requires engine.Loading?
      modifies this
      ensures Value() == Step(old(Value()), if available then Loads else FailsToLoad)
    {
      var frames := pending;
      pending := [];
      if !available {
        engine := LoadFailed;
        return;
      }
      engine := Ready;
      for i := 0 to |frames|
        invariant engine == Ready && pending == []
        invariant Fold(terminals, frames[i..]) == Fold(old(terminals), frames)
      {
        assert frames[i..][1..] == frames[i + 1..];
        ApplyWithEngine(frames[i]);
      }
    }

    /** `dispose`. */
    method Dispose()
      modifies this
      ensures Value() == Step(old(Value()), Disposes)
    {
      terminals := [];
      pending := [];
    }
  }

  lemma {:induction false} FirstPlace(ts: seq<Terminal>, id: TerminalId, i: nat)
    requires i < |ts| && ts[i].id == id && forall j :: 0 <= j < i ==> ts[j].id != id
    ensures Place(ts, id) == Some(i)
  {
    if i > 0 {
      FirstPlace(ts[1..], id, i - 1);
    }
  }
}
