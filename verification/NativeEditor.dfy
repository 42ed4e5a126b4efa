/**
  The bridge between one OMP process and the editor channel (apps/host/src/native-editor.ts): a workspace
  that an editor ever owned is never again written behind the editor's back.
*/
module NativeEditor {
  import opened Basics
  import opened NativeDisk
  import Editors
  import EditorConnections
  import EditorOutcomes

  const MAX_KNOWN := 8192

  datatype Document = Document(path: string, uri: string)

  // ------------------------------------------------------------ the whole system

  /**
    The channel, what this bridge remembers, the snapshots it waits for, whether one ever returned a
    document, and how many disk transactions came as far as their first write.
  */
  datatype System = System(
    channel: Editors.State,
    known: set<string>,
    aliases: map<string, string>,
    reading: set<Editors.RequestId>,
    sawDocument: bool,
    diskEffects: nat)

  const START := System(Editors.EMPTY, {}, map[], {}, false, 0)

  datatype Event =
    | Channel(event: Editors.Event)
    | SnapshotBegins(lexical: string, canonical: string, aborted: bool, now: int, clock: int)
    | SnapshotEnds(request: Editors.RequestId, lexical: string, canonical: string, wasKnown: bool, document: Option<Document>)
    | SnapshotFails(request: Editors.RequestId)
    | Learns(path: string)
    | Forgets(path: string)
    | AppliesDisk(canonical: string, wellFormed: bool, aborted: bool, startsEffect: bool)

  /** `#applyDisk` hands the request to the disk transaction. */
  predicate MayWriteDisk(s: System, cwd: Option<Path>, canonical: string) {
    !Editors.HasRegisteredWorkspace(s.channel.roots, cwd) && canonical !in s.known
  }

  /** A disk transaction starts its effect only after it resolved the workspace itself. */
  predicate Enabled(s: System, cwd: Option<Path>, e: Event) {
    match e
    case SnapshotEnds(request, _, _, _, _) => request in s.reading
    case AppliesDisk(canonical, wellFormed, aborted, startsEffect) =>
      startsEffect ==> wellFormed && !aborted && cwd.Some? && MayWriteDisk(s, cwd, canonical)
    case _ => true
  }

  /** `snapshot` up to the request it sends to the editor; the flag tells whether it is sent. */
  function BeginSnapshot(s: System, cwd: Option<Path>, lexical: string, canonical: string, aborted: bool, now: int, clock: int): System {
    if cwd.None? || !Editors.HasConnection(s.channel.clients, cwd.value, now) then s
    else if canonical !in s.known && |s.known| >= MAX_KNOWN then s
    else if lexical !in s.aliases && |s.aliases| >= MAX_KNOWN then s
    else
      var (channel, r) := Editors.Ask(s.channel, cwd, true, aborted, now, clock);
      s.(channel := channel, known := s.known + {canonical}, aliases := s.aliases[lexical := canonical],
         reading := if r.Success? then s.reading + {r.value} else s.reading)
  }

  /** `snapshot` after the editor answered: a document, or none. */
  function EndSnapshot(s: System, request: Editors.RequestId, lexical: string, canonical: string, wasKnown: bool, document: Option<Document>): System {
    var g := s.(reading := s.reading - {request});
    match document
    case Some(d) => g.(known := g.known + {d.path, d.uri}, sawDocument := true)
    case None => if wasKnown then g else g.(known := g.known - {canonical}, aliases := g.aliases - {lexical})
  }

  function Step(s: System, cwd: Option<Path>, e: Event): System {
    match e
    case Channel(event) => s.(channel := Editors.Step(s.channel, event))
    case SnapshotBegins(lexical, canonical, aborted, now, clock) => BeginSnapshot(s, cwd, lexical, canonical, aborted, now, clock)
    case SnapshotEnds(request, lexical, canonical, wasKnown, document) => EndSnapshot(s, request, lexical, canonical, wasKnown, document)
    case SnapshotFails(request) => s.(reading := s.reading - {request})
    case Learns(path) => s.(known := s.known + {path})
    case Forgets(path) => s.(known := s.known - {path})
    case AppliesDisk(_, _, _, startsEffect) => if startsEffect then s.(diskEffects := s.diskEffects + 1) else s
  }

  ghost predicate IsRun(cwd: Option<Path>, trace: seq<System>, events: seq<Event>) {
    && |trace| == |events| + 1 && trace[0] == START
    && forall i {:trigger events[i]} :: 0 <= i < |events| ==> Enabled(trace[i], cwd, events[i]) && trace[i + 1] == Step(trace[i], cwd, events[i])
  }

  // ------------------------------------------------------------------ exclusion

  /** An editor owns the workspace: an overlapping root was registered. */
  predicate Owned(s: System, cwd: Option<Path>) { Editors.HasRegisteredWorkspace(s.channel.roots, cwd) }

  /** A snapshot in flight, or one that returned a document, had an owner. */
  ghost predicate Inv(s: System, cwd: Option<Path>) {
    && Editors.Inv(s.channel)
    && (s.sawDocument || s.reading != {} ==> Owned(s, cwd))
  }

  lemma MoreRootsStillOwned(a: set<Path>, b: set<Path>, cwd: Option<Path>)
    requires a <= b && Editors.HasRegisteredWorkspace(a, cwd)
    ensures Editors.HasRegisteredWorkspace(b, cwd)
  {
  }

  /** A window that serves a directory registered a root that contains it. */
  lemma ConnectionIsOwned(channel: Editors.State, cwd: Path, now: int)
    requires Editors.Inv(channel) && Editors.HasConnection(channel.clients, cwd, now)
    ensures Editors.HasRegisteredWorkspace(channel.roots, Some(cwd))
  {
    var i :| 0 <= i < |channel.clients| && Editors.Serves(channel.clients[i], cwd, now);
    var c := channel.clients[i];
    var j :| 0 <= j < |c.roots| && Within(c.roots[j], cwd);
    assert c in channel.clients && c.roots[j] in c.roots;
    assert c.roots[j] in channel.roots && Editors.Overlaps(c.roots[j], cwd);
  }

  lemma BeginKeepsInv(s: System, cwd: Option<Path>, lexical: string, canonical: string, aborted: bool, now: int, clock: int)
    requires Inv(s, cwd)
    ensures var g := BeginSnapshot(s, cwd, lexical, canonical, aborted, now, clock); Inv(g, cwd) && (Owned(s, cwd) ==> Owned(g, cwd))
  {
    Editors.AskKeepsInv(s.channel, cwd, true, aborted, now, clock);
    if cwd.Some? && Editors.HasConnection(s.channel.clients, cwd.value, now) {
      ConnectionIsOwned(s.channel, cwd.value, now);
    }
  }

  lemma StepKeepsInv(s: System, cwd: Option<Path>, e: Event)
    requires Inv(s, cwd) && Enabled(s, cwd, e)
    ensures Inv(Step(s, cwd, e), cwd)
    ensures Owned(s, cwd) ==> Owned(Step(s, cwd, e), cwd) && Step(s, cwd, e).diskEffects == s.diskEffects
  {
    match e {
      case Channel(event) =>
        Editors.StepKeepsInv(s.channel, event);
        Editors.StepKeepsRoots(s.channel, event);
        if Owned(s, cwd) {
          MoreRootsStillOwned(s.channel.roots, Editors.Step(s.channel, event).roots, cwd);
        }
      case SnapshotBegins(lexical, canonical, aborted, now, clock) => BeginKeepsInv(s, cwd, lexical, canonical, aborted, now, clock);
      case _ =>
    }
  }

  lemma StepAt(cwd: Option<Path>, trace: seq<System>, events: seq<Event>, i: nat)
    requires IsRun(cwd, trace, events) && i < |events| && Inv(trace[i], cwd)
    ensures Inv(trace[i + 1], cwd)
    ensures Owned(trace[i], cwd) ==> Owned(trace[i + 1], cwd) && trace[i + 1].diskEffects == trace[i].diskEffects
  {
    assert Enabled(trace[i], cwd, events[i]);
    StepKeepsInv(trace[i], cwd, events[i]);
  }

  lemma {:induction false} RunKeepsInv(cwd: Option<Path>, trace: seq<System>, events: seq<Event>, i: nat)
    requires IsRun(cwd, trace, events) && i < |trace|
    ensures Inv(trace[i], cwd)
  {
    if i == 0 {
      Editors.EmptyInv();
    } else {
      RunKeepsInv(cwd, trace, events, i - 1);
      StepAt(cwd, trace, events, i - 1);
    }
  }

  lemma {:induction false} OwnedForever(cwd: Option<Path>, trace: seq<System>, events: seq<Event>, i: nat, j: nat)
    requires IsRun(cwd, trace, events) && i <= j < |trace| && Owned(trace[i], cwd)
    ensures Owned(trace[j], cwd) && trace[j].diskEffects == trace[i].diskEffects
    decreases j - i
  {
    if i < j {
      OwnedForever(cwd, trace, events, i, j - 1);
      RunKeepsInv(cwd, trace, events, j - 1);
      StepAt(cwd, trace, events, j - 1);
    }
  }

  lemma OwnersExcludeHeadlessWrites(cwd: Option<Path>, trace: seq<System>, events: seq<Event>, i: nat, j: nat)
    requires IsRun(cwd, trace, events) && i <= j < |trace|
    requires Owned(trace[i], cwd) || trace[i].sawDocument
    ensures trace[j].diskEffects == trace[i].diskEffects
  {
    RunKeepsInv(cwd, trace, events, i);
    OwnedForever(cwd, trace, events, i, j);
  }

  /** A window registers a root above the workspace, at it, or below it. */
  ghost predicate RegistersOverlap(s: System, cwd: Option<Path>, e: Event) {
    && e.Channel? && e.event.Registers?
    && EditorOutcomes.MayRegister(s.channel, e.event.id, e.event.validId, e.event.paths, e.event.now)
    && cwd.Some? && exists r :: Some(r) in e.event.paths && (r <= cwd.value || cwd.value <= r)
  }

  /** A snapshot returns a document. */
  predicate ShowsDocument(e: Event) { e.SnapshotEnds? && e.document.Some? }

  lemma RegisteredIsOwned(s: System, cwd: Option<Path>, e: Event)
    requires Inv(s, cwd) && RegistersOverlap(s, cwd, e)
    ensures Owned(Step(s, cwd, e), cwd)
  {
    EditorOutcomes.RegisterOutcome(s.channel, e.event.id, e.event.validId, e.event.paths, e.event.now);
    EditorOutcomes.WorkspaceTold(Step(s, cwd, e).channel.roots, cwd);
    var r :| Some(r) in e.event.paths && (r <= cwd.value || cwd.value <= r);
    assert Some(r).value in EditorOutcomes.Values(e.event.paths);
  }

  /** A disk transaction that comes as far as its first write. */
  predicate StartsWriting(e: Event) { e.AppliesDisk? && e.startsEffect }

  /**
    Once a window registered a root above, at or below the workspace, or any snapshot returned a document,
    no disk transaction of this bridge starts its effect, even after all windows are gone.
  */
  lemma EditorsExcludeHeadlessWrites(cwd: Option<Path>, trace: seq<System>, events: seq<Event>, i: nat, j: nat)
    requires IsRun(cwd, trace, events) && i < j < |events|
    requires RegistersOverlap(trace[i], cwd, events[i]) || ShowsDocument(events[i])
    ensures !StartsWriting(events[j])
  {
    RunKeepsInv(cwd, trace, events, i);
    assert Enabled(trace[i], cwd, events[i]) && trace[i + 1] == Step(trace[i], cwd, events[i]);
    if RegistersOverlap(trace[i], cwd, events[i]) {
      RegisteredIsOwned(trace[i], cwd, events[i]);
    }
    OwnersExcludeHeadlessWrites(cwd, trace, events, i + 1, j);
    OwnersExcludeHeadlessWrites(cwd, trace, events, i + 1, j + 1);
    assert Enabled(trace[j], cwd, events[j]) && trace[j + 1] == Step(trace[j], cwd, events[j]);
  }

  /** What a snapshot remembers before its request: only for a connected workspace, and within the capacities. */
  lemma BeginOutcome(s: System, cwd: Option<Path>, lexical: string, canonical: string, aborted: bool, now: int, clock: int)
    ensures var g := Step(s, cwd, SnapshotBegins(lexical, canonical, aborted, now, clock));
            if cwd.None? || !(exists c :: c in s.channel.clients && EditorOutcomes.ServesAt(c, cwd.value, now))
               || (canonical !in s.known && |s.known| >= 8192) || (lexical !in s.aliases && |s.aliases| >= 8192)
            then g == s
            else
              && g == s.(channel := g.channel, known := s.known + {canonical}, aliases := s.aliases[lexical := canonical], reading := g.reading)
              && g.channel == Editors.Step(s.channel, Editors.Asks(cwd, true, aborted, now, clock))
              && g.reading == s.reading + (if g.channel == s.channel then {} else {s.channel.nextId})
  {
    if cwd.Some? {
      EditorOutcomes.ConnectionTold(s.channel.clients, cwd.value, now);
    }
    AskedOrNot(s.channel, cwd, aborted, now, clock);
  }

  /** A request that is made takes the next number, and one that is refused changes nothing. */
  lemma AskedOrNot(channel: Editors.State, cwd: Option<Path>, aborted: bool, now: int, clock: int)
    ensures var (g, r) := Editors.Ask(channel, cwd, true, aborted, now, clock);
            if r.Success? then r.value == channel.nextId && g != channel else g == channel
  {
  }

  /** What it remembers by its answer: the paths of the document; without one, a path that was not known before is forgotten. */
  lemma EndOutcome(s: System, cwd: Option<Path>, request: Editors.RequestId, lexical: string, canonical: string, wasKnown: bool, document: Option<Document>)
    ensures var g := Step(s, cwd, SnapshotEnds(request, lexical, canonical, wasKnown, document));
            && g == s.(reading := s.reading - {request}, known := g.known, aliases := g.aliases, sawDocument := s.sawDocument || document.Some?)
            && (document.Some? ==> g.known == s.known + {document.value.path, document.value.uri} && g.aliases == s.aliases)
            && (document.None? && wasKnown ==> g.known == s.known && g.aliases == s.aliases)
            && (document.None? && !wasKnown ==> g.known == s.known - {canonical} && g.aliases == s.aliases - {lexical})
  {
  }

  // ------------------------------------------------------------------ the object

  datatype Refusal = NotAllowed | Disk(error: DiskError)

  class Bridge {
    const editors: EditorConnections.Connections
    const cwd: Option<Path>
    var knownPaths: set<string>
    var aliases: map<string, string>
    ghost var reading: set<Editors.RequestId>
    ghost var sawDocument: bool
    ghost var diskEffects: nat

    ghost function Value(): System
      reads this, editors
    {
      System(editors.Value(), knownPaths, aliases, reading, sawDocument, diskEffects)
    }

    constructor (editors: EditorConnections.Connections, cwd: Option<Path>)
      ensures this.editors == editors && this.cwd == cwd
      ensures Value() == System(editors.Value(), {}, map[], {}, false, 0)
    {
      this.editors, this.cwd := editors, cwd;
      knownPaths, aliases, reading, sawDocument, diskEffects := {}, map[], {}, false, 0;
    }

    /** `snapshot` up to its request. */
    method SnapshotBegins(lexical: string, canonical: string, aborted: bool, now: int, clock: int)
      modifies this, editors
      ensures Value() == BeginSnapshot(old(Value()), cwd, lexical, canonical, aborted, now, clock)
    {
      if cwd.None? { return; }
      var connected := editors.HasConnection(cwd.value, now);
      if !connected { return; }
      if canonical !in knownPaths && |knownPaths| >= MAX_KNOWN { return; }
      if lexical !in aliases && |aliases| >= MAX_KNOWN { return; }
      aliases := aliases[lexical := canonical];
      knownPaths := knownPaths + {canonical};
      var asked := editors.Request(cwd, true, aborted, now, clock);
      if asked.Success? {
        reading := reading + {asked.value};
      }
    }

    /** `snapshot` after its request. */
    method SnapshotEnds(ghost request: Editors.RequestId, lexical: string, canonical: string, wasKnown: bool, document: Option<Document>)
      modifies this
      ensures Value() == EndSnapshot(old(Value()), request, lexical, canonical, wasKnown, document)
    {
      reading := reading - {request};
      if document.None? && !wasKnown {
        knownPaths := knownPaths - {canonical};
        aliases := aliases - {lexical};
      }
      if document.Some? {
        knownPaths := knownPaths + {document.value.path};
        knownPaths := knownPaths + {document.value.uri};
        sawDocument := true;
        assert knownPaths == old(knownPaths) + {document.value.path, document.value.uri};
      }
    }

    /**
      `#applyDisk`: the ownership check and the whole disk transaction in one step.  The file changes, or
      may have changed, only when no editor ever owned the workspace and the path is unknown to it.
    */
    method ApplyDisk(canonical: string, wellFormed: bool, aborted: bool, request: NativeDisk.Request, paths: Paths, disk: NativeDisk.Disk)
        returns (r: Result<Path, Refusal>, ghost event: Event)
      requires paths.root.Some? ==> paths.root == cwd
      modifies this`diskEffects, disk
      ensures event.AppliesDisk? && event.canonical == canonical && Enabled(old(Value()), cwd, event)
      ensures Value() == Step(old(Value()), cwd, event)
      ensures event.startsEffect <==> disk.effects > old(disk.effects)
      ensures !event.startsEffect ==> disk.file == old(disk.file)
      ensures r.Success? ==> old(disk.file) == request.expectedText && disk.file == request.content
      ensures !wellFormed || aborted || canonical in old(knownPaths)
              || (cwd.Some? && exists root :: root in old(editors.registeredRoots) && (root <= cwd.value || cwd.value <= root))
              ==> r == Failure(NotAllowed) && disk.effects == old(disk.effects)
    {
      event := AppliesDisk(canonical, wellFormed, aborted, false);
      if aborted || !wellFormed { return Failure(NotAllowed), event; }
      var owned := editors.HasRegisteredWorkspace(cwd);
      if owned || canonical in knownPaths { return Failure(NotAllowed), event; }
      var applied := ApplyNativeDisk(request, paths, disk);
      if applied.Success? || applied.error.mayHaveApplied {
        event := AppliesDisk(canonical, wellFormed, aborted, true);
        diskEffects := diskEffects + 1;
      }
      r := if applied.Success? then Success(applied.value) else Failure(Disk(applied.error));
    }
  }
}
