/**
  The session host (apps/host/src/service.ts) as a step machine: one event per stretch of code
  between two `await`s, which JavaScript runs without interruption.  The environment (OMP, its
  client, the question broker, callers, crashes) chooses which enabled event comes next.
*/
module HostSteps {
  import opened Basics
  import opened Journal
  import J = CanonicalJson

  type WireId = nat
  type RuntimeId = nat

  /** The client of a runtime; `Connecting` means that it has not been assigned yet. */
  datatype Phase = Connecting | Ready | Closing | Closed

  /** A `Runtime` object.  It keeps receiving frames and continuations after it left the registry. */
  datatype Runtime = Runtime(
    sid: SessionId,
    phase: Phase,
    closing: bool,
    faulted: bool,
    active: Option<CommandId>,
    wires: map<WireId, CommandId>,
    timer: bool)

  /** A suspended `#dispatch`. */
  datatype Dispatch = Dispatch(rid: RuntimeId, cid: CommandId)
  datatype Await = ForAck | ForState

  /** A suspended `#stopSession`. */
  datatype StopStage = WaitingForStart | WaitingForClose

  /** A status change the store refused. */
  datatype Refused = Refused(key: Key, from: Option<Status>, to: Status, error: ErrorText)

  /**
    `registered` is `#runtimes`; `runtimes` holds every runtime object of this process.
    `sends` counts how often each command was handed to OMP's client or to the question broker,
    `handed` says through which runtime, and `refusals` lists refused status changes.
  */
  datatype Host = Host(
    tables: Tables,
    registered: map<SessionId, RuntimeId>,
    runtimes: map<RuntimeId, Runtime>,
    nextRid: RuntimeId,
    starting: set<SessionId>,
    stopping: map<SessionId, StopStage>,
    dispatches: map<Dispatch, Await>,
    responses: set<Key>,
    sends: multiset<Key>,
    handed: map<Key, RuntimeId>,
    refusals: seq<Refused>,
    shutting: bool)

  const INITIAL := Host(Tables(map[], map[]), map[], map[], 0, {}, map[], map[], {}, multiset{}, map[], [], false)

  /** What a caller sends; its identity for the journal is made of exactly these. */
  datatype Request = Request(device: J.Text, incarnation: J.Text, kind: Kind, payload: J.Value) {
    function Identity(): Journal.Identity { Journal.Identity(device, incarnation, KindText(kind), payload) }
  }

  datatype FailureCause = CommandRejected | TimedOutUndispatched | OtherFailure

  datatype AnswerOutcome = AnswerSent | AnswerSendFailed | AnswerRejected

  datatype Frame =
    | AgentStart
    | PromptResult(wire: Option<WireId>)
    | ResponseFailed(wire: Option<WireId>, errorBytes: nat)
    | AgentEnd(isTerminal: bool)
    | HostCallOverflow
    | OtherFrame

  datatype Event =
    | CreateSession(sid: SessionId, incarnation: J.Text)
    | Command(sid: SessionId, cid: CommandId, request: Request, pathOwned: bool, wire: Option<WireId>)
    | Ack(rid: RuntimeId, cid: CommandId, localOnly: bool)
    | Fail(rid: RuntimeId, cid: CommandId, cause: FailureCause, errorBytes: nat)
    | StateRead(rid: RuntimeId, cid: CommandId)
    | Respond(sid: SessionId, cid: CommandId, request: Request)
    | Answered(key: Key, outcome: AnswerOutcome, errorBytes: nat)
    | Received(rid: RuntimeId, frame: Frame)
    | ClientDown(rid: RuntimeId, phase: Phase)
    | Start(sid: SessionId)
    | Spawn(sid: SessionId, incarnation: J.Text)
    | SpawnRefused(sid: SessionId)
    | Connected(sid: SessionId)
    | MarkIdle(sid: SessionId)
    | Started(sid: SessionId)
    | StartFailing(sid: SessionId)
    | StartFailed(sid: SessionId, reaped: bool)
    | Stop(sid: SessionId)
    | StopProceed(sid: SessionId)
    | StopFinished(sid: SessionId, reaped: bool)
    | Lost(rid: RuntimeId)
    | Reconcile(sid: SessionId)
    | Shutdown
    | Restart

  /** The size of the error texts the host writes itself; all are far below the limit. */
  const OWN_TEXT: ErrorText := Some(64)

  // ------------------------------------------------------- which events can come

  /** The session is starting and its runtime exists. */
  predicate Spawned(h: Host, sid: SessionId) {
    sid in h.starting && sid in h.registered && h.registered[sid] in h.runtimes
  }

  /**
    The error texts of `Fail` and `Answered` come from `String(error)` of an `Error`, which begins with
    the name of its class and so is never empty; the one of a failed response is what OMP sent.
  */
  predicate Enabled(h: Host, e: Event) {
    match e
    case Command(_, _, _, _, wire) =>
      wire.Some? ==> forall rid | rid in h.runtimes :: wire.value !in h.runtimes[rid].wires
    case Ack(rid, cid, _) => Dispatch(rid, cid) in h.dispatches && h.dispatches[Dispatch(rid, cid)].ForAck?
    case Fail(rid, cid, _, bytes) => Dispatch(rid, cid) in h.dispatches && bytes > 0
    case StateRead(rid, cid) => Dispatch(rid, cid) in h.dispatches && h.dispatches[Dispatch(rid, cid)].ForState?
    case Respond(_, _, request) => request.kind.UiResponse?
    case Answered(k, _, bytes) => k in h.responses && bytes > 0
    case Received(rid, _) => rid in h.runtimes && !h.runtimes[rid].phase.Closed?
    case ClientDown(rid, p) =>
      && rid in h.runtimes
      && (h.runtimes[rid].phase.Ready? || h.runtimes[rid].phase.Closing?)
      && (p.Closing? || p.Closed?)
    case Spawn(sid, _) => sid in h.starting && sid !in h.registered
    case SpawnRefused(sid) => sid in h.starting && sid !in h.registered
    case Connected(sid) => Spawned(h, sid) && h.runtimes[h.registered[sid]].phase.Connecting? && !h.runtimes[h.registered[sid]].closing
    case MarkIdle(sid) => Spawned(h, sid) && !h.runtimes[h.registered[sid]].phase.Connecting? && !h.runtimes[h.registered[sid]].closing
    case Started(sid) => Spawned(h, sid) && !h.runtimes[h.registered[sid]].phase.Connecting? && !h.runtimes[h.registered[sid]].closing
    case StartFailing(sid) => Spawned(h, sid) && !h.runtimes[h.registered[sid]].closing
    case StartFailed(sid, _) => Spawned(h, sid) && h.runtimes[h.registered[sid]].closing
    case StopProceed(sid) => sid in h.stopping && h.stopping[sid].WaitingForStart? && sid !in h.starting
    case StopFinished(sid, _) => sid in h.stopping && h.stopping[sid].WaitingForClose?
    case Lost(rid) => rid in h.runtimes && h.runtimes[rid].timer && h.runtimes[rid].phase.Closed?
    case _ => true
  }

  // ------------------------------------------------------------------- pieces

  function WithRuntime(h: Host, rid: RuntimeId, rt: Runtime): Host {
    h.(runtimes := h.runtimes[rid := rt])
  }

  function StatusAt(h: Host, k: Key): Option<Status> {
    if k in h.tables.commands then Some(h.tables.commands[k].status) else None
  }

  /** A status change as the host requests it from the store; a refusal is logged. */
  function ChangeStatus(h: Host, k: Key, next: Status, error: ErrorText): (Host, bool) {
    var (t, accepted) := Transition(h.tables, k, next, error);
    if accepted then (h.(tables := t), true)
    else (h.(refusals := h.refusals + [Refused(k, StatusAt(h, k), next, error)]), false)
  }

  function SetStatus(h: Host, sid: SessionId, status: SessionStatus): Host {
    h.(tables := WithStatus(h.tables, sid, status))
  }

  /** Clears `activeCommand` when it is this command. */
  function ClearActive(h: Host, rid: RuntimeId, cid: CommandId): Host {
    if rid in h.runtimes && h.runtimes[rid].active == Some(cid)
    then WithRuntime(h, rid, h.runtimes[rid].(active := None)) else h
  }

  function WithoutCommand(wires: map<WireId, CommandId>, cid: CommandId): map<WireId, CommandId> {
    map w | w in wires && wires[w] != cid :: wires[w]
  }

  /** `#forgetWireCommand`. */
  function ForgetWires(h: Host, rid: RuntimeId, cid: CommandId): Host {
    if rid in h.runtimes
    then WithRuntime(h, rid, h.runtimes[rid].(wires := WithoutCommand(h.runtimes[rid].wires, cid))) else h
  }

  function DropDispatch(h: Host, d: Dispatch): Host {
    h.(dispatches := h.dispatches - {d})
  }

  function MarkClosing(rt: Runtime): Runtime {
    rt.(closing := true, phase := if rt.phase.Ready? then Closing else rt.phase)
  }

  /** `#complete`: false when the store refused. */
  function Complete(h: Host, rid: RuntimeId, cid: CommandId): (Host, bool)
    requires rid in h.runtimes
  {
    var k := Key(h.runtimes[rid].sid, cid);
    if k in h.tables.commands && !IsTerminal(h.tables.commands[k].status) then
      var (g, accepted) := ChangeStatus(h, k, Completed, None);
      if accepted then (ForgetWires(ClearActive(g, rid, cid), rid, cid), true) else (g, false)
    else (ForgetWires(ClearActive(h, rid, cid), rid, cid), true)
  }

  /** The catch branch of `#onFrame`. */
  function Fault(h: Host, rid: RuntimeId): Host
    requires rid in h.runtimes
  {
    var rt := h.runtimes[rid];
    WithRuntime(h, rid, rt.(faulted := true, phase := if rt.phase.Ready? then Closing else rt.phase))
  }

  /** The end of `#dispatch`. */
  function Settle(h: Host, rid: RuntimeId, cid: CommandId): Host
    requires rid in h.runtimes
  {
    var k := Key(h.runtimes[rid].sid, cid);
    var g := if k in h.tables.commands && IsTerminal(h.tables.commands[k].status) && !h.tables.commands[k].status.OutcomeUnknown?
             then ForgetWires(h, rid, cid) else h;
    DropDispatch(g, Dispatch(rid, cid))
  }

  function CauseStatus(cause: FailureCause): Status {
    match cause
    case CommandRejected => Failed
    case TimedOutUndispatched => NotDispatched
    case OtherFailure => OutcomeUnknown
  }

  /** After a stored failure the command stops being active, unless its outcome is unknown. */
  function CaughtTail(h: Host, rid: RuntimeId, cid: CommandId): Host
    requires rid in h.runtimes
  {
    var known := StatusAt(h, Key(h.runtimes[rid].sid, cid)) != Some(OutcomeUnknown);
    Settle(if known then ClearActive(h, rid, cid) else h, rid, cid)
  }

  /** The outcome stored by the catch branch of `#dispatch`, unless the row was final before. */
  function StoredCause(h: Host, rid: RuntimeId, cid: CommandId, cause: FailureCause, error: ErrorText): (Host, bool)
    requires rid in h.runtimes
  {
    var k := Key(h.runtimes[rid].sid, cid);
    if k in h.tables.commands && IsTerminal(h.tables.commands[k].status) then (h, true)
    else ChangeStatus(h, k, CauseStatus(cause), error)
  }

  /** The catch branch of `#dispatch`; a refused change escapes from it. */
  function Caught(h: Host, rid: RuntimeId, cid: CommandId, cause: FailureCause, error: ErrorText): Host
    requires rid in h.runtimes
  {
    if Key(h.runtimes[rid].sid, cid) !in h.tables.commands then DropDispatch(h, Dispatch(rid, cid))
    else
      var (g, accepted) := StoredCause(h, rid, cid, cause, error);
      if accepted then CaughtTail(g, rid, cid) else DropDispatch(g, Dispatch(rid, cid))
  }

  /** `#lost`, with its guard. */
  function Lose(h: Host, rid: RuntimeId): Host
    requires rid in h.runtimes
  {
    var rt := h.runtimes[rid];
    if rt.sid !in h.registered || h.registered[rt.sid] != rid || rt.closing then h
    else
      var g := WithRuntime(h, rid, rt.(closing := true));
      g.(registered := g.registered - {rt.sid},
         tables := WithStatus(UnknownIn(g.tables, rt.sid), rt.sid, RecoveryRequired))
  }

  // ------------------------------------------------------------------- events

  /** The runtime through which a command of this kind could be dispatched now. */
  predicate CanDispatch(h: Host, sid: SessionId, kind: Kind) {
    && sid in h.registered && h.registered[sid] in h.runtimes
    && var rt := h.runtimes[h.registered[sid]];
       rt.phase.Ready? && !rt.closing && (IsTurn(kind) ==> rt.active.None?)
  }

  function HandOver(h: Host, k: Key, kind: Kind, wire: Option<WireId>): Host
    requires k.sid in h.registered && h.registered[k.sid] in h.runtimes
  {
    var rid := h.registered[k.sid];
    var rt := h.runtimes[rid];
    var wires := if wire.Some? then rt.wires[wire.value := k.cid] else rt.wires;
    var active := if IsTurn(kind) then Some(k.cid) else rt.active;
    WithRuntime(h, rid, rt.(active := active, wires := wires)).(
      dispatches := h.dispatches[Dispatch(rid, k.cid) := ForAck],
      sends := h.sends + multiset{k},
      handed := h.handed[k := rid])
  }

  function OnCommand(h: Host, k: Key, request: Request, pathOwned: bool, wire: Option<WireId>): Host {
    if h.shutting || request.kind.UiResponse? || k.sid !in h.tables.sessions then h
    else if k !in h.tables.commands
         && (request.incarnation != h.tables.sessions[k.sid].incarnation || k.sid in h.starting) then h
    else if request.kind.SwitchSession? && !pathOwned then h
    else
      var (t, r) := Claim(h.tables, k, request.kind, request.Identity());
      if !r.ClaimCreated? then h
      else
        var g := h.(tables := t);
        if CanDispatch(g, k.sid, request.kind) then HandOver(g, k, request.kind, wire)
        else ChangeStatus(g, k, NotDispatched, OWN_TEXT).0
  }

  function OnAck(h: Host, rid: RuntimeId, cid: CommandId, localOnly: bool): Host {
    if rid !in h.runtimes then h
    else
      var k := Key(h.runtimes[rid].sid, cid);
      if k !in h.tables.commands then DropDispatch(h, Dispatch(rid, cid))
      else
        var row := h.tables.commands[k];
        var awaitsTurn := IsTurn(row.kind) && !localOnly;
        var (g, accepted) := if IsTerminal(row.status) then (h, true)
                             else ChangeStatus(h, k, if awaitsTurn then Acknowledged else Completed, None);
        if !accepted then Caught(g, rid, cid, OtherFailure, OWN_TEXT)
        else
          var g' := if !IsTerminal(row.status) && !awaitsTurn then ClearActive(g, rid, cid) else g;
          if ChangesSession(row.kind) then g'.(dispatches := g'.dispatches[Dispatch(rid, cid) := ForState])
          else Settle(g', rid, cid)
  }

  function OnRespond(h: Host, k: Key, request: Request): Host {
    if h.shutting || k.sid !in h.tables.sessions then h
    else if k !in h.tables.commands && request.incarnation != h.tables.sessions[k.sid].incarnation then h
    else
      var (t, r) := Claim(h.tables, k, UiResponse, request.Identity());
      if !r.ClaimCreated? then h
      else
        var g := h.(tables := t);
        if k.sid in g.registered && g.registered[k.sid] in g.runtimes && !g.runtimes[g.registered[k.sid]].closing
        then g.(responses := g.responses + {k}, sends := g.sends + multiset{k}, handed := g.handed[k := g.registered[k.sid]])
        else ChangeStatus(g, k, NotDispatched, OWN_TEXT).0
  }

  function OnAnswered(h: Host, k: Key, outcome: AnswerOutcome, error: ErrorText): Host {
    var g := h.(responses := h.responses - {k});
    match outcome
    case AnswerSent =>
      var (g', accepted) := ChangeStatus(g, k, Completed, None);
      if accepted then g' else ChangeStatus(g', k, NotDispatched, OWN_TEXT).0
    case AnswerSendFailed => ChangeStatus(g, k, OutcomeUnknown, error).0
    case AnswerRejected => ChangeStatus(g, k, NotDispatched, error).0
  }

  /** A failed response to the command's own request: false when the store refused. */
  function FailCommand(h: Host, rid: RuntimeId, cid: CommandId, bytes: nat): (Host, bool)
    requires rid in h.runtimes
  {
    var k := Key(h.runtimes[rid].sid, cid);
    var (g, accepted) := if k in h.tables.commands && !IsTerminal(h.tables.commands[k].status)
                         then ChangeStatus(h, k, Failed, Some(bytes)) else (h, true);
    (if accepted then ClearActive(g, rid, cid) else g, accepted)
  }

  function OnFrame(h: Host, rid: RuntimeId, f: Frame): Host
    requires rid in h.runtimes
  {
    var rt := h.runtimes[rid];
    if rt.faulted then h
    else
      match f
      case AgentStart => SetStatus(h, rt.sid, Running)
      case PromptResult(wire) =>
        if wire.Some? && wire.value in rt.wires then
          var (g, accepted) := Complete(h, rid, rt.wires[wire.value]);
          if accepted then g else Fault(g, rid)
        else h
      case ResponseFailed(wire, bytes) =>
        if wire.Some? && wire.value in rt.wires then
          var (g, accepted) := FailCommand(h, rid, rt.wires[wire.value], bytes);
          if accepted then g else Fault(g, rid)
        else h
      case AgentEnd(isTerminal) =>
        if !isTerminal then h
        else
          var (g, accepted) := if rt.active.Some? then Complete(h, rid, rt.active.value) else (h, true);
          if accepted then SetStatus(g, rt.sid, Idle) else Fault(g, rid)
      case HostCallOverflow => Fault(h, rid)
      case OtherFrame => h
  }

  function OnStart(h: Host, sid: SessionId): Host {
    if h.shutting || sid in h.stopping then h
    else if sid in h.registered && h.registered[sid] in h.runtimes
            && h.runtimes[h.registered[sid]].phase.Ready? && !h.runtimes[h.registered[sid]].closing then h
    else if sid in h.starting then h
    else if sid in h.registered && h.registered[sid] in h.runtimes then Lose(h, h.registered[sid])
    else if sid !in h.tables.sessions || h.tables.sessions[sid].status.RecoveryRequired? then h
    else h.(starting := h.starting + {sid})
  }

  function OnSpawn(h: Host, sid: SessionId, incarnation: J.Text): Host {
    if sid !in h.tables.sessions then h.(starting := h.starting - {sid})
    else
      h.(tables := h.tables.(sessions := h.tables.sessions[sid := h.tables.sessions[sid].(incarnation := incarnation)]),
         runtimes := h.runtimes[h.nextRid := Runtime(sid, Connecting, false, false, None, map[], false)],
         registered := h.registered[sid := h.nextRid],
         nextRid := h.nextRid + 1)
  }

  /** The part of `#stopSession` up to the client's close. */
  function StopRuntime(h: Host, sid: SessionId): Host {
    if sid in h.registered && h.registered[sid] in h.runtimes then
      var rid := h.registered[sid];
      WithRuntime(h, rid, MarkClosing(h.runtimes[rid])).(stopping := h.stopping[sid := WaitingForClose])
    else h.(stopping := h.stopping - {sid})
  }

  function OnStop(h: Host, sid: SessionId): Host {
    if sid in h.stopping then h
    else if sid in h.starting then h.(stopping := h.stopping[sid := WaitingForStart])
    else StopRuntime(h, sid)
  }

  function OnStopFinished(h: Host, sid: SessionId, reaped: bool): Host {
    var g := h.(stopping := h.stopping - {sid});
    if !reaped || sid !in g.registered || g.registered[sid] !in g.runtimes then g
    else
      var rid := g.registered[sid];
      WithRuntime(g, rid, g.runtimes[rid].(phase := Closed)).(
        registered := g.registered - {sid},
        tables := WithStatus(UnknownIn(g.tables, sid), sid, Stopped))
  }

  function OnStartFailed(h: Host, sid: SessionId, reaped: bool): Host
    requires Spawned(h, sid)
  {
    var rid := h.registered[sid];
    var g := if reaped then WithRuntime(h, rid, h.runtimes[rid].(phase := Closed)) else h;
    g.(registered := g.registered - {sid}, starting := g.starting - {sid}, tables := WithStatus(g.tables, sid, Stopped))
  }

  function OnReconcile(h: Host, sid: SessionId): Host {
    if h.shutting || sid in h.registered || sid !in h.tables.sessions then h
    else if !h.tables.sessions[sid].status.RecoveryRequired? then h
    else SetStatus(h, sid, Stopped)
  }

  /** A crash at any point, and the next host opening the same store. */
  function OnRestart(h: Host): Host {
    h.(tables := Recover(h.tables), registered := map[], runtimes := map[], starting := {},
       stopping := map[], dispatches := map[], responses := {}, shutting := false)
  }

  function Step(h: Host, e: Event): Host
    requires Enabled(h, e)
  {
    match e
    case CreateSession(sid, incarnation) =>
      if h.shutting || sid in h.tables.sessions then h
      else h.(tables := h.tables.(sessions := h.tables.sessions[sid := Session(Idle, incarnation)]))
    case Command(sid, cid, request, pathOwned, wire) => OnCommand(h, Key(sid, cid), request, pathOwned, wire)
    case Ack(rid, cid, localOnly) => OnAck(h, rid, cid, localOnly)
    case Fail(rid, cid, cause, bytes) => if rid in h.runtimes then Caught(h, rid, cid, cause, Some(bytes)) else h
    case StateRead(rid, cid) => if rid in h.runtimes then Settle(h, rid, cid) else h
    case Respond(sid, cid, request) => OnRespond(h, Key(sid, cid), request)
    case Answered(k, outcome, bytes) => OnAnswered(h, k, outcome, Some(bytes))
    case Received(rid, f) => OnFrame(h, rid, f)
    case ClientDown(rid, p) => WithRuntime(h, rid, h.runtimes[rid].(phase := p))
    case Start(sid) => OnStart(h, sid)
    case Spawn(sid, incarnation) => OnSpawn(h, sid, incarnation)
    case SpawnRefused(sid) => h.(starting := h.starting - {sid})
    case Connected(sid) =>
      WithRuntime(h, h.registered[sid], h.runtimes[h.registered[sid]].(phase := Ready))
    case MarkIdle(sid) => SetStatus(h, sid, Idle)
    case Started(sid) =>
      WithRuntime(h, h.registered[sid], h.runtimes[h.registered[sid]].(timer := true)).(starting := h.starting - {sid})
    case StartFailing(sid) =>
      WithRuntime(h, h.registered[sid], MarkClosing(h.runtimes[h.registered[sid]]))
    case StartFailed(sid, reaped) => OnStartFailed(h, sid, reaped)
    case Stop(sid) => OnStop(h, sid)
    case StopProceed(sid) => StopRuntime(h, sid)
    case StopFinished(sid, reaped) => OnStopFinished(h, sid, reaped)
    case Lost(rid) => Lose(h, rid)
    case Reconcile(sid) => OnReconcile(h, sid)
    case Shutdown => h.(shutting := true)
    case Restart => OnRestart(h)
  }
}
