/**
  What each event leaves alone: the frame conditions from which the theorems about runs are built.

  An event of one runtime touches the rows handed to it and nothing of any other; a call touches the
  row of its command alone; starting, stopping and losing processes is calm, it sends nothing, hands
  nothing over and refuses nothing.  Beside each of these stands what it does to the rows of the
  store: they advance along the status graph or stay.
*/
module HostEffects {
  import opened Basics
  import opened Journal
  import opened HostSteps
  import opened HostInvariant
  import opened HostPreservation
  import J = CanonicalJson

  /** A row only gains history, keeps its identity, and is final once it is terminal. */
  ghost predicate RowAdvances(a: Row, b: Row) {
    && b.kind == a.kind && b.hash == a.hash
    && a.history <= b.history
    && (IsTerminal(a.status) ==> b == a)
  }

  ghost predicate RowsAdvance(a: Rows, b: Rows) {
    forall k :: k in a ==> k in b && RowAdvances(a[k], b[k])
  }

  /** A runtime after a continuation or a frame: at most the command `cid` stopped being active. */
  ghost predicate Touched(a: Runtime, b: Runtime, cid: Option<CommandId>) {
    && b.sid == a.sid && b.closing == a.closing && b.timer == a.timer
    && (b.phase == a.phase || (a.phase.Ready? && b.phase.Closing?))
    && (b.active == a.active || (b.active.None? && a.active == cid))
  }

  /** Nothing but rows, refusals, suspended dispatches and one runtime object changed. */
  ghost predicate Touches(h: Host, g: Host, rid: RuntimeId, cid: Option<CommandId>) {
    && g == h.(tables := h.tables.(commands := g.tables.commands), refusals := g.refusals,
               runtimes := g.runtimes, dispatches := g.dispatches)
    && RowsAdvance(h.tables.commands, g.tables.commands)
    && rid in h.runtimes && rid in g.runtimes
    && g.runtimes == h.runtimes[rid := g.runtimes[rid]]
    && Touched(h.runtimes[rid], g.runtimes[rid], cid)
  }

  lemma RowsAdvanceCompose(a: Rows, b: Rows, c: Rows)
    requires RowsAdvance(a, b) && RowsAdvance(b, c)
    ensures RowsAdvance(a, c)
  {
    forall k | k in a ensures k in c && RowAdvances(a[k], c[k]) {
      assert RowAdvances(a[k], b[k]) && RowAdvances(b[k], c[k]);
    }
  }

  lemma TouchesCompose(a: Host, b: Host, c: Host, rid: RuntimeId, cid: Option<CommandId>)
    requires Touches(a, b, rid, cid) && Touches(b, c, rid, cid)
    ensures Touches(a, c, rid, cid)
  {
    RowsAdvanceCompose(a.tables.commands, b.tables.commands, c.tables.commands);
  }

  // --------------------------------------------------------------------- pieces

  lemma TransitionAdvances(t: Tables, k: Key, next: Status, error: ErrorText)
    ensures var r := Transition(t, k, next, error).0;
            r.sessions == t.sessions && RowsAdvance(t.commands, r.commands)
  {
  }

  lemma ChangeTouches(h: Host, k: Key, next: Status, error: ErrorText, rid: RuntimeId, cid: Option<CommandId>)
    requires rid in h.runtimes
    ensures Touches(h, ChangeStatus(h, k, next, error).0, rid, cid)
  {
    TransitionAdvances(h.tables, k, next, error);
    assert h.runtimes == h.runtimes[rid := h.runtimes[rid]];
  }

  lemma NothingTouches(h: Host, rid: RuntimeId, cid: Option<CommandId>)
    requires rid in h.runtimes
    ensures Touches(h, h, rid, cid)
  {
    assert h.runtimes == h.runtimes[rid := h.runtimes[rid]];
  }

  lemma ClearTouches(h: Host, rid: RuntimeId, cid: CommandId)
    requires rid in h.runtimes
    ensures Touches(h, ClearActive(h, rid, cid), rid, Some(cid))
  {
    NothingTouches(h, rid, Some(cid));
  }

  lemma ForgetTouches(h: Host, rid: RuntimeId, cid: CommandId, active: Option<CommandId>)
    requires rid in h.runtimes
    ensures Touches(h, ForgetWires(h, rid, cid), rid, active)
  {
  }

  lemma DropTouches(h: Host, d: Dispatch, rid: RuntimeId, active: Option<CommandId>)
    requires rid in h.runtimes
    ensures Touches(h, DropDispatch(h, d), rid, active)
  {
    assert h.runtimes == h.runtimes[rid := h.runtimes[rid]];
  }

  lemma FaultTouches(h: Host, rid: RuntimeId, active: Option<CommandId>)
    requires rid in h.runtimes
    ensures Touches(h, Fault(h, rid), rid, active)
  {
  }

  lemma ClearAndForgetTouches(h: Host, rid: RuntimeId, cid: CommandId)
    requires rid in h.runtimes
    ensures Touches(h, ForgetWires(ClearActive(h, rid, cid), rid, cid), rid, Some(cid))
  {
    ClearTouches(h, rid, cid);
    ForgetTouches(ClearActive(h, rid, cid), rid, cid, Some(cid));
    TouchesCompose(h, ClearActive(h, rid, cid), ForgetWires(ClearActive(h, rid, cid), rid, cid), rid, Some(cid));
  }

  lemma CompleteTouches(h: Host, rid: RuntimeId, cid: CommandId)
    requires rid in h.runtimes
    ensures Touches(h, Complete(h, rid, cid).0, rid, Some(cid))
  {
    var k := Key(h.runtimes[rid].sid, cid);
    if k in h.tables.commands && !IsTerminal(h.tables.commands[k].status) {
      var (g, accepted) := ChangeStatus(h, k, Completed, None);
      ChangeTouches(h, k, Completed, None, rid, Some(cid));
      if accepted {
        ClearAndForgetTouches(g, rid, cid);
        TouchesCompose(h, g, Complete(h, rid, cid).0, rid, Some(cid));
      }
    } else {
      ClearAndForgetTouches(h, rid, cid);
    }
  }

  lemma SettleTouches(h: Host, rid: RuntimeId, cid: CommandId, active: Option<CommandId>)
    requires rid in h.runtimes
    ensures Touches(h, Settle(h, rid, cid), rid, active)
  {
    ForgetTouches(h, rid, cid, active);
    DropTouches(h, Dispatch(rid, cid), rid, active);
    DropTouches(ForgetWires(h, rid, cid), Dispatch(rid, cid), rid, active);
    TouchesCompose(h, ForgetWires(h, rid, cid), DropDispatch(ForgetWires(h, rid, cid), Dispatch(rid, cid)), rid, active);
  }

  lemma CaughtTailTouches(h: Host, rid: RuntimeId, cid: CommandId)
    requires rid in h.runtimes
    ensures Touches(h, CaughtTail(h, rid, cid), rid,
                    if StatusAt(h, Key(h.runtimes[rid].sid, cid)) != Some(OutcomeUnknown) then Some(cid) else None)
  {
    if StatusAt(h, Key(h.runtimes[rid].sid, cid)) != Some(OutcomeUnknown) {
      ClearTouches(h, rid, cid);
      SettleTouches(ClearActive(h, rid, cid), rid, cid, Some(cid));
      TouchesCompose(h, ClearActive(h, rid, cid), Settle(ClearActive(h, rid, cid), rid, cid), rid, Some(cid));
    } else {
      SettleTouches(h, rid, cid, None);
    }
  }

  /** After the catch branch, is the outcome of the command known? */
  predicate OutcomeKnown(h: Host, rid: RuntimeId, cid: CommandId, cause: FailureCause, error: ErrorText)
    requires rid in h.runtimes
  {
    var (g, accepted) := StoredCause(h, rid, cid, cause, error);
    var k := Key(h.runtimes[rid].sid, cid);
    k in h.tables.commands && accepted && StatusAt(g, k) != Some(OutcomeUnknown)
  }

  lemma StoredCauseTouches(h: Host, rid: RuntimeId, cid: CommandId, cause: FailureCause, error: ErrorText, active: Option<CommandId>)
    requires rid in h.runtimes
    ensures Touches(h, StoredCause(h, rid, cid, cause, error).0, rid, active)
  {
    NothingTouches(h, rid, active);
    ChangeTouches(h, Key(h.runtimes[rid].sid, cid), CauseStatus(cause), error, rid, active);
  }

  lemma CaughtShape(h: Host, rid: RuntimeId, cid: CommandId, cause: FailureCause, error: ErrorText)
    requires rid in h.runtimes && Key(h.runtimes[rid].sid, cid) in h.tables.commands
    ensures var (g, accepted) := StoredCause(h, rid, cid, cause, error);
            && g.runtimes == h.runtimes
            && Caught(h, rid, cid, cause, error) == if accepted then CaughtTail(g, rid, cid) else DropDispatch(g, Dispatch(rid, cid))
  {
  }

  lemma StoredCauseEndTouches(h: Host, g: Host, rid: RuntimeId, cid: CommandId, accepted: bool, active: Option<CommandId>)
    requires rid in h.runtimes && Touches(h, g, rid, active)
    requires accepted ==> active == if StatusAt(g, Key(g.runtimes[rid].sid, cid)) != Some(OutcomeUnknown) then Some(cid) else None
    ensures Touches(h, if accepted then CaughtTail(g, rid, cid) else DropDispatch(g, Dispatch(rid, cid)), rid, active)
  {
    if accepted {
      CaughtTailTouches(g, rid, cid);
      TouchesCompose(h, g, CaughtTail(g, rid, cid), rid, active);
    } else {
      DropTouches(g, Dispatch(rid, cid), rid, active);
      TouchesCompose(h, g, DropDispatch(g, Dispatch(rid, cid)), rid, active);
    }
  }

  lemma CaughtTouches(h: Host, rid: RuntimeId, cid: CommandId, cause: FailureCause, error: ErrorText)
    requires rid in h.runtimes
    ensures Touches(h, Caught(h, rid, cid, cause, error), rid,
                    if OutcomeKnown(h, rid, cid, cause, error) then Some(cid) else None)
  {
    var active := if OutcomeKnown(h, rid, cid, cause, error) then Some(cid) else None;
    if Key(h.runtimes[rid].sid, cid) in h.tables.commands {
      var (g, accepted) := StoredCause(h, rid, cid, cause, error);
      StoredCauseTouches(h, rid, cid, cause, error, active);
      CaughtShape(h, rid, cid, cause, error);
      StoredCauseEndTouches(h, g, rid, cid, accepted, active);
    } else {
      DropTouches(h, Dispatch(rid, cid), rid, active);
    }
  }

  // ---------------------------------------------------------- acknowledgements

  /** What follows an acknowledgement: read OMP's state back, or end the dispatch. */
  function Continue(h: Host, rid: RuntimeId, cid: CommandId, kind: Kind): Host
    requires rid in h.runtimes
  {
    if ChangesSession(kind) then h.(dispatches := h.dispatches[Dispatch(rid, cid) := ForState]) else Settle(h, rid, cid)
  }

  lemma ContinueTouches(h: Host, rid: RuntimeId, cid: CommandId, kind: Kind, active: Option<CommandId>)
    requires rid in h.runtimes
    ensures Touches(h, Continue(h, rid, cid, kind), rid, active)
  {
    SettleTouches(h, rid, cid, active);
    assert h.runtimes == h.runtimes[rid := h.runtimes[rid]];
  }

  lemma FinalRowAckShape(h: Host, rid: RuntimeId, cid: CommandId, localOnly: bool)
    requires rid in h.runtimes && Key(h.runtimes[rid].sid, cid) in h.tables.commands
    requires IsTerminal(h.tables.commands[Key(h.runtimes[rid].sid, cid)].status)
    ensures OnAck(h, rid, cid, localOnly) == Continue(h, rid, cid, h.tables.commands[Key(h.runtimes[rid].sid, cid)].kind)
  {
  }

  /** The acknowledgement of a row that was pending, as stored. */
  function Stored(h: Host, rid: RuntimeId, cid: CommandId, localOnly: bool): (Host, bool)
    requires rid in h.runtimes && Key(h.runtimes[rid].sid, cid) in h.tables.commands
  {
    var k := Key(h.runtimes[rid].sid, cid);
    ChangeStatus(h, k, if IsTurn(h.tables.commands[k].kind) && !localOnly then Acknowledged else Completed, None)
  }

  lemma PendingAckShape(h: Host, rid: RuntimeId, cid: CommandId, localOnly: bool)
    requires rid in h.runtimes && Key(h.runtimes[rid].sid, cid) in h.tables.commands
    requires !IsTerminal(h.tables.commands[Key(h.runtimes[rid].sid, cid)].status)
    requires Stored(h, rid, cid, localOnly).1
    ensures var g, kind := Stored(h, rid, cid, localOnly).0, h.tables.commands[Key(h.runtimes[rid].sid, cid)].kind;
            && g.runtimes == h.runtimes && g.refusals == h.refusals
            && OnAck(h, rid, cid, localOnly) ==
                 Continue(if IsTurn(kind) && !localOnly then g else ClearActive(g, rid, cid), rid, cid, kind)
  {
  }

  lemma ContinueRefusesNothing(h: Host, rid: RuntimeId, cid: CommandId, kind: Kind)
    requires rid in h.runtimes
    ensures Continue(h, rid, cid, kind).refusals == h.refusals
  {
  }

  lemma StoredIsAccepted(h: Host, rid: RuntimeId, cid: CommandId, localOnly: bool)
    requires Inv(h) && rid in h.runtimes
    requires Owns(h.tables.commands, h.handed, rid, Key(h.runtimes[rid].sid, cid))
    requires !IsTerminal(h.tables.commands[Key(h.runtimes[rid].sid, cid)].status)
    ensures Stored(h, rid, cid, localOnly).1
  {
    var k := Key(h.runtimes[rid].sid, cid);
    if IsTurn(h.tables.commands[k].kind) && !localOnly {
      AcknowledgeKeepsInv(h, k);
    } else {
      FinishKeepsInv(h, k, Completed, None);
    }
  }

  /** The turn of an acknowledged prompt goes on. */
  lemma TurnAckTouches(h: Host, rid: RuntimeId, cid: CommandId)
    requires rid in h.runtimes && Key(h.runtimes[rid].sid, cid) in h.tables.commands
    requires var row := h.tables.commands[Key(h.runtimes[rid].sid, cid)]; !IsTerminal(row.status) && IsTurn(row.kind)
    requires Stored(h, rid, cid, false).1
    ensures Touches(h, OnAck(h, rid, cid, false), rid, None) && OnAck(h, rid, cid, false).refusals == h.refusals
  {
    var k := Key(h.runtimes[rid].sid, cid);
    var kind, g := h.tables.commands[k].kind, Stored(h, rid, cid, false).0;
    ChangeTouches(h, k, Acknowledged, None, rid, None);
    PendingAckShape(h, rid, cid, false);
    ContinueTouches(g, rid, cid, kind, None);
    ContinueRefusesNothing(g, rid, cid, kind);
    TouchesCompose(h, g, Continue(g, rid, cid, kind), rid, None);
  }

  lemma FinalAckTouches(h: Host, rid: RuntimeId, cid: CommandId, localOnly: bool)
    requires rid in h.runtimes && Key(h.runtimes[rid].sid, cid) in h.tables.commands
    requires var row := h.tables.commands[Key(h.runtimes[rid].sid, cid)]; !IsTerminal(row.status) && !(IsTurn(row.kind) && !localOnly)
    requires Stored(h, rid, cid, localOnly).1
    ensures Touches(h, OnAck(h, rid, cid, localOnly), rid, Some(cid)) && OnAck(h, rid, cid, localOnly).refusals == h.refusals
  {
    var k := Key(h.runtimes[rid].sid, cid);
    var kind, g := h.tables.commands[k].kind, Stored(h, rid, cid, localOnly).0;
    ChangeTouches(h, k, Completed, None, rid, Some(cid));
    ClearTouches(g, rid, cid);
    var g' := ClearActive(g, rid, cid);
    TouchesCompose(h, g, g', rid, Some(cid));
    PendingAckShape(h, rid, cid, localOnly);
    ContinueTouches(g', rid, cid, kind, Some(cid));
    ContinueRefusesNothing(g', rid, cid, kind);
    TouchesCompose(h, g', Continue(g', rid, cid, kind), rid, Some(cid));
  }

  // ------------------------------------------------------------- continuations

  /** The command that this continuation may stop from being active. */
  function ContinuationEnds(h: Host, e: Event): Option<CommandId>
    requires (e.Ack? || e.Fail? || e.StateRead?) && e.rid in h.runtimes
  {
    match e
    case Ack(rid, cid, localOnly) => if localOnly then Some(cid) else None
    case Fail(rid, cid, cause, bytes) => if OutcomeKnown(h, rid, cid, cause, Some(bytes)) then Some(cid) else None
    case _ => None
  }

  /** A non-local acknowledgement of a command that is no turn never touches the active turn. */
  lemma PlainAckKeepsActive(h: Host, g: Host, rid: RuntimeId, cid: CommandId)
    requires Inv(h) && rid in h.runtimes && Key(h.runtimes[rid].sid, cid) in h.tables.commands
    requires !IsTurn(h.tables.commands[Key(h.runtimes[rid].sid, cid)].kind)
    requires Touches(h, g, rid, Some(cid))
    ensures Touches(h, g, rid, None)
  {
    assert h.runtimes[rid].active != Some(cid);
  }

  lemma AckTouches(h: Host, rid: RuntimeId, cid: CommandId, localOnly: bool)
    requires Inv(h) && rid in h.runtimes
    requires Owns(h.tables.commands, h.handed, rid, Key(h.runtimes[rid].sid, cid))
    ensures Touches(h, OnAck(h, rid, cid, localOnly), rid, if localOnly then Some(cid) else None)
    ensures OnAck(h, rid, cid, localOnly).refusals == h.refusals
  {
    var row := h.tables.commands[Key(h.runtimes[rid].sid, cid)];
    if IsTerminal(row.status) {
      FinalRowAckShape(h, rid, cid, localOnly);
      ContinueTouches(h, rid, cid, row.kind, if localOnly then Some(cid) else None);
      ContinueRefusesNothing(h, rid, cid, row.kind);
    } else {
      StoredIsAccepted(h, rid, cid, localOnly);
      if IsTurn(row.kind) && !localOnly {
        TurnAckTouches(h, rid, cid);
      } else {
        FinalAckTouches(h, rid, cid, localOnly);
        if !localOnly {
          PlainAckKeepsActive(h, OnAck(h, rid, cid, localOnly), rid, cid);
        }
      }
    }
  }

  lemma ContinuationTouches(h: Host, e: Event)
    requires Inv(h) && Enabled(h, e) && (e.Ack? || e.Fail? || e.StateRead?)
    ensures e.rid in h.runtimes && Touches(h, Step(h, e), e.rid, ContinuationEnds(h, e))
  {
    if e.Ack? {
      AcknowledgedTouches(h, e);
    } else {
      FailedOrReadTouches(h, e);
    }
  }

  lemma AcknowledgedTouches(h: Host, e: Event)
    requires Inv(h) && Enabled(h, e) && e.Ack?
    ensures e.rid in h.runtimes && Touches(h, Step(h, e), e.rid, ContinuationEnds(h, e))
  {
    DispatchIsOwned(h, Dispatch(e.rid, e.cid));
    AckTouches(h, e.rid, e.cid, e.localOnly);
  }

  lemma FailedOrReadTouches(h: Host, e: Event)
    requires Inv(h) && Enabled(h, e) && (e.Fail? || e.StateRead?)
    ensures e.rid in h.runtimes && Touches(h, Step(h, e), e.rid, ContinuationEnds(h, e))
  {
    DispatchIsOwned(h, Dispatch(e.rid, e.cid));
    if e.Fail? {
      CaughtTouches(h, e.rid, e.cid, e.cause, Some(e.errorBytes));
    } else {
      SettleTouches(h, e.rid, e.cid, None);
    }
  }

  // --------------------------------------------------------------------- frames

  /** The command that this frame may stop from being active. */
  function FrameEnds(rt: Runtime, f: Frame): Option<CommandId> {
    match f
    case PromptResult(wire) => if wire.Some? && wire.value in rt.wires then Some(rt.wires[wire.value]) else None
    case ResponseFailed(wire, _) => if wire.Some? && wire.value in rt.wires then Some(rt.wires[wire.value]) else None
    case AgentEnd(isTerminal) => if isTerminal then rt.active else None
    case _ => None
  }

  /** The session status a frame writes. */
  function FrameStatus(rt: Runtime, f: Frame): Option<SessionStatus> {
    if rt.faulted then None
    else if f.AgentStart? then Some(Running)
    else if f == AgentEnd(true) then Some(Idle)
    else None
  }

  function WithFrameStatus(h: Host, sid: SessionId, status: Option<SessionStatus>): Host {
    if status.Some? then SetStatus(h, sid, status.value) else h
  }

  ghost predicate FrameTouches(h: Host, rid: RuntimeId, f: Frame)
    requires rid in h.runtimes
  {
    var g := OnFrame(h, rid, f);
    var rt := h.runtimes[rid];
    && Touches(h, g.(tables := g.tables.(sessions := h.tables.sessions)), rid, FrameEnds(rt, f))
    && g.tables.sessions == WithFrameStatus(h, rt.sid, FrameStatus(rt, f)).tables.sessions
  }

  lemma PromptResultTouches(h: Host, rid: RuntimeId, wire: Option<WireId>)
    requires Inv(h) && rid in h.runtimes
    ensures FrameTouches(h, rid, PromptResult(wire))
    ensures OnFrame(h, rid, PromptResult(wire)).refusals == h.refusals
  {
    var rt := h.runtimes[rid];
    if !rt.faulted && wire.Some? && wire.value in rt.wires {
      WireIsOwned(h, rid, wire.value);
      CompleteKeepsInv(h, rid, rt.wires[wire.value]);
      CompleteRefusesNothing(h, rid, rt.wires[wire.value]);
      CompleteTouches(h, rid, rt.wires[wire.value]);
    } else {
      NothingTouches(h, rid, FrameEnds(rt, PromptResult(wire)));
    }
  }

  lemma CompleteRefusesNothing(h: Host, rid: RuntimeId, cid: CommandId)
    requires rid in h.runtimes && Complete(h, rid, cid).1
    ensures Complete(h, rid, cid).0.refusals == h.refusals
  {
    var k := Key(h.runtimes[rid].sid, cid);
    ForgettingRefusesNothing(h, rid, cid);
    if k in h.tables.commands && !IsTerminal(h.tables.commands[k].status) {
      ForgettingRefusesNothing(ChangeStatus(h, k, Completed, None).0, rid, cid);
    }
  }

  lemma ClearingRefusesNothing(h: Host, rid: RuntimeId, cid: CommandId)
    ensures ClearActive(h, rid, cid).refusals == h.refusals
  {
  }

  lemma ForgettingRefusesNothing(h: Host, rid: RuntimeId, cid: CommandId)
    ensures ForgetWires(ClearActive(h, rid, cid), rid, cid).refusals == h.refusals
  {
    var g := ClearActive(h, rid, cid);
    ClearingRefusesNothing(h, rid, cid);
    if rid in g.runtimes {
      assert ForgetWires(g, rid, cid) == WithRuntime(g, rid, g.runtimes[rid].(wires := WithoutCommand(g.runtimes[rid].wires, cid)));
    }
  }

  lemma AgentEndShape(h: Host, rid: RuntimeId)
    requires rid in h.runtimes && !h.runtimes[rid].faulted && h.runtimes[rid].active.Some?
    requires Complete(h, rid, h.runtimes[rid].active.value).1
    ensures OnFrame(h, rid, AgentEnd(true)) == SetStatus(Complete(h, rid, h.runtimes[rid].active.value).0, h.runtimes[rid].sid, Idle)
  {
  }

  lemma QuietAgentEnd(h: Host, rid: RuntimeId, isTerminal: bool)
    requires rid in h.runtimes
    requires h.runtimes[rid].faulted || !isTerminal || h.runtimes[rid].active.None?
    ensures FrameTouches(h, rid, AgentEnd(isTerminal)) && OnFrame(h, rid, AgentEnd(isTerminal)).refusals == h.refusals
  {
    NothingTouches(h, rid, FrameEnds(h.runtimes[rid], AgentEnd(isTerminal)));
  }

  lemma AgentEndTouches(h: Host, rid: RuntimeId, isTerminal: bool)
    requires Inv(h) && rid in h.runtimes
    ensures FrameTouches(h, rid, AgentEnd(isTerminal))
    ensures OnFrame(h, rid, AgentEnd(isTerminal)).refusals == h.refusals
  {
    var rt := h.runtimes[rid];
    if !rt.faulted && isTerminal && rt.active.Some? {
      ActiveIsOwned(h, rid);
      CompleteKeepsInv(h, rid, rt.active.value);
      TurnEndTouches(h, rid);
    } else {
      QuietAgentEnd(h, rid, isTerminal);
    }
  }

  lemma ActiveIsOwned(h: Host, rid: RuntimeId)
    requires Inv(h) && rid in h.runtimes && h.runtimes[rid].active.Some?
    ensures Owns(h.tables.commands, h.handed, rid, Key(h.runtimes[rid].sid, h.runtimes[rid].active.value))
  {
  }

  lemma TurnEndTouches(h: Host, rid: RuntimeId)
    requires rid in h.runtimes && !h.runtimes[rid].faulted && h.runtimes[rid].active.Some?
    requires Complete(h, rid, h.runtimes[rid].active.value).1
    ensures FrameTouches(h, rid, AgentEnd(true)) && OnFrame(h, rid, AgentEnd(true)).refusals == h.refusals
  {
    var rt := h.runtimes[rid];
    AgentEndShape(h, rid);
    CompleteRefusesNothing(h, rid, rt.active.value);
    CompleteTouches(h, rid, rt.active.value);
    TouchesWithStatus(h, Complete(h, rid, rt.active.value).0, rid, rt.active, rt.sid, Idle);
  }

  /** A status written on top of a touch. */
  lemma TouchesWithStatus(h: Host, g: Host, rid: RuntimeId, active: Option<CommandId>, sid: SessionId, status: SessionStatus)
    requires Touches(h, g, rid, active)
    ensures var s := SetStatus(g, sid, status);
            && s.(tables := s.tables.(sessions := h.tables.sessions)) == g
            && s.tables.sessions == SetStatus(h, sid, status).tables.sessions
            && s.refusals == g.refusals
  {
  }

  lemma ResponseFailedTouches(h: Host, rid: RuntimeId, wire: Option<WireId>, bytes: nat)
    requires Inv(h) && rid in h.runtimes
    ensures FrameTouches(h, rid, ResponseFailed(wire, bytes))
  {
    var rt := h.runtimes[rid];
    var f := ResponseFailed(wire, bytes);
    if !rt.faulted && wire.Some? && wire.value in rt.wires {
      var cid := rt.wires[wire.value];
      var k := Key(rt.sid, cid);
      WireIsOwned(h, rid, wire.value);
      if IsTerminal(h.tables.commands[k].status) {
        LateFailureShape(h, rid, wire.value, bytes);
        ClearTouches(h, rid, cid);
      } else {
        FailedFrameShape(h, rid, wire.value, bytes);
        FailedFrameTouches(h, rid, k, bytes);
      }
    } else {
      NothingTouches(h, rid, FrameEnds(rt, f));
    }
  }

  lemma FailedFrameTouches(h: Host, rid: RuntimeId, k: Key, bytes: nat)
    requires rid in h.runtimes
    ensures var (g, accepted) := ChangeStatus(h, k, Failed, Some(bytes));
            && rid in g.runtimes
            && Touches(h, if accepted then ClearActive(g, rid, k.cid) else Fault(g, rid), rid, Some(k.cid))
  {
    var g := ChangeStatus(h, k, Failed, Some(bytes)).0;
    ChangeTouches(h, k, Failed, Some(bytes), rid, Some(k.cid));
    ClearTouches(g, rid, k.cid);
    FaultTouches(g, rid, Some(k.cid));
    TouchesCompose(h, g, ClearActive(g, rid, k.cid), rid, Some(k.cid));
    TouchesCompose(h, g, Fault(g, rid), rid, Some(k.cid));
  }

  lemma OtherFrameTouches(h: Host, rid: RuntimeId, f: Frame)
    requires rid in h.runtimes && (f.AgentStart? || f.HostCallOverflow? || f.OtherFrame?)
    ensures FrameTouches(h, rid, f)
    ensures OnFrame(h, rid, f).refusals == h.refusals
  {
    NothingTouches(h, rid, None);
    FaultTouches(h, rid, None);
  }

  lemma ReceivedTouches(h: Host, rid: RuntimeId, f: Frame)
    requires Inv(h) && rid in h.runtimes
    ensures FrameTouches(h, rid, f)
  {
    match f
    case PromptResult(wire) => PromptResultTouches(h, rid, wire);
    case ResponseFailed(wire, bytes) => ResponseFailedTouches(h, rid, wire, bytes);
    case AgentEnd(isTerminal) => AgentEndTouches(h, rid, isTerminal);
    case AgentStart => OtherFrameTouches(h, rid, f);
    case HostCallOverflow => OtherFrameTouches(h, rid, f);
    case OtherFrame => OtherFrameTouches(h, rid, f);
  }

  // ------------------------------------------------------------------- callers

  /** A call whose command has a row already, or which is refused, or which claims a new row. */
  ghost predicate Claims(h: Host, g: Host, k: Key, row: Row) {
    && k !in h.tables.commands
    && g.tables == h.tables.(commands := h.tables.commands[k := row])
    && g.registered == h.registered && g.starting == h.starting && g.stopping == h.stopping
    && g.nextRid == h.nextRid && g.refusals == h.refusals && g.shutting == h.shutting
  }

  ghost predicate Unsent(h: Host, g: Host) {
    g.runtimes == h.runtimes && g.sends == h.sends && g.handed == h.handed && g.responses == h.responses && g.dispatches == h.dispatches
  }

  ghost predicate Sent(h: Host, g: Host, k: Key) {
    && k.sid in h.registered && h.registered[k.sid] in h.runtimes && !h.runtimes[h.registered[k.sid]].closing
    && g.sends == h.sends + multiset{k} && g.handed == h.handed[k := h.registered[k.sid]]
  }

  /** A refused or repeated call changes nothing. */
  predicate Accepts(h: Host, e: Event)
    requires e.Command? || e.Respond?
  {
    && !h.shutting && e.sid in h.tables.sessions && Key(e.sid, e.cid) !in h.tables.commands
    && e.request.incarnation == h.tables.sessions[e.sid].incarnation
    && (e.Command? ==> !e.request.kind.UiResponse? && e.sid !in h.starting && (e.request.kind.SwitchSession? ==> e.pathOwned))
    && Claim(h.tables, Key(e.sid, e.cid), e.request.kind, e.request.Identity()).1.ClaimCreated?
  }

  lemma RefusedCallsChangeNothing(h: Host, e: Event)
    requires Enabled(h, e) && (e.Command? || e.Respond?) && !Accepts(h, e)
    ensures Step(h, e) == h
  {
  }

  lemma UndispatchedCall(h: Host, k: Key, kind: Kind, id: Identity)
    requires Claim(h.tables, k, kind, id).1.ClaimCreated? && k !in h.tables.commands
    ensures var g := ChangeStatus(h.(tables := Claim(h.tables, k, kind, id).0), k, NotDispatched, OWN_TEXT).0;
            var row := Row(kind, CommandHash(id), NotDispatched, [Claimed, NotDispatched]);
            g == h.(tables := h.tables.(commands := h.tables.commands[k := row]))
  {
    UndispatchedTables(h.tables, k, kind, id);
  }

  lemma DispatchedCall(h: Host, e: Event)
    requires Enabled(h, e) && e.Command? && Accepts(h, e) && CanDispatch(h, e.sid, e.request.kind)
    ensures Step(h, e) == HandOver(h.(tables := Claim(h.tables, Key(e.sid, e.cid), e.request.kind, e.request.Identity()).0),
                                   Key(e.sid, e.cid), e.request.kind, e.wire)
  {
  }

  lemma WithheldCall(h: Host, e: Event)
    requires Enabled(h, e) && e.Command? && Accepts(h, e) && !CanDispatch(h, e.sid, e.request.kind)
    ensures Step(h, e) == ChangeStatus(h.(tables := Claim(h.tables, Key(e.sid, e.cid), e.request.kind, e.request.Identity()).0),
                                       Key(e.sid, e.cid), NotDispatched, OWN_TEXT).0
  {
  }

  /** An accepted call creates the row; it sends the command exactly when it can be dispatched now. */
  lemma CommandEffect(h: Host, e: Event)
    requires Enabled(h, e) && e.Command? && Accepts(h, e)
    ensures var k, g := Key(e.sid, e.cid), Step(h, e);
            && k in g.tables.commands && Claims(h, g, k, g.tables.commands[k])
            && g.tables.commands[k].kind == e.request.kind && g.tables.commands[k].hash == CommandHash(e.request.Identity())
            && (if CanDispatch(h, e.sid, e.request.kind)
                then Sent(h, g, k) && g.tables.commands[k].status.Claimed?
                     && h.registered[e.sid] in g.runtimes
                     && g.runtimes == h.runtimes[h.registered[e.sid] := g.runtimes[h.registered[e.sid]]]
                     && Handed(h.runtimes[h.registered[e.sid]], g.runtimes[h.registered[e.sid]], e.cid, e.request.kind)
                else Unsent(h, g) && g.tables.commands[k].status.NotDispatched?)
  {
    var k := Key(e.sid, e.cid);
    if CanDispatch(h, e.sid, e.request.kind) {
      DispatchedCall(h, e);
    } else {
      WithheldCall(h, e);
      UndispatchedCall(h, k, e.request.kind, e.request.Identity());
    }
  }

  /** A runtime that was just handed a command. */
  ghost predicate Handed(a: Runtime, b: Runtime, cid: CommandId, kind: Kind) {
    && b.sid == a.sid && b.closing == a.closing && b.timer == a.timer && b.phase == a.phase && b.faulted == a.faulted
    && b.active == if IsTurn(kind) then Some(cid) else a.active
  }

  lemma RespondEffect(h: Host, e: Event)
    requires Enabled(h, e) && e.Respond? && Accepts(h, e)
    ensures var k, g := Key(e.sid, e.cid), Step(h, e);
            && k in g.tables.commands && Claims(h, g, k, g.tables.commands[k])
            && g.tables.commands[k].kind.UiResponse? && g.tables.commands[k].hash == CommandHash(e.request.Identity())
            && g.runtimes == h.runtimes
            && (Unsent(h, g) || Sent(h, g, k))
  {
    var k := Key(e.sid, e.cid);
    if !(k.sid in h.registered && h.registered[k.sid] in h.runtimes && !h.runtimes[h.registered[k.sid]].closing) {
      UndispatchedCall(h, k, UiResponse, e.request.Identity());
    }
  }

  // ------------------------------------------------------- answers and lifecycle

  /** Only rows and refusals changed, and rows advanced. */
  ghost predicate RowsTouched(h: Host, g: Host) {
    && g == h.(tables := h.tables.(commands := g.tables.commands), refusals := g.refusals)
    && RowsAdvance(h.tables.commands, g.tables.commands)
  }

  lemma ChangeTouchesRows(h: Host, k: Key, next: Status, error: ErrorText)
    ensures RowsTouched(h, ChangeStatus(h, k, next, error).0)
  {
    TransitionAdvances(h.tables, k, next, error);
  }

  lemma RowsTouchedCompose(a: Host, b: Host, c: Host)
    requires RowsTouched(a, b) && RowsTouched(b, c)
    ensures RowsTouched(a, c)
  {
    RowsAdvanceCompose(a.tables.commands, b.tables.commands, c.tables.commands);
  }

  lemma AnsweredEffect(h: Host, k: Key, outcome: AnswerOutcome, error: ErrorText)
    ensures RowsTouched(h.(responses := h.responses - {k}), OnAnswered(h, k, outcome, error))
  {
    var g := h.(responses := h.responses - {k});
    match outcome
    case AnswerSent =>
      ChangeTouchesRows(g, k, Completed, None);
      var g' := ChangeStatus(g, k, Completed, None).0;
      ChangeTouchesRows(g', k, NotDispatched, OWN_TEXT);
      RowsTouchedCompose(g, g', ChangeStatus(g', k, NotDispatched, OWN_TEXT).0);
    case AnswerSendFailed => ChangeTouchesRows(g, k, OutcomeUnknown, error);
    case AnswerRejected => ChangeTouchesRows(g, k, NotDispatched, error);
  }

  predicate IsLifecycle(e: Event) {
    !e.Ack? && !e.Fail? && !e.StateRead? && !e.Received? && !e.Command? && !e.Respond? && !e.Answered? && !e.Restart?
  }

  /** Starting, stopping and losing send nothing, refuse nothing and end no turn. */
  ghost predicate Calm(h: Host, g: Host) {
    && g.sends == h.sends && g.handed == h.handed && g.refusals == h.refusals && g.dispatches == h.dispatches
    && h.nextRid <= g.nextRid
    && (forall rid :: rid in h.runtimes ==> rid in g.runtimes && g.runtimes[rid].active == h.runtimes[rid].active && g.runtimes[rid].sid == h.runtimes[rid].sid)
    && (forall rid :: rid in g.runtimes && rid !in h.runtimes ==> h.nextRid <= rid < g.nextRid)
  }

  lemma LoseIsCalm(h: Host, rid: RuntimeId)
    requires rid in h.runtimes
    ensures Calm(h, Lose(h, rid))
  {
  }

  lemma StopRuntimeIsCalm(h: Host, sid: SessionId)
    ensures Calm(h, StopRuntime(h, sid))
  {
    if sid in h.registered && h.registered[sid] in h.runtimes {
      RuntimeWriteIsCalm(h, h.registered[sid], MarkClosing(h.runtimes[h.registered[sid]]));
    }
  }

  lemma StopIsCalm(h: Host, sid: SessionId)
    ensures Calm(h, OnStop(h, sid))
  {
    StopRuntimeIsCalm(h, sid);
  }

  lemma StopFinishedIsCalm(h: Host, sid: SessionId, reaped: bool)
    ensures Calm(h, OnStopFinished(h, sid, reaped))
  {
  }

  lemma StartFailedIsCalm(h: Host, sid: SessionId, reaped: bool)
    requires Spawned(h, sid)
    ensures Calm(h, OnStartFailed(h, sid, reaped))
  {
  }

  lemma StartIsCalm(h: Host, sid: SessionId)
    ensures Calm(h, OnStart(h, sid))
  {
    if sid in h.registered && h.registered[sid] in h.runtimes {
      LoseIsCalm(h, h.registered[sid]);
    }
  }

  lemma SpawnIsCalm(h: Host, sid: SessionId, incarnation: J.Text)
    requires h.nextRid !in h.runtimes
    ensures Calm(h, OnSpawn(h, sid, incarnation))
  {
    if sid in h.tables.sessions {
      var g := OnSpawn(h, sid, incarnation);
      assert g.runtimes == h.runtimes[h.nextRid := Runtime(sid, Connecting, false, false, None, map[], false)];
    }
  }

  lemma RuntimeWriteIsCalm(h: Host, rid: RuntimeId, rt: Runtime)
    requires rid in h.runtimes && rt.active == h.runtimes[rid].active && rt.sid == h.runtimes[rid].sid
    ensures Calm(h, WithRuntime(h, rid, rt))
  {
  }

  lemma StartupIsCalm(h: Host, e: Event)
    requires Enabled(h, e) && (e.Connected? || e.Started? || e.StartFailing? || e.ClientDown?)
    ensures Calm(h, Step(h, e))
  {
    if e.ClientDown? {
      RuntimeWriteIsCalm(h, e.rid, h.runtimes[e.rid].(phase := e.phase));
    } else {
      var rid := h.registered[e.sid];
      RuntimeWriteIsCalm(h, rid, h.runtimes[rid].(phase := Ready));
      RuntimeWriteIsCalm(h, rid, h.runtimes[rid].(timer := true));
      RuntimeWriteIsCalm(h, rid, MarkClosing(h.runtimes[rid]));
    }
  }

  lemma StopStepIsCalm(h: Host, e: Event)
    requires Enabled(h, e) && (e.Stop? || e.StopProceed?)
    ensures Calm(h, Step(h, e))
  {
    StopRuntimeIsCalm(h, e.sid);
    StopIsCalm(h, e.sid);
  }

  lemma EndIsCalm(h: Host, e: Event)
    requires Enabled(h, e) && (e.StopFinished? || e.StartFailed?)
    ensures Calm(h, Step(h, e))
  {
    if e.StopFinished? {
      StopFinishedIsCalm(h, e.sid, e.reaped);
    } else {
      StartFailedIsCalm(h, e.sid, e.reaped);
    }
  }

  lemma StatusIsCalm(h: Host, e: Event)
    requires Enabled(h, e) && (e.MarkIdle? || e.Reconcile?)
    ensures Calm(h, Step(h, e))
  {
  }

  lemma OwnerIsCalm(h: Host, e: Event)
    requires Enabled(h, e) && (e.CreateSession? || e.SpawnRefused? || e.Shutdown?)
    ensures Calm(h, Step(h, e))
  {
  }

  lemma LifecycleIsCalm(h: Host, e: Event)
    requires Inv(h) && Enabled(h, e) && IsLifecycle(e)
    ensures Calm(h, Step(h, e))
  {
    if e.Start? {
      StartIsCalm(h, e.sid);
    } else if e.Connected? || e.Started? || e.StartFailing? || e.ClientDown? {
      StartupIsCalm(h, e);
    } else if e.Stop? || e.StopProceed? {
      StopStepIsCalm(h, e);
    } else if e.StopFinished? || e.StartFailed? {
      EndIsCalm(h, e);
    } else if e.Lost? {
      LoseIsCalm(h, e.rid);
    } else if e.MarkIdle? || e.Reconcile? {
      StatusIsCalm(h, e);
    } else if e.Spawn? {
      assert h.nextRid !in h.runtimes;
      SpawnIsCalm(h, e.sid, e.incarnation);
    } else {
      OwnerIsCalm(h, e);
    }
  }

  lemma UnknownAdvances(t: Tables, sid: SessionId)
    ensures RowsAdvance(t.commands, UnknownIn(t, sid).commands) && RowsAdvance(t.commands, Recover(t).commands)
  {
  }

  lemma SameRowsAdvance(rows: Rows)
    ensures RowsAdvance(rows, rows)
  {
  }

  lemma LoseAdvancesRows(h: Host, rid: RuntimeId)
    requires rid in h.runtimes
    ensures RowsAdvance(h.tables.commands, Lose(h, rid).tables.commands)
  {
    SameRowsAdvance(h.tables.commands);
    UnknownAdvances(h.tables, h.runtimes[rid].sid);
  }

  lemma StartAdvancesRows(h: Host, sid: SessionId)
    ensures RowsAdvance(h.tables.commands, OnStart(h, sid).tables.commands)
  {
    SameRowsAdvance(h.tables.commands);
    if sid in h.registered && h.registered[sid] in h.runtimes {
      LoseAdvancesRows(h, h.registered[sid]);
    }
  }

  lemma StopFinishedAdvancesRows(h: Host, sid: SessionId, reaped: bool)
    ensures RowsAdvance(h.tables.commands, OnStopFinished(h, sid, reaped).tables.commands)
  {
    SameRowsAdvance(h.tables.commands);
    UnknownAdvances(h.tables, sid);
  }

  lemma StartupKeepsRows(h: Host, e: Event)
    requires Enabled(h, e) && (e.Connected? || e.Started? || e.StartFailing? || e.ClientDown? || e.Spawn? || e.StartFailed?)
    ensures Step(h, e).tables.commands == h.tables.commands
  {
  }

  lemma StopKeepsRows(h: Host, e: Event)
    requires Enabled(h, e) && (e.Stop? || e.StopProceed?)
    ensures Step(h, e).tables.commands == h.tables.commands
  {
    StopRuntimeKeepsTables(h, e.sid);
  }

  lemma StopRuntimeKeepsTables(h: Host, sid: SessionId)
    ensures StopRuntime(h, sid).tables == h.tables && OnStop(h, sid).tables == h.tables
  {
  }

  lemma StatusKeepsRows(h: Host, e: Event)
    requires Enabled(h, e) && (e.MarkIdle? || e.Reconcile?)
    ensures Step(h, e).tables.commands == h.tables.commands
  {
  }

  lemma OwnerKeepsRows(h: Host, e: Event)
    requires Enabled(h, e) && (e.CreateSession? || e.SpawnRefused? || e.Shutdown?)
    ensures Step(h, e).tables.commands == h.tables.commands
  {
  }

  lemma LifecycleAdvancesRows(h: Host, e: Event)
    requires Enabled(h, e) && IsLifecycle(e)
    ensures RowsAdvance(h.tables.commands, Step(h, e).tables.commands)
  {
    if e.Start? {
      StartAdvancesRows(h, e.sid);
    } else if e.StopFinished? {
      StopFinishedAdvancesRows(h, e.sid, e.reaped);
    } else if e.Lost? {
      LoseAdvancesRows(h, e.rid);
    } else {
      SameRowsAdvance(h.tables.commands);
      if e.Connected? || e.Started? || e.StartFailing? || e.ClientDown? || e.Spawn? || e.StartFailed? {
        StartupKeepsRows(h, e);
      } else if e.Stop? || e.StopProceed? {
        StopKeepsRows(h, e);
      } else if e.MarkIdle? || e.Reconcile? {
        StatusKeepsRows(h, e);
      } else {
        OwnerKeepsRows(h, e);
      }
    }
  }
}
