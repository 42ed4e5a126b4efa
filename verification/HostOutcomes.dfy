/**
  What a continuation or a frame does to rows, runtimes, dispatches and sessions, told field by field.

  A request that fails, an acknowledgement, and the answer to the state read behind it concern one command
  of one runtime: its row, whether it stays active, its wire ids, and its dispatch.  A frame concerns the
  command whose request it answers, the active one when a turn ends, or the session alone.  The
  outcomes name no function of the step machine but `Step`.
*/
module HostOutcomes {
  import opened Basics
  import opened Journal
  import opened HostSteps
  import opened HostInvariant
  import opened HostPreservation
  import opened HostEffects
  import J = CanonicalJson

  /** A row with one more status. */
  function Moved(row: Row, next: Status): Row { row.(status := next, history := row.history + [next]) }

  function Without(wires: map<WireId, CommandId>, cid: CommandId): map<WireId, CommandId> {
    map w | w in wires && wires[w] != cid :: wires[w]
  }

  function Cleared(rt: Runtime, cid: CommandId): Runtime {
    if rt.active == Some(cid) then rt.(active := None) else rt
  }

  predicate Unfinished(row: Row) { row.status.Claimed? || row.status.Acknowledged? }

  predicate Known(row: Row) { row.status.Completed? || row.status.Failed? || row.status.NotDispatched? }

  /** The host after a continuation of one command: its row, its runtime and its dispatch. */
  ghost predicate Continued(h: Host, g: Host, rid: RuntimeId, cid: CommandId, row: Row, rt: Runtime)
    requires rid in h.runtimes
  {
    g == h.(tables := h.tables.(commands := h.tables.commands[Key(h.runtimes[rid].sid, cid) := row]),
            runtimes := h.runtimes[rid := rt],
            dispatches := h.dispatches - {Dispatch(rid, cid)})
  }

  // --------------------------------------------------------------- failed requests

  /** A final status is stored, unless the error text does not fit. */
  lemma FinishOutcome(h: Host, k: Key, next: Status, error: ErrorText)
    requires Inv(h) && k in h.tables.commands && IsRpcPending(h.tables.commands[k])
    requires IsTerminal(next) && (next.Failed? ==> error.Some?)
    ensures ChangeStatus(h, k, next, error) ==
      if ErrorFits(error) then (h.(tables := h.tables.(commands := h.tables.commands[k := Moved(h.tables.commands[k], next)])), true)
      else (h.(refusals := h.refusals + [Refused(k, Some(h.tables.commands[k].status), next, error)]), false)
  {
    PendingRowIsOk(h, k);
    FinishAnswer(h.tables, k, next, error);
  }

  lemma ClearOutcome(h: Host, rid: RuntimeId, cid: CommandId)
    requires rid in h.runtimes
    ensures ClearActive(h, rid, cid) == h.(runtimes := h.runtimes[rid := Cleared(h.runtimes[rid], cid)])
  {
    assert h.runtimes[rid := h.runtimes[rid]] == h.runtimes;
  }

  /** The end of a dispatch, whose wire ids are forgotten when the outcome is known. */
  lemma SettleOutcome(h: Host, rid: RuntimeId, cid: CommandId)
    requires rid in h.runtimes && Key(h.runtimes[rid].sid, cid) in h.tables.commands
    ensures var rt := h.runtimes[rid];
            Settle(h, rid, cid) ==
              h.(runtimes := h.runtimes[rid := if Known(h.tables.commands[Key(rt.sid, cid)]) then rt.(wires := Without(rt.wires, cid)) else rt],
                 dispatches := h.dispatches - {Dispatch(rid, cid)})
  {
    assert h.runtimes[rid := h.runtimes[rid]] == h.runtimes;
  }

  lemma TailOutcome(h: Host, rid: RuntimeId, cid: CommandId)
    requires rid in h.runtimes && Key(h.runtimes[rid].sid, cid) in h.tables.commands
    requires !Unfinished(h.tables.commands[Key(h.runtimes[rid].sid, cid)])
    ensures var row, rt := h.tables.commands[Key(h.runtimes[rid].sid, cid)], h.runtimes[rid];
            Continued(h, CaughtTail(h, rid, cid), rid, cid, row,
                      if row.status.OutcomeUnknown? then rt else Cleared(rt, cid).(wires := Without(rt.wires, cid)))
  {
    var k := Key(h.runtimes[rid].sid, cid);
    assert h.tables.commands[k := h.tables.commands[k]] == h.tables.commands;
    if h.tables.commands[k].status.OutcomeUnknown? {
      SettleOutcome(h, rid, cid);
    } else {
      ClearOutcome(h, rid, cid);
      SettleOutcome(ClearActive(h, rid, cid), rid, cid);
    }
  }

  lemma StoredOutcome(h: Host, rid: RuntimeId, cid: CommandId, cause: FailureCause, bytes: nat)
    requires Inv(h) && rid in h.runtimes && bytes > 0
    requires Owns(h.tables.commands, h.handed, rid, Key(h.runtimes[rid].sid, cid))
    requires bytes <= 16_384 || !Unfinished(h.tables.commands[Key(h.runtimes[rid].sid, cid)])
    ensures var k := Key(h.runtimes[rid].sid, cid);
            var row := h.tables.commands[k];
            StoredCause(h, rid, cid, cause, Some(bytes)) ==
              (if Unfinished(row) then h.(tables := h.tables.(commands := h.tables.commands[k := Moved(row, CauseStatus(cause))])) else h, true)
  {
    var k := Key(h.runtimes[rid].sid, cid);
    if Unfinished(h.tables.commands[k]) {
      FinishOutcome(h, k, CauseStatus(cause), Some(bytes));
    }
  }

  lemma CaughtOutcome(h: Host, rid: RuntimeId, cid: CommandId, cause: FailureCause, bytes: nat)
    requires Inv(h) && rid in h.runtimes && bytes > 0
    requires Owns(h.tables.commands, h.handed, rid, Key(h.runtimes[rid].sid, cid))
    requires bytes <= 16_384 || !Unfinished(h.tables.commands[Key(h.runtimes[rid].sid, cid)])
    ensures var row, rt := h.tables.commands[Key(h.runtimes[rid].sid, cid)], h.runtimes[rid];
            var after := if Unfinished(row) then Moved(row, CauseStatus(cause)) else row;
            Continued(h, Caught(h, rid, cid, cause, Some(bytes)), rid, cid, after,
                      if after.status.OutcomeUnknown? then rt else Cleared(rt, cid).(wires := Without(rt.wires, cid)))
  {
    StoredOutcome(h, rid, cid, cause, bytes);
    TailOutcome(StoredCause(h, rid, cid, cause, Some(bytes)).0, rid, cid);
  }

  /** What a failure means for its command. */
  predicate Means(cause: FailureCause, status: Status) {
    && (status.Failed? <==> cause.CommandRejected?)
    && (status.NotDispatched? <==> cause.TimedOutUndispatched?)
    && (status.OutcomeUnknown? <==> cause.OtherFailure?)
  }

  lemma DispatchIsKnown(h: Host, e: Event)
    requires Inv(h) && Enabled(h, e) && (e.Ack? || e.Fail? || e.StateRead?)
    ensures e.rid in h.runtimes && Key(h.runtimes[e.rid].sid, e.cid) in h.tables.commands
    ensures Owns(h.tables.commands, h.handed, e.rid, Key(h.runtimes[e.rid].sid, e.cid))
  {
    DispatchIsOwned(h, Dispatch(e.rid, e.cid));
  }

  /**
    A request that fails.  An unfinished command gets the status the failure means; it stops being active
    and forgets its wire ids when its outcome is known, and else the turn goes on.  When the store refuses
    the text of the error, row and runtime stay as they are.
  */
  lemma FailureOutcome(h: Host, e: Event)
    requires Inv(h) && Enabled(h, e) && e.Fail?
    ensures e.rid in h.runtimes && Key(h.runtimes[e.rid].sid, e.cid) in h.tables.commands
    ensures FailureLeaves(h, e.rid, e.cid, e.cause, e.errorBytes, Step(h, e))
  {
    DispatchIsKnown(h, e);
    if Unfinished(h.tables.commands[Key(h.runtimes[e.rid].sid, e.cid)]) && e.errorBytes > 16_384 {
      RefusedOutcome(h, e.rid, e.cid, e.cause, e.errorBytes);
    } else {
      CaughtOutcome(h, e.rid, e.cid, e.cause, e.errorBytes);
    }
  }

  ghost predicate FailureLeaves(h: Host, rid: RuntimeId, cid: CommandId, cause: FailureCause, bytes: nat, g: Host)
    requires rid in h.runtimes && Key(h.runtimes[rid].sid, cid) in h.tables.commands
  {
    var k, rt := Key(h.runtimes[rid].sid, cid), h.runtimes[rid];
    var row := h.tables.commands[k];
    if Unfinished(row) && bytes > 16_384 then
      g == h.(dispatches := h.dispatches - {Dispatch(rid, cid)}, refusals := g.refusals)
    else
      && k in g.tables.commands && rid in g.runtimes
      && Continued(h, g, rid, cid, g.tables.commands[k], g.runtimes[rid])
      && (if Unfinished(row) then g.tables.commands[k] == Moved(row, g.tables.commands[k].status) && Means(cause, g.tables.commands[k].status)
          else g.tables.commands[k] == row)
      && g.runtimes[rid] == (if g.tables.commands[k].status.OutcomeUnknown? then rt else Cleared(rt, cid).(wires := Without(rt.wires, cid)))
  }

  lemma RefusedOutcome(h: Host, rid: RuntimeId, cid: CommandId, cause: FailureCause, bytes: nat)
    requires Inv(h) && rid in h.runtimes && bytes > 16_384
    requires Owns(h.tables.commands, h.handed, rid, Key(h.runtimes[rid].sid, cid))
    requires Unfinished(h.tables.commands[Key(h.runtimes[rid].sid, cid)])
    ensures var g := Caught(h, rid, cid, cause, Some(bytes));
            g == h.(dispatches := h.dispatches - {Dispatch(rid, cid)}, refusals := g.refusals)
  {
    FinishOutcome(h, Key(h.runtimes[rid].sid, cid), CauseStatus(cause), Some(bytes));
    RefusedTold(h, rid, cid, cause, bytes);
  }

  lemma RefusedTold(h: Host, rid: RuntimeId, cid: CommandId, cause: FailureCause, bytes: nat)
    requires rid in h.runtimes && Key(h.runtimes[rid].sid, cid) in h.tables.commands
    requires Unfinished(h.tables.commands[Key(h.runtimes[rid].sid, cid)])
    requires var (g, accepted) := ChangeStatus(h, Key(h.runtimes[rid].sid, cid), CauseStatus(cause), Some(bytes));
             !accepted && g == h.(refusals := g.refusals)
    ensures var g := Caught(h, rid, cid, cause, Some(bytes));
            g == h.(dispatches := h.dispatches - {Dispatch(rid, cid)}, refusals := g.refusals)
  {
  }

  // -------------------------------------------------------------- acknowledgements

  /** The row after an acknowledgement: a turn goes on unless no agent ran, everything else is complete. */
  function AckedRow(row: Row, localOnly: bool): Row {
    if !Unfinished(row) then row
    else if (row.kind.Prompt? || row.kind.AbortAndPrompt?) && !localOnly then (if row.status.Claimed? then Moved(row, Acknowledged) else row)
    else Moved(row, Completed)
  }

  lemma AckStored(h: Host, rid: RuntimeId, cid: CommandId, localOnly: bool)
    requires Inv(h) && rid in h.runtimes
    requires Owns(h.tables.commands, h.handed, rid, Key(h.runtimes[rid].sid, cid))
    requires Unfinished(h.tables.commands[Key(h.runtimes[rid].sid, cid)])
    ensures var k := Key(h.runtimes[rid].sid, cid);
            Stored(h, rid, cid, localOnly) == (h.(tables := h.tables.(commands := h.tables.commands[k := AckedRow(h.tables.commands[k], localOnly)])), true)
  {
    var k := Key(h.runtimes[rid].sid, cid);
    PendingRowIsOk(h, k);
    if IsTurn(h.tables.commands[k].kind) && !localOnly {
      AcknowledgeAnswer(h.tables, k);
      assert h.tables.commands[k := h.tables.commands[k]] == h.tables.commands;
    } else {
      FinishOutcome(h, k, Completed, None);
    }
  }

  /** What follows: OMP's state is read back after the commands that change its session, else the dispatch ends. */
  lemma ContinueOutcome(h: Host, rid: RuntimeId, cid: CommandId, kind: Kind)
    requires rid in h.runtimes && Key(h.runtimes[rid].sid, cid) in h.tables.commands
    ensures var rt, d := h.runtimes[rid], Dispatch(rid, cid);
            Continue(h, rid, cid, kind) ==
              if kind.NewSession? || kind.SwitchSession? || kind.Branch? then h.(dispatches := h.dispatches[d := ForState])
              else h.(runtimes := h.runtimes[rid := if Known(h.tables.commands[Key(rt.sid, cid)]) then rt.(wires := Without(rt.wires, cid)) else rt],
                      dispatches := h.dispatches - {d})
  {
    SettleOutcome(h, rid, cid);
  }

  /** The runtime after an acknowledgement, before its wire ids may be forgotten. */
  function AckedRuntime(rt: Runtime, row: Row, cid: CommandId, localOnly: bool): Runtime {
    if Unfinished(row) && (localOnly || !(row.kind.Prompt? || row.kind.AbortAndPrompt?)) then Cleared(rt, cid) else rt
  }

  lemma AckIsContinued(h: Host, rid: RuntimeId, cid: CommandId, localOnly: bool)
    requires Inv(h) && rid in h.runtimes
    requires Owns(h.tables.commands, h.handed, rid, Key(h.runtimes[rid].sid, cid))
    ensures var k, rt := Key(h.runtimes[rid].sid, cid), h.runtimes[rid];
            var row := h.tables.commands[k];
            OnAck(h, rid, cid, localOnly) ==
              Continue(h.(tables := h.tables.(commands := h.tables.commands[k := AckedRow(row, localOnly)]),
                          runtimes := h.runtimes[rid := AckedRuntime(rt, row, cid, localOnly)]), rid, cid, row.kind)
  {
    var k := Key(h.runtimes[rid].sid, cid);
    assert h.runtimes[rid := h.runtimes[rid]] == h.runtimes;
    if Unfinished(h.tables.commands[k]) {
      AckStored(h, rid, cid, localOnly);
      PendingAckShape(h, rid, cid, localOnly);
      ClearOutcome(Stored(h, rid, cid, localOnly).0, rid, cid);
    } else {
      assert h.tables.commands[k := h.tables.commands[k]] == h.tables.commands;
      FinalRowAckShape(h, rid, cid, localOnly);
    }
  }

  /** The host after an acknowledgement: the row, the active command, the wire ids and the dispatch. */
  function Acked(h: Host, rid: RuntimeId, cid: CommandId, localOnly: bool): Host
    requires rid in h.runtimes && Key(h.runtimes[rid].sid, cid) in h.tables.commands
  {
    var k, rt, d := Key(h.runtimes[rid].sid, cid), h.runtimes[rid], Dispatch(rid, cid);
    var row := h.tables.commands[k];
    var row', rt' := AckedRow(row, localOnly), AckedRuntime(rt, row, cid, localOnly);
    var g := h.(tables := h.tables.(commands := h.tables.commands[k := row']), runtimes := h.runtimes[rid := rt']);
    if row.kind.NewSession? || row.kind.SwitchSession? || row.kind.Branch? then g.(dispatches := g.dispatches[d := ForState])
    else
      g.(runtimes := g.runtimes[rid := if Known(row') then rt'.(wires := Without(rt'.wires, cid)) else rt'],
         dispatches := g.dispatches - {d})
  }

  lemma OnAckOutcome(h: Host, rid: RuntimeId, cid: CommandId, localOnly: bool)
    requires Inv(h) && rid in h.runtimes
    requires Owns(h.tables.commands, h.handed, rid, Key(h.runtimes[rid].sid, cid))
    ensures OnAck(h, rid, cid, localOnly) == Acked(h, rid, cid, localOnly)
  {
    var k, rt := Key(h.runtimes[rid].sid, cid), h.runtimes[rid];
    var row := h.tables.commands[k];
    AckIsContinued(h, rid, cid, localOnly);
    ContinueOutcome(h.(tables := h.tables.(commands := h.tables.commands[k := AckedRow(row, localOnly)]),
                       runtimes := h.runtimes[rid := AckedRuntime(rt, row, cid, localOnly)]),
                    rid, cid, row.kind);
  }

  lemma AckOutcome(h: Host, e: Event)
    requires Inv(h) && Enabled(h, e) && e.Ack?
    ensures e.rid in h.runtimes && Key(h.runtimes[e.rid].sid, e.cid) in h.tables.commands
    ensures Step(h, e) == Acked(h, e.rid, e.cid, e.localOnly)
  {
    DispatchIsKnown(h, e);
    OnAckOutcome(h, e.rid, e.cid, e.localOnly);
  }

  lemma StateReadOutcome(h: Host, e: Event)
    requires Inv(h) && Enabled(h, e) && e.StateRead?
    ensures e.rid in h.runtimes && Key(h.runtimes[e.rid].sid, e.cid) in h.tables.commands
    ensures var rt := h.runtimes[e.rid];
            Step(h, e) ==
              h.(runtimes := h.runtimes[e.rid := if Known(h.tables.commands[Key(rt.sid, e.cid)]) then rt.(wires := Without(rt.wires, e.cid)) else rt],
                 dispatches := h.dispatches - {Dispatch(e.rid, e.cid)})
  {
    DispatchIsOwned(h, Dispatch(e.rid, e.cid));
    SettleOutcome(h, e.rid, e.cid);
  }

  // ------------------------------------------------------------------------ frames

  /** A command that OMP reports complete: its row, the active command and its wire ids. */
  function CompletedHost(h: Host, rid: RuntimeId, cid: CommandId): Host
    requires rid in h.runtimes && Key(h.runtimes[rid].sid, cid) in h.tables.commands
  {
    var k, rt := Key(h.runtimes[rid].sid, cid), h.runtimes[rid];
    var row := h.tables.commands[k];
    h.(tables := h.tables.(commands := h.tables.commands[k := if Unfinished(row) then Moved(row, Completed) else row]),
       runtimes := h.runtimes[rid := Cleared(rt, cid).(wires := Without(rt.wires, cid))])
  }

  lemma CompleteOutcome(h: Host, rid: RuntimeId, cid: CommandId)
    requires Inv(h) && rid in h.runtimes
    requires Owns(h.tables.commands, h.handed, rid, Key(h.runtimes[rid].sid, cid))
    ensures Complete(h, rid, cid) == (CompletedHost(h, rid, cid), true)
  {
    var k := Key(h.runtimes[rid].sid, cid);
    if Unfinished(h.tables.commands[k]) {
      FinishOutcome(h, k, Completed, None);
      ForgottenOutcome(ChangeStatus(h, k, Completed, None).0, rid, cid);
    } else {
      assert h.tables.commands[k := h.tables.commands[k]] == h.tables.commands;
      ForgottenOutcome(h, rid, cid);
    }
  }

  lemma ForgottenOutcome(h: Host, rid: RuntimeId, cid: CommandId)
    requires rid in h.runtimes
    ensures var rt := h.runtimes[rid];
            ForgetWires(ClearActive(h, rid, cid), rid, cid) == h.(runtimes := h.runtimes[rid := Cleared(rt, cid).(wires := Without(rt.wires, cid))])
  {
    ClearOutcome(h, rid, cid);
    var cleared, forgotten := Cleared(h.runtimes[rid], cid), Cleared(h.runtimes[rid], cid).(wires := Without(h.runtimes[rid].wires, cid));
    assert h.runtimes[rid := cleared][rid := forgotten] == h.runtimes[rid := forgotten];
  }

  function FaultedHost(h: Host, rid: RuntimeId): Host
    requires rid in h.runtimes
  {
    var rt := h.runtimes[rid];
    h.(runtimes := h.runtimes[rid := rt.(faulted := true, phase := if rt.phase.Ready? then Closing else rt.phase)])
  }

  function WithSession(h: Host, sid: SessionId, status: SessionStatus): Host
    requires sid in h.tables.sessions
  {
    h.(tables := h.tables.(sessions := h.tables.sessions[sid := h.tables.sessions[sid].(status := status)]))
  }

  /** The host after a response that failed, to the request of this command. */
  function FailedHost(h: Host, rid: RuntimeId, cid: CommandId, bytes: nat): Host
    requires rid in h.runtimes && Key(h.runtimes[rid].sid, cid) in h.tables.commands
  {
    var k, rt := Key(h.runtimes[rid].sid, cid), h.runtimes[rid];
    var row := h.tables.commands[k];
    var cleared := h.runtimes[rid := Cleared(rt, cid)];
    if !Unfinished(row) then h.(runtimes := cleared)
    else if 0 < bytes <= 16_384 then
      h.(tables := h.tables.(commands := h.tables.commands[k := Moved(row, Failed)]), runtimes := cleared)
    else FaultedHost(h.(refusals := h.refusals + [Refused(k, Some(row.status), Failed, Some(bytes))]), rid)
  }

  lemma FailureOfUnfinished(h: Host, rid: RuntimeId, w: WireId, bytes: nat)
    requires Inv(h) && rid in h.runtimes && w in h.runtimes[rid].wires && !h.runtimes[rid].faulted
    requires Owns(h.tables.commands, h.handed, rid, Key(h.runtimes[rid].sid, h.runtimes[rid].wires[w]))
    requires Unfinished(h.tables.commands[Key(h.runtimes[rid].sid, h.runtimes[rid].wires[w])])
    ensures OnFrame(h, rid, ResponseFailed(Some(w), bytes)) == FailedHost(h, rid, h.runtimes[rid].wires[w], bytes)
  {
    var cid := h.runtimes[rid].wires[w];
    var k := Key(h.runtimes[rid].sid, cid);
    FailedFrameShape(h, rid, w, bytes);
    FinishOutcome(h, k, Failed, Some(bytes));
    StoredFailureOutcome(h, rid, cid, bytes, ChangeStatus(h, k, Failed, Some(bytes)).0);
  }

  lemma StoredFailureOutcome(h: Host, rid: RuntimeId, cid: CommandId, bytes: nat, g: Host)
    requires rid in h.runtimes && Key(h.runtimes[rid].sid, cid) in h.tables.commands
    requires Unfinished(h.tables.commands[Key(h.runtimes[rid].sid, cid)])
    requires var k := Key(h.runtimes[rid].sid, cid);
             g == if ErrorFits(Some(bytes)) then h.(tables := h.tables.(commands := h.tables.commands[k := Moved(h.tables.commands[k], Failed)]))
                  else h.(refusals := h.refusals + [Refused(k, Some(h.tables.commands[k].status), Failed, Some(bytes))])
    ensures (if ErrorFits(Some(bytes)) then ClearActive(g, rid, cid) else Fault(g, rid)) == FailedHost(h, rid, cid, bytes)
  {
    ClearOutcome(g, rid, cid);
  }

  lemma FailedOutcome(h: Host, rid: RuntimeId, w: WireId, bytes: nat)
    requires Inv(h) && rid in h.runtimes && w in h.runtimes[rid].wires && !h.runtimes[rid].faulted
    requires Owns(h.tables.commands, h.handed, rid, Key(h.runtimes[rid].sid, h.runtimes[rid].wires[w]))
    ensures OnFrame(h, rid, ResponseFailed(Some(w), bytes)) == FailedHost(h, rid, h.runtimes[rid].wires[w], bytes)
  {
    var cid := h.runtimes[rid].wires[w];
    if Unfinished(h.tables.commands[Key(h.runtimes[rid].sid, cid)]) {
      FailureOfUnfinished(h, rid, w, bytes);
    } else {
      LateFailureShape(h, rid, w, bytes);
      ClearOutcome(h, rid, cid);
    }
  }

  /** The session of a runtime and the commands it remembers are in the store. */
  ghost predicate KnowsItsCommands(h: Host, rid: RuntimeId) {
    && rid in h.runtimes && h.runtimes[rid].sid in h.tables.sessions
    && (forall w :: w in h.runtimes[rid].wires ==> Key(h.runtimes[rid].sid, h.runtimes[rid].wires[w]) in h.tables.commands)
    && (h.runtimes[rid].active.Some? ==> Key(h.runtimes[rid].sid, h.runtimes[rid].active.value) in h.tables.commands)
  }

  lemma RuntimeIsKnown(h: Host, rid: RuntimeId)
    requires Inv(h) && rid in h.runtimes
    ensures KnowsItsCommands(h, rid)
  {
    forall w | w in h.runtimes[rid].wires ensures Key(h.runtimes[rid].sid, h.runtimes[rid].wires[w]) in h.tables.commands {
      WireIsOwned(h, rid, w);
    }
  }

  /** The host after a frame.  A frame about a request is told from others by the wire ids of the runtime. */
  ghost predicate FrameLeaves(h: Host, rid: RuntimeId, f: Frame, g: Host)
    requires KnowsItsCommands(h, rid)
  {
    var rt := h.runtimes[rid];
    if rt.faulted then g == h
    else
      match f
      case AgentStart => g == WithSession(h, rt.sid, Running)
      case PromptResult(wire) => g == if wire.Some? && wire.value in rt.wires then CompletedHost(h, rid, rt.wires[wire.value]) else h
      case ResponseFailed(wire, bytes) => g == if wire.Some? && wire.value in rt.wires then FailedHost(h, rid, rt.wires[wire.value], bytes) else h
      case AgentEnd(isTerminal) =>
        g == if !isTerminal then h
             else WithSession(if rt.active.Some? then CompletedHost(h, rid, rt.active.value) else h, rt.sid, Idle)
      case HostCallOverflow => g == FaultedHost(h, rid)
      case OtherFrame => g == h
  }

  lemma EndOutcome(h: Host, rid: RuntimeId)
    requires Inv(h) && rid in h.runtimes && !h.runtimes[rid].faulted && h.runtimes[rid].sid in h.tables.sessions
    requires h.runtimes[rid].active.Some? ==> Key(h.runtimes[rid].sid, h.runtimes[rid].active.value) in h.tables.commands
    ensures OnFrame(h, rid, AgentEnd(true)) ==
      WithSession(if h.runtimes[rid].active.Some? then CompletedHost(h, rid, h.runtimes[rid].active.value) else h, h.runtimes[rid].sid, Idle)
  {
    if h.runtimes[rid].active.Some? {
      ActiveIsOwned(h, rid);
      CompleteOutcome(h, rid, h.runtimes[rid].active.value);
      AgentEndShape(h, rid);
    }
  }

  lemma ResultOutcome(h: Host, rid: RuntimeId, w: WireId)
    requires Inv(h) && rid in h.runtimes && !h.runtimes[rid].faulted && w in h.runtimes[rid].wires
    requires Owns(h.tables.commands, h.handed, rid, Key(h.runtimes[rid].sid, h.runtimes[rid].wires[w]))
    ensures OnFrame(h, rid, PromptResult(Some(w))) == CompletedHost(h, rid, h.runtimes[rid].wires[w])
  {
    CompleteOutcome(h, rid, h.runtimes[rid].wires[w]);
  }

  lemma OnFrameOutcome(h: Host, rid: RuntimeId, f: Frame)
    requires Inv(h) && rid in h.runtimes
    ensures KnowsItsCommands(h, rid)
    ensures FrameLeaves(h, rid, f, OnFrame(h, rid, f))
  {
    RuntimeIsKnown(h, rid);
    if !h.runtimes[rid].faulted {
      match f
      case PromptResult(wire) =>
        if wire.Some? && wire.value in h.runtimes[rid].wires {
          WireIsOwned(h, rid, wire.value);
          ResultOutcome(h, rid, wire.value);
        }
      case ResponseFailed(wire, bytes) =>
        if wire.Some? && wire.value in h.runtimes[rid].wires {
          WireIsOwned(h, rid, wire.value);
          FailedOutcome(h, rid, wire.value, bytes);
        }
      case AgentEnd(isTerminal) => if isTerminal { EndOutcome(h, rid); }
      case _ =>
    }
  }

  /** A frame from OMP, and all it does. */
  lemma FrameOutcome(h: Host, e: Event)
    requires Inv(h) && Enabled(h, e) && e.Received?
    ensures KnowsItsCommands(h, e.rid)
    ensures FrameLeaves(h, e.rid, e.frame, Step(h, e))
  {
    OnFrameOutcome(h, e.rid, e.frame);
  }
}
