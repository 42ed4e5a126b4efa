/**
  Every event keeps the invariant of the host.

  Each stretch of code is taken apart as the host is: what `#complete` and the catch branch of
  `#dispatch` do to the tables and to the runtime, acknowledgements of turns and of other commands,
  the claim and the hand-over of a new command, answers to questions, frames from OMP, then loss,
  start and stop of a process, and startup recovery.  The last lemmas put the pieces together event
  by event, for the whole step.
*/
module HostPreservation {
  import opened Basics
  import opened Journal
  import opened HostSteps
  import opened HostInvariant
  import J = CanonicalJson

  lemma ClearAndForgetKeepsInv(h: Host, rid: RuntimeId, cid: CommandId)
    requires Inv(h) && rid in h.runtimes
    requires var k := Key(h.runtimes[rid].sid, cid); k in h.tables.commands ==> !IsRpcPending(h.tables.commands[k])
    ensures Inv(ForgetWires(ClearActive(h, rid, cid), rid, cid))
  {
    ClearKeepsInv(h, rid, cid);
    ForgetKeepsInv(ClearActive(h, rid, cid), rid, cid);
  }

  lemma CompletePendingKeepsInv(h: Host, rid: RuntimeId, cid: CommandId)
    requires Inv(h) && rid in h.runtimes
    requires Owns(h.tables.commands, h.handed, rid, Key(h.runtimes[rid].sid, cid))
    requires !IsTerminal(h.tables.commands[Key(h.runtimes[rid].sid, cid)].status)
    ensures var (g, accepted) := ChangeStatus(h, Key(h.runtimes[rid].sid, cid), Completed, None);
            accepted && Inv(ForgetWires(ClearActive(g, rid, cid), rid, cid))
  {
    var k := Key(h.runtimes[rid].sid, cid);
    FinishKeepsInv(h, k, Completed, None);
    ClearAndForgetKeepsInv(ChangeStatus(h, k, Completed, None).0, rid, cid);
  }

  lemma CompleteKeepsInv(h: Host, rid: RuntimeId, cid: CommandId)
    requires Inv(h) && rid in h.runtimes
    requires Owns(h.tables.commands, h.handed, rid, Key(h.runtimes[rid].sid, cid))
    ensures var (g, accepted) := Complete(h, rid, cid); accepted && Inv(g)
  {
    if IsTerminal(h.tables.commands[Key(h.runtimes[rid].sid, cid)].status) {
      ClearAndForgetKeepsInv(h, rid, cid);
    } else {
      CompletePendingKeepsInv(h, rid, cid);
    }
  }

  lemma FaultKeepsInv(h: Host, rid: RuntimeId)
    requires Inv(h) && rid in h.runtimes
    ensures Inv(Fault(h, rid))
  {
    var rt := h.runtimes[rid];
    RuntimeTouchKeepsInv(h, rid, rt.(faulted := true, phase := if rt.phase.Ready? then Closing else rt.phase));
  }

  /** After the outcome is stored: clear the active command unless it is unknown, and end the dispatch. */
  lemma CaughtTailKeepsInv(h: Host, rid: RuntimeId, cid: CommandId)
    requires Inv(h) && rid in h.runtimes
    requires var k := Key(h.runtimes[rid].sid, cid); k in h.tables.commands ==> !IsRpcPending(h.tables.commands[k])
    ensures Inv(CaughtTail(h, rid, cid))
  {
    if StatusAt(h, Key(h.runtimes[rid].sid, cid)) != Some(OutcomeUnknown) {
      ClearKeepsInv(h, rid, cid);
      SettleKeepsInv(ClearActive(h, rid, cid), rid, cid);
    } else {
      SettleKeepsInv(h, rid, cid);
    }
  }

  lemma CaughtKeepsInv(h: Host, rid: RuntimeId, cid: CommandId, cause: FailureCause, error: ErrorText)
    requires Inv(h) && rid in h.runtimes && error.Some?
    requires Owns(h.tables.commands, h.handed, rid, Key(h.runtimes[rid].sid, cid))
    ensures Inv(Caught(h, rid, cid, cause, error))
  {
    StoredCauseKeepsInv(h, rid, cid, cause, error);
    var (g, accepted) := StoredCause(h, rid, cid, cause, error);
    if accepted {
      CaughtTailKeepsInv(g, rid, cid);
    } else {
      DropKeepsInv(g, Dispatch(rid, cid));
    }
  }

  lemma StoredCauseKeepsInv(h: Host, rid: RuntimeId, cid: CommandId, cause: FailureCause, error: ErrorText)
    requires Inv(h) && rid in h.runtimes && error.Some?
    requires Owns(h.tables.commands, h.handed, rid, Key(h.runtimes[rid].sid, cid))
    ensures var (g, accepted) := StoredCause(h, rid, cid, cause, error);
            var k := Key(h.runtimes[rid].sid, cid);
            && Inv(g) && g.runtimes == h.runtimes
            && (accepted ==> k in g.tables.commands && IsTerminal(g.tables.commands[k].status))
  {
    var k := Key(h.runtimes[rid].sid, cid);
    if !IsTerminal(h.tables.commands[k].status) {
      StoreCauseKeepsInv(h, k, cause, error);
    }
  }

  lemma StoreCauseKeepsInv(h: Host, k: Key, cause: FailureCause, error: ErrorText)
    requires Inv(h) && k in h.tables.commands && IsRpcPending(h.tables.commands[k]) && error.Some?
    ensures var (g, accepted) := ChangeStatus(h, k, CauseStatus(cause), error);
            && Inv(g) && g.runtimes == h.runtimes
            && (accepted ==> k in g.tables.commands && IsTerminal(g.tables.commands[k].status))
  {
    FinishKeepsInv(h, k, CauseStatus(cause), error);
  }

  // ------------------------------------------------------------ acknowledgements

  lemma AwaitStateKeepsInv(h: Host, rid: RuntimeId, cid: CommandId)
    requires Inv(h) && rid in h.runtimes
    requires Owns(h.tables.commands, h.handed, rid, Key(h.runtimes[rid].sid, cid))
    requires IsTerminal(h.tables.commands[Key(h.runtimes[rid].sid, cid)].status)
    ensures Inv(h.(dispatches := h.dispatches[Dispatch(rid, cid) := ForState]))
  {
  }

  lemma ContinueKeepsInv(h: Host, rid: RuntimeId, cid: CommandId, kind: Kind)
    requires Inv(h) && rid in h.runtimes
    requires Owns(h.tables.commands, h.handed, rid, Key(h.runtimes[rid].sid, cid))
    requires ChangesSession(kind) ==> IsTerminal(h.tables.commands[Key(h.runtimes[rid].sid, cid)].status)
    ensures Inv(if ChangesSession(kind) then h.(dispatches := h.dispatches[Dispatch(rid, cid) := ForState]) else Settle(h, rid, cid))
  {
    if ChangesSession(kind) {
      AwaitStateKeepsInv(h, rid, cid);
    } else {
      SettleKeepsInv(h, rid, cid);
    }
  }

  lemma AcknowledgeAnswer(t: Tables, k: Key)
    requires k in t.commands && k.sid in t.sessions && RowOk(t.commands[k]) && IsPending(t.commands[k]) && IsTurn(t.commands[k].kind)
    ensures Transition(t, k, Acknowledged, None) ==
      (if t.commands[k].status.Claimed? then t.(commands := t.commands[k := MoveTo(t.commands[k], Acknowledged)]) else t, true)
  {
  }

  /** A turn's acknowledgement is accepted. */
  lemma AcknowledgeKeepsInv(h: Host, k: Key)
    requires Inv(h) && k in h.tables.commands && IsRpcPending(h.tables.commands[k]) && IsTurn(h.tables.commands[k].kind)
    ensures var (g, accepted) := ChangeStatus(h, k, Acknowledged, None);
            && accepted && Inv(g) && g.runtimes == h.runtimes && g.handed == h.handed
            && k in g.tables.commands && g.tables.commands[k].kind == h.tables.commands[k].kind
  {
    PendingRowIsOk(h, k);
    AcknowledgeAnswer(h.tables, k);
    if h.tables.commands[k].status.Claimed? {
      MoveKeepsInv(h, k, Acknowledged);
    }
  }

  lemma CompletedAckKeepsInv(h: Host, rid: RuntimeId, cid: CommandId)
    requires Inv(h) && rid in h.runtimes
    requires Owns(h.tables.commands, h.handed, rid, Key(h.runtimes[rid].sid, cid))
    requires !IsTerminal(h.tables.commands[Key(h.runtimes[rid].sid, cid)].status)
    ensures var k := Key(h.runtimes[rid].sid, cid);
            var (g, accepted) := ChangeStatus(h, k, Completed, None);
            var g' := ClearActive(g, rid, cid);
            && accepted && Inv(g') && rid in g'.runtimes && g'.runtimes[rid].sid == h.runtimes[rid].sid
            && Owns(g'.tables.commands, g'.handed, rid, k) && IsTerminal(g'.tables.commands[k].status)
  {
    var k := Key(h.runtimes[rid].sid, cid);
    StoreCompletionKeepsInv(h, k);
    var g := ChangeStatus(h, k, Completed, None).0;
    ClearKeepsInv(g, rid, cid);
    ClearKeepsOwner(g, rid, cid);
  }

  lemma StoreCompletionKeepsInv(h: Host, k: Key)
    requires Inv(h) && k in h.tables.commands && IsRpcPending(h.tables.commands[k])
    ensures var (g, accepted) := ChangeStatus(h, k, Completed, None);
            && accepted && Inv(g) && g.runtimes == h.runtimes && g.handed == h.handed
            && k in g.tables.commands && g.tables.commands[k].status.Completed? && g.tables.commands[k].kind == h.tables.commands[k].kind
  {
    FinishKeepsInv(h, k, Completed, None);
  }

  lemma ClearKeepsOwner(h: Host, rid: RuntimeId, cid: CommandId)
    requires rid in h.runtimes
    ensures var g := ClearActive(h, rid, cid);
            g.tables == h.tables && g.handed == h.handed && rid in g.runtimes && g.runtimes[rid].sid == h.runtimes[rid].sid
  {
  }

  lemma AckPendingKeepsInv(h: Host, rid: RuntimeId, cid: CommandId, localOnly: bool)
    requires Inv(h) && rid in h.runtimes
    requires Owns(h.tables.commands, h.handed, rid, Key(h.runtimes[rid].sid, cid))
    requires var row := h.tables.commands[Key(h.runtimes[rid].sid, cid)];
             !IsTerminal(row.status) && !(IsTurn(row.kind) && !localOnly)
    ensures Inv(OnAck(h, rid, cid, localOnly))
  {
    var k := Key(h.runtimes[rid].sid, cid);
    CompletedAckKeepsInv(h, rid, cid);
    ContinueKeepsInv(ClearActive(ChangeStatus(h, k, Completed, None).0, rid, cid), rid, cid, h.tables.commands[k].kind);
  }

  lemma AckOfFinalKeepsInv(h: Host, rid: RuntimeId, cid: CommandId, localOnly: bool)
    requires Inv(h) && rid in h.runtimes
    requires Owns(h.tables.commands, h.handed, rid, Key(h.runtimes[rid].sid, cid))
    requires IsTerminal(h.tables.commands[Key(h.runtimes[rid].sid, cid)].status)
    ensures Inv(OnAck(h, rid, cid, localOnly))
  {
    ContinueKeepsInv(h, rid, cid, h.tables.commands[Key(h.runtimes[rid].sid, cid)].kind);
  }

  lemma AckOfTurnKeepsInv(h: Host, rid: RuntimeId, cid: CommandId)
    requires Inv(h) && rid in h.runtimes
    requires Owns(h.tables.commands, h.handed, rid, Key(h.runtimes[rid].sid, cid))
    requires var row := h.tables.commands[Key(h.runtimes[rid].sid, cid)]; !IsTerminal(row.status) && IsTurn(row.kind)
    ensures Inv(OnAck(h, rid, cid, false))
  {
    var k := Key(h.runtimes[rid].sid, cid);
    AcknowledgeKeepsInv(h, k);
    TurnAckShape(h, rid, cid);
    SettleKeepsInv(ChangeStatus(h, k, Acknowledged, None).0, rid, cid);
  }

  lemma TurnAckShape(h: Host, rid: RuntimeId, cid: CommandId)
    requires rid in h.runtimes
    requires var k := Key(h.runtimes[rid].sid, cid);
             && k in h.tables.commands && !IsTerminal(h.tables.commands[k].status) && IsTurn(h.tables.commands[k].kind)
             && ChangeStatus(h, k, Acknowledged, None).1
    ensures var g := ChangeStatus(h, Key(h.runtimes[rid].sid, cid), Acknowledged, None).0;
            g.runtimes == h.runtimes && OnAck(h, rid, cid, false) == Settle(g, rid, cid)
  {
  }

  lemma AckKeepsInv(h: Host, rid: RuntimeId, cid: CommandId, localOnly: bool)
    requires Inv(h) && rid in h.runtimes
    requires Owns(h.tables.commands, h.handed, rid, Key(h.runtimes[rid].sid, cid))
    ensures Inv(OnAck(h, rid, cid, localOnly))
  {
    var row := h.tables.commands[Key(h.runtimes[rid].sid, cid)];
    if IsTerminal(row.status) {
      AckOfFinalKeepsInv(h, rid, cid, localOnly);
    } else if IsTurn(row.kind) && !localOnly {
      AckOfTurnKeepsInv(h, rid, cid);
    } else {
      AckPendingKeepsInv(h, rid, cid, localOnly);
    }
  }

  // ----------------------------------------------------------- claims and hand-over

  /** A claim that is not dispatched leaves a finished row. */
  lemma UndispatchedTables(t: Tables, k: Key, kind: Kind, id: Identity)
    requires k !in t.commands && Claim(t, k, kind, id).1.ClaimCreated?
    ensures var row := Row(kind, CommandHash(id), NotDispatched, [Claimed, NotDispatched]);
            Transition(Claim(t, k, kind, id).0, k, NotDispatched, OWN_TEXT) == (t.(commands := t.commands[k := row]), true)
  {
    assert [Claimed] + [NotDispatched] == [Claimed, NotDispatched];
    assert t.commands[k := Row(kind, CommandHash(id), Claimed, [Claimed])][k := Row(kind, CommandHash(id), NotDispatched, [Claimed, NotDispatched])]
        == t.commands[k := Row(kind, CommandHash(id), NotDispatched, [Claimed, NotDispatched])];
  }

  lemma UndispatchedKeepsInv(h: Host, k: Key, kind: Kind, id: Identity)
    requires Inv(h) && k !in h.tables.commands && Claim(h.tables, k, kind, id).1.ClaimCreated?
    ensures Inv(ChangeStatus(h.(tables := Claim(h.tables, k, kind, id).0), k, NotDispatched, OWN_TEXT).0)
  {
    UndispatchedTables(h.tables, k, kind, id);
    NewFinishedRowKeepsInv(h, k, Row(kind, CommandHash(id), NotDispatched, [Claimed, NotDispatched]));
  }

  lemma NewFinishedRowKeepsInv(h: Host, k: Key, row: Row)
    requires Inv(h) && k !in h.tables.commands && k.sid in h.tables.sessions
    requires row.status.NotDispatched? && row.history == [Claimed, NotDispatched]
    ensures Inv(h.(tables := h.tables.(commands := h.tables.commands[k := row])))
  {
    var rows := h.tables.commands[k := row];
    NewRowKeepsRows(h.tables.sessions, h.tables.commands, k, row);
    NewRowKeepsResponses(h.tables.commands, h.responses, k, row);
    assert RowsEvolve(h.tables.commands, rows) && NoNewPending(h.tables.commands, rows);
    NewRowsKeepInv(h, rows);
  }

  lemma NewRowKeepsRows(sessions: map<SessionId, Session>, rows: Rows, k: Key, row: Row)
    requires RowsOk(sessions, rows) && k.sid in sessions && RowOk(row)
    ensures RowsOk(sessions, rows[k := row])
  {
  }

  lemma NewRowKeepsResponses(rows: Rows, responses: set<Key>, k: Key, row: Row)
    requires ResponsesOk(rows, responses) && k !in rows
    ensures ResponsesOk(rows[k := row], responses)
  {
  }

  lemma NewSendKeepsSends(rows: Rows, sends: multiset<Key>, handed: Handed, k: Key, row: Row, rid: RuntimeId)
    requires SendsOk(rows, sends, handed) && k !in rows
    ensures SendsOk(rows[k := row], sends + multiset{k}, handed[k := rid])
  {
    assert k !in handed && k !in sends;
  }

  lemma NewSendKeepsMemory(rows: Rows, handed: Handed, runtimes: Objects, dispatches: map<Dispatch, Await>, k: Key, row: Row, rid: RuntimeId)
    requires k !in rows
    requires ActiveOk(rows, runtimes, handed) && WiresOk(rows, runtimes, handed) && DispatchesOk(rows, runtimes, handed, dispatches)
    ensures ActiveOk(rows[k := row], runtimes, handed[k := rid])
    ensures WiresOk(rows[k := row], runtimes, handed[k := rid])
    ensures DispatchesOk(rows[k := row], runtimes, handed[k := rid], dispatches)
  {
    forall r, w | r in runtimes && w in runtimes[r].wires
      ensures Owns(rows[k := row], handed[k := rid], r, Key(runtimes[r].sid, runtimes[r].wires[w]))
    {
      assert Owns(rows, handed, r, Key(runtimes[r].sid, runtimes[r].wires[w]));
    }
    forall d | d in dispatches ensures Owns(rows[k := row], handed[k := rid], d.rid, Key(runtimes[d.rid].sid, d.cid)) {
      assert Owns(rows, handed, d.rid, Key(runtimes[d.rid].sid, d.cid));
    }
  }

  /** The claimed row of a question's answer joins the waiting answers. */
  lemma RespondKeepsInv(h: Host, k: Key, row: Row, rid: RuntimeId)
    requires Inv(h) && k !in h.tables.commands && k.sid in h.tables.sessions
    requires row.kind.UiResponse? && row.status.Claimed? && row.history == [Claimed]
    ensures Inv(h.(tables := h.tables.(commands := h.tables.commands[k := row]),
                   responses := h.responses + {k}, sends := h.sends + multiset{k}, handed := h.handed[k := rid]))
  {
    var rows := h.tables.commands[k := row];
    NewRowKeepsRows(h.tables.sessions, h.tables.commands, k, row);
    NewSendKeepsSends(h.tables.commands, h.sends, h.handed, k, row, rid);
    NewSendKeepsMemory(h.tables.commands, h.handed, h.runtimes, h.dispatches, k, row, rid);
    NewAnswerKeepsPending(h, k, row, rid);
    NewRowKeepsRefusals(h.tables.commands, h.refusals, k, row);
    NewAnswerKeepsResponses(h.tables.commands, h.responses, k, row);
  }

  lemma NewAnswerKeepsPending(h: Host, k: Key, row: Row, rid: RuntimeId)
    requires Inv(h) && k !in h.tables.commands && row.kind.UiResponse?
    ensures PendingOk(h.tables.commands[k := row], h.registered, h.starting, h.handed[k := rid])
    ensures TurnsOk(h.tables.commands[k := row], h.registered, h.runtimes)
  {
  }

  lemma NewAnswerKeepsResponses(rows: Rows, responses: set<Key>, k: Key, row: Row)
    requires ResponsesOk(rows, responses) && row.kind.UiResponse? && row.status.Claimed?
    ensures ResponsesOk(rows[k := row], responses + {k})
  {
  }

  lemma NewRowKeepsRefusals(rows: Rows, refusals: seq<Refused>, k: Key, row: Row)
    requires RefusalsOk(rows, refusals) && k !in rows
    ensures RefusalsOk(rows[k := row], refusals)
  {
    forall i | 0 <= i < |refusals| ensures Explained(rows[k := row], refusals[i]) {
      assert Explained(rows, refusals[i]);
    }
  }

  lemma HandOverKeepsInv(h: Host, k: Key, row: Row, wire: Option<WireId>)
    requires Inv(h) && k !in h.tables.commands && k.sid in h.tables.sessions && k.sid !in h.starting
    requires !row.kind.UiResponse? && row.status.Claimed? && row.history == [Claimed]
    requires CanDispatch(h, k.sid, row.kind)
    ensures Inv(HandOver(h.(tables := h.tables.(commands := h.tables.commands[k := row])), k, row.kind, wire))
  {
    var g := HandOver(h.(tables := h.tables.(commands := h.tables.commands[k := row])), k, row.kind, wire);
    var rid := h.registered[k.sid];
    NewRowKeepsRows(h.tables.sessions, h.tables.commands, k, row);
    NewSendKeepsSends(h.tables.commands, h.sends, h.handed, k, row, rid);
    NewSendKeepsMemory(h.tables.commands, h.handed, h.runtimes, h.dispatches, k, row, rid);
    NewRowKeepsResponses(h.tables.commands, h.responses, k, row);
    NewRowKeepsRefusals(h.tables.commands, h.refusals, k, row);
    HandOverKeepsPending(h, k, row, rid);
    HandOverKeepsTurns(h, k, row, g.runtimes[rid]);
    HandOverKeepsMemory(g.tables.commands, g.handed, h.runtimes, g.dispatches, rid, g.runtimes[rid], k, wire);
    HandOverKeepsDispatches(g.tables.commands, g.handed, h.runtimes, h.dispatches, rid, g.runtimes[rid], k);
    HandOverKeepsRuntimes(h, rid, g.runtimes[rid]);
  }

  lemma HandOverKeepsPending(h: Host, k: Key, row: Row, rid: RuntimeId)
    requires Inv(h) && k !in h.tables.commands && k.sid !in h.starting && k.sid in h.registered && rid == h.registered[k.sid]
    ensures PendingOk(h.tables.commands[k := row], h.registered, h.starting, h.handed[k := rid])
  {
  }

  lemma HandOverKeepsTurns(h: Host, k: Key, row: Row, rt: Runtime)
    requires Inv(h) && k !in h.tables.commands && CanDispatch(h, k.sid, row.kind)
    requires rt.active == if IsTurn(row.kind) then Some(k.cid) else h.runtimes[h.registered[k.sid]].active
    ensures TurnsOk(h.tables.commands[k := row], h.registered, h.runtimes[h.registered[k.sid] := rt])
  {
  }

  lemma HandOverKeepsMemory(rows: Rows, handed: Handed, runtimes: Objects, dispatches: map<Dispatch, Await>,
                            rid: RuntimeId, rt: Runtime, k: Key, wire: Option<WireId>)
    requires rid in runtimes && rt.sid == runtimes[rid].sid == k.sid
    requires ActiveOk(rows, runtimes, handed) && WiresOk(rows, runtimes, handed)
    requires Owns(rows, handed, rid, k)
    requires rt.active == if IsTurn(rows[k].kind) then Some(k.cid) else runtimes[rid].active
    requires rt.wires == if wire.Some? then runtimes[rid].wires[wire.value := k.cid] else runtimes[rid].wires
    ensures ActiveOk(rows, runtimes[rid := rt], handed) && WiresOk(rows, runtimes[rid := rt], handed)
  {
    var changed := runtimes[rid := rt];
    forall r, w | r in changed && w in changed[r].wires
      ensures Owns(rows, handed, r, Key(changed[r].sid, changed[r].wires[w]))
    {
      if r != rid || !(wire.Some? && w == wire.value) {
        assert w in runtimes[r].wires;
      }
    }
  }

  lemma HandOverKeepsDispatches(rows: Rows, handed: Handed, runtimes: Objects, dispatches: map<Dispatch, Await>,
                                rid: RuntimeId, rt: Runtime, k: Key)
    requires rid in runtimes && rt.sid == runtimes[rid].sid == k.sid
    requires DispatchesOk(rows, runtimes, handed, dispatches) && Owns(rows, handed, rid, k)
    ensures DispatchesOk(rows, runtimes[rid := rt], handed, dispatches[Dispatch(rid, k.cid) := ForAck])
  {
  }

  lemma HandOverKeepsRuntimes(h: Host, rid: RuntimeId, rt: Runtime)
    requires Inv(h) && rid in h.runtimes
    requires rt.sid == h.runtimes[rid].sid && rt.timer == h.runtimes[rid].timer && rt.closing == h.runtimes[rid].closing
    ensures RuntimesOk(h.tables.sessions, h.registered, h.runtimes[rid := rt], h.nextRid)
    ensures StagesOk(h.tables.sessions, h.registered, h.runtimes[rid := rt], h.starting, h.stopping)
  {
  }

  lemma CommandKeepsInv(h: Host, k: Key, request: Request, pathOwned: bool, wire: Option<WireId>)
    requires Inv(h)
    ensures Inv(OnCommand(h, k, request, pathOwned, wire))
  {
    if OnCommand(h, k, request, pathOwned, wire) != h {
      var row := Row(request.kind, CommandHash(request.Identity()), Claimed, [Claimed]);
      if CanDispatch(h, k.sid, request.kind) {
        HandOverKeepsInv(h, k, row, wire);
      } else {
        UndispatchedKeepsInv(h, k, request.kind, request.Identity());
      }
    }
  }

  lemma OnRespondKeepsInv(h: Host, k: Key, request: Request)
    requires Inv(h)
    ensures Inv(OnRespond(h, k, request))
  {
    if OnRespond(h, k, request) != h {
      var row := Row(UiResponse, CommandHash(request.Identity()), Claimed, [Claimed]);
      if k.sid in h.registered && h.registered[k.sid] in h.runtimes && !h.runtimes[h.registered[k.sid]].closing {
        RespondKeepsInv(h, k, row, h.registered[k.sid]);
      } else {
        UndispatchedKeepsInv(h, k, UiResponse, request.Identity());
      }
    }
  }

  lemma DropResponseKeepsInv(h: Host, k: Key)
    requires Inv(h) && k in h.responses
    ensures var g := h.(responses := h.responses - {k});
            && Inv(g) && k in g.tables.commands && g.tables.commands[k].kind.UiResponse?
            && (g.tables.commands[k].status.Claimed? || g.tables.commands[k].status.OutcomeUnknown?)
  {
  }

  lemma SentAnswerKeepsInv(h: Host, k: Key)
    requires Inv(h) && k !in h.responses && k in h.tables.commands && h.tables.commands[k].kind.UiResponse?
    requires h.tables.commands[k].status.Claimed? || h.tables.commands[k].status.OutcomeUnknown?
    ensures var (g, accepted) := ChangeStatus(h, k, Completed, None);
            Inv(g) && (!accepted ==> Inv(ChangeStatus(g, k, NotDispatched, OWN_TEXT).0))
  {
    AnswerKeepsInv(h, k, Completed, None);
    var (g, accepted) := ChangeStatus(h, k, Completed, None);
    if !accepted {
      AnswerKeepsInv(g, k, NotDispatched, OWN_TEXT);
    }
  }

  lemma AnsweredKeepsInv(h: Host, k: Key, outcome: AnswerOutcome, error: ErrorText)
    requires Inv(h) && k in h.responses
    ensures Inv(OnAnswered(h, k, outcome, error))
  {
    DropResponseKeepsInv(h, k);
    var g := h.(responses := h.responses - {k});
    match outcome
    case AnswerSent => SentAnswerKeepsInv(g, k);
    case AnswerSendFailed => AnswerKeepsInv(g, k, OutcomeUnknown, error);
    case AnswerRejected => AnswerKeepsInv(g, k, NotDispatched, error);
  }

  lemma AnswerKeepsInv(h: Host, k: Key, next: Status, error: ErrorText)
    requires Inv(h) && k in h.tables.commands && h.tables.commands[k].kind.UiResponse?
    requires k !in h.responses && IsTerminal(next) && !next.Failed?
    requires h.tables.commands[k].status.Claimed? || h.tables.commands[k].status.OutcomeUnknown? || h.tables.commands[k].status == next
             || !ErrorFits(error)
    ensures Inv(ChangeStatus(h, k, next, error).0)
    ensures h.tables.commands[k].status.OutcomeUnknown? && !next.OutcomeUnknown? ==>
      ChangeStatus(h, k, next, error) == (h.(refusals := h.refusals + [Refused(k, Some(OutcomeUnknown), next, error)]), false)
    ensures h.tables.commands[k].status.Claimed? && ErrorFits(error) ==> ChangeStatus(h, k, next, error).1
  {
    PendingRowIsOk(h, k);
    var row := h.tables.commands[k];
    if row.status.Claimed? {
      FinishAnswer(h.tables, k, next, error);
      if ErrorFits(error) {
        MoveKeepsInv(h, k, next);
      } else {
        RefusalKeepsInv(h, Refused(k, StatusAt(h, k), next, error));
      }
    } else if !(ErrorFits(error) && row.status == next) {
      RefusalKeepsInv(h, Refused(k, StatusAt(h, k), next, error));
    }
  }

  // --------------------------------------------------------------------- frames

  lemma WireIsOwned(h: Host, rid: RuntimeId, w: WireId)
    requires Inv(h) && rid in h.runtimes && w in h.runtimes[rid].wires
    ensures Owns(h.tables.commands, h.handed, rid, Key(h.runtimes[rid].sid, h.runtimes[rid].wires[w]))
  {
  }

  lemma FailedFrameKeepsInv(h: Host, rid: RuntimeId, cid: CommandId, bytes: nat)
    requires Inv(h) && rid in h.runtimes
    requires Owns(h.tables.commands, h.handed, rid, Key(h.runtimes[rid].sid, cid))
    requires !IsTerminal(h.tables.commands[Key(h.runtimes[rid].sid, cid)].status)
    ensures var (g, accepted) := ChangeStatus(h, Key(h.runtimes[rid].sid, cid), Failed, Some(bytes));
            rid in g.runtimes && if accepted then Inv(ClearActive(g, rid, cid)) else Inv(Fault(g, rid))
  {
    var k := Key(h.runtimes[rid].sid, cid);
    StoreFailureKeepsInv(h, k, bytes);
    var (g, accepted) := ChangeStatus(h, k, Failed, Some(bytes));
    if accepted {
      ClearKeepsInv(g, rid, cid);
    } else {
      FaultKeepsInv(g, rid);
    }
  }

  lemma StoreFailureKeepsInv(h: Host, k: Key, bytes: nat)
    requires Inv(h) && k in h.tables.commands && IsRpcPending(h.tables.commands[k])
    ensures var (g, accepted) := ChangeStatus(h, k, Failed, Some(bytes));
            && Inv(g) && g.runtimes == h.runtimes
            && (accepted ==> k in g.tables.commands && IsTerminal(g.tables.commands[k].status))
  {
    FinishKeepsInv(h, k, Failed, Some(bytes));
  }

  lemma LateFailureShape(h: Host, rid: RuntimeId, w: WireId, bytes: nat)
    requires rid in h.runtimes && w in h.runtimes[rid].wires && !h.runtimes[rid].faulted
    requires var k := Key(h.runtimes[rid].sid, h.runtimes[rid].wires[w]);
             k in h.tables.commands && IsTerminal(h.tables.commands[k].status)
    ensures OnFrame(h, rid, ResponseFailed(Some(w), bytes)) == ClearActive(h, rid, h.runtimes[rid].wires[w])
  {
  }

  lemma ResponseFailedKeepsInv(h: Host, rid: RuntimeId, w: WireId, bytes: nat)
    requires Inv(h) && rid in h.runtimes && w in h.runtimes[rid].wires && !h.runtimes[rid].faulted
    ensures Inv(OnFrame(h, rid, ResponseFailed(Some(w), bytes)))
  {
    WireIsOwned(h, rid, w);
    if IsTerminal(h.tables.commands[Key(h.runtimes[rid].sid, h.runtimes[rid].wires[w])].status) {
      LateFailureShape(h, rid, w, bytes);
      ClearKeepsInv(h, rid, h.runtimes[rid].wires[w]);
    } else {
      FailedFrameKeepsInv(h, rid, h.runtimes[rid].wires[w], bytes);
      FailedFrameShape(h, rid, w, bytes);
    }
  }

  lemma FailedFrameShape(h: Host, rid: RuntimeId, w: WireId, bytes: nat)
    requires rid in h.runtimes && w in h.runtimes[rid].wires && !h.runtimes[rid].faulted
    requires var k := Key(h.runtimes[rid].sid, h.runtimes[rid].wires[w]);
             k in h.tables.commands && !IsTerminal(h.tables.commands[k].status)
    ensures var k := Key(h.runtimes[rid].sid, h.runtimes[rid].wires[w]);
            var (g, accepted) := ChangeStatus(h, k, Failed, Some(bytes));
            && rid in g.runtimes
            && OnFrame(h, rid, ResponseFailed(Some(w), bytes)) == if accepted then ClearActive(g, rid, k.cid) else Fault(g, rid)
  {
  }

  lemma FrameKeepsInv(h: Host, rid: RuntimeId, f: Frame)
    requires Inv(h) && rid in h.runtimes
    ensures Inv(OnFrame(h, rid, f))
  {
    var rt := h.runtimes[rid];
    if !rt.faulted {
      match f {
        case AgentStart => StatusKeepsInv(h, rt.sid, Running);
        case PromptResult(wire) =>
          if wire.Some? && wire.value in rt.wires {
            WireIsOwned(h, rid, wire.value);
            CompleteKeepsInv(h, rid, rt.wires[wire.value]);
          }
        case ResponseFailed(wire, bytes) =>
          if wire.Some? && wire.value in rt.wires {
            ResponseFailedKeepsInv(h, rid, wire.value, bytes);
          }
        case AgentEnd(isTerminal) =>
          if isTerminal {
            if rt.active.Some? {
              CompleteKeepsInv(h, rid, rt.active.value);
              StatusKeepsInv(Complete(h, rid, rt.active.value).0, rt.sid, Idle);
            } else {
              StatusKeepsInv(h, rt.sid, Idle);
            }
          }
        case HostCallOverflow => FaultKeepsInv(h, rid);
        case OtherFrame =>
      }
    }
  }

  // ------------------------------------------------------- loss, stop and start

  lemma MarkUnknownKeepsRow(row: Row)
    requires RowOk(row)
    ensures var r := MarkUnknown(row);
            RowOk(r) && !IsPending(r) && r.kind == row.kind && (IsTerminal(row.status) ==> r == row)
            && (IsPending(row) ==> r.status.OutcomeUnknown?)
  {
    if IsPending(row) {
      MovedRowOk(row, OutcomeUnknown);
    }
  }

  lemma UnknownRowsOk(t: Tables, sid: SessionId)
    requires RowsOk(t.sessions, t.commands)
    ensures RowsOk(t.sessions, UnknownIn(t, sid).commands)
  {
    var rows := UnknownIn(t, sid).commands;
    forall k | k in rows ensures k.sid in t.sessions && RowOk(rows[k]) {
      MarkUnknownKeepsRow(t.commands[k]);
    }
  }

  lemma UnknownRowsEvolve(t: Tables, sid: SessionId)
    ensures var rows := UnknownIn(t, sid).commands;
            && RowsEvolve(t.commands, rows) && NoNewPending(t.commands, rows)
            && forall k :: k in rows && k.sid == sid ==> !IsPending(rows[k])
  {
  }

  lemma UnknownKeepsResponses(t: Tables, responses: set<Key>, sid: SessionId)
    requires ResponsesOk(t.commands, responses)
    ensures ResponsesOk(UnknownIn(t, sid).commands, responses)
  {
  }

  lemma UnknownKeepsInv(h: Host, sid: SessionId)
    requires Inv(h)
    ensures var g := h.(tables := UnknownIn(h.tables, sid));
            Inv(g) && forall k :: k in g.tables.commands && k.sid == sid ==> !IsPending(g.tables.commands[k])
  {
    UnknownRowsOk(h.tables, sid);
    UnknownRowsEvolve(h.tables, sid);
    UnknownKeepsResponses(h.tables, h.responses, sid);
    NewRowsKeepInv(h, UnknownIn(h.tables, sid).commands);
  }

  lemma UnregisterKeepsInv(h: Host, sid: SessionId)
    requires Inv(h)
    requires forall k :: k in h.tables.commands && k.sid == sid ==> !IsRpcPending(h.tables.commands[k])
    requires sid in h.stopping ==> !h.stopping[sid].WaitingForClose?
    ensures Inv(h.(registered := h.registered - {sid}))
  {
    var registered := h.registered - {sid};
    UnregisterKeepsPending(h.tables.commands, h.registered, h.starting, h.handed, sid);
    UnregisterKeepsTurns(h.tables.commands, h.registered, h.runtimes, sid);
    UnregisterKeepsStages(h, sid);
    assert RuntimesOk(h.tables.sessions, registered, h.runtimes, h.nextRid);
  }

  lemma UnregisterKeepsPending(rows: Rows, registered: Registry, starting: set<SessionId>, handed: Handed, sid: SessionId)
    requires PendingOk(rows, registered, starting, handed)
    requires forall k :: k in rows && k.sid == sid ==> !IsRpcPending(rows[k])
    ensures PendingOk(rows, registered - {sid}, starting, handed)
  {
  }

  lemma UnregisterKeepsTurns(rows: Rows, registered: Registry, runtimes: Objects, sid: SessionId)
    requires TurnsOk(rows, registered, runtimes)
    ensures TurnsOk(rows, registered - {sid}, runtimes)
  {
  }

  lemma UnregisterKeepsStages(h: Host, sid: SessionId)
    requires StagesOk(h.tables.sessions, h.registered, h.runtimes, h.starting, h.stopping)
    requires sid in h.stopping ==> !h.stopping[sid].WaitingForClose?
    ensures StagesOk(h.tables.sessions, h.registered - {sid}, h.runtimes, h.starting, h.stopping)
  {
  }

  /** Taking the runtime of a session away: mark its commands unknown, unregister it, set a status. */
  lemma DetachKeepsInv(h: Host, sid: SessionId, rid: RuntimeId, rt: Runtime, status: SessionStatus)
    requires Inv(h) && sid in h.registered && h.registered[sid] == rid && rid in h.runtimes
    requires RuntimeEvolves(h.runtimes[rid], rt) && rt.active == h.runtimes[rid].active
    requires sid !in h.starting && (sid in h.stopping ==> !h.stopping[sid].WaitingForClose?)
    ensures Inv(WithRuntime(h, rid, rt).(registered := h.registered - {sid},
                                         tables := WithStatus(UnknownIn(h.tables, sid), sid, status)))
  {
    RuntimeTouchKeepsInv(h, rid, rt);
    var g0 := WithRuntime(h, rid, rt);
    UnknownKeepsInv(g0, sid);
    var g1 := g0.(tables := UnknownIn(g0.tables, sid));
    UnregisterKeepsInv(g1, sid);
    var g2 := g1.(registered := g1.registered - {sid});
    StatusKeepsInv(g2, sid, status);
  }

  lemma LoseKeepsInv(h: Host, rid: RuntimeId)
    requires Inv(h) && rid in h.runtimes && h.runtimes[rid].sid !in h.starting
    ensures Inv(Lose(h, rid))
  {
    var rt := h.runtimes[rid];
    if rt.sid in h.registered && h.registered[rt.sid] == rid && !rt.closing {
      DetachKeepsInv(h, rt.sid, rid, rt.(closing := true), RecoveryRequired);
    }
  }

  lemma LostKeepsInv(h: Host, rid: RuntimeId)
    requires Inv(h) && rid in h.runtimes && h.runtimes[rid].timer
    ensures Inv(Lose(h, rid))
  {
    var rt := h.runtimes[rid];
    if rt.sid in h.registered && h.registered[rt.sid] == rid {
      assert rt.sid !in h.starting;
      LoseKeepsInv(h, rid);
    }
  }

  lemma StartKeepsInv(h: Host, sid: SessionId)
    requires Inv(h)
    ensures Inv(OnStart(h, sid))
  {
    if sid in h.registered {
      LoseUnlessStarting(h, sid);
    } else {
      var starting := h.starting + {sid};
      if OnStart(h, sid) != h {
        assert PendingOk(h.tables.commands, h.registered, starting, h.handed);
        assert StagesOk(h.tables.sessions, h.registered, h.runtimes, starting, h.stopping);
      }
    }
  }

  lemma LoseUnlessStarting(h: Host, sid: SessionId)
    requires Inv(h) && sid in h.registered
    ensures Inv(OnStart(h, sid))
  {
    assert h.registered[sid] in h.runtimes && h.runtimes[h.registered[sid]].sid == sid;
    if sid !in h.starting {
      LoseKeepsInv(h, h.registered[sid]);
    }
  }

  lemma StartingShrinksKeepsInv(h: Host, sid: SessionId)
    requires Inv(h)
    ensures Inv(h.(starting := h.starting - {sid}))
  {
    var starting := h.starting - {sid};
    assert PendingOk(h.tables.commands, h.registered, starting, h.handed);
    assert StagesOk(h.tables.sessions, h.registered, h.runtimes, starting, h.stopping);
  }

  lemma SpawnKeepsInv(h: Host, sid: SessionId, incarnation: J.Text)
    requires Inv(h) && sid in h.starting && sid !in h.registered
    ensures Inv(OnSpawn(h, sid, incarnation))
  {
    var sessions := h.tables.sessions[sid := h.tables.sessions[sid].(incarnation := incarnation)];
    assert sid in h.tables.sessions && sessions.Keys == h.tables.sessions.Keys;
    SessionsKeepInv(h, sessions);
    RegisterKeepsInv(h.(tables := h.tables.(sessions := sessions)), sid);
  }

  lemma RegisterKeepsInv(h: Host, sid: SessionId)
    requires Inv(h) && sid in h.starting && sid !in h.registered
    ensures Inv(h.(runtimes := h.runtimes[h.nextRid := Runtime(sid, Connecting, false, false, None, map[], false)],
                   registered := h.registered[sid := h.nextRid],
                   nextRid := h.nextRid + 1))
  {
    var rt := Runtime(sid, Connecting, false, false, None, map[], false);
    var runtimes, registered := h.runtimes[h.nextRid := rt], h.registered[sid := h.nextRid];
    assert h.nextRid !in h.runtimes;
    assert sid in h.tables.sessions;
    RegisterKeepsRegistry(h, sid, rt);
    RegisterKeepsPending(h, sid, rt);
    RegisterKeepsMemory(h, sid, rt);
    RegisterKeepsDispatches(h, sid, rt);
    RegisterKeepsStages(h, sid, rt);
  }

  lemma RegisterKeepsRegistry(h: Host, sid: SessionId, rt: Runtime)
    requires RuntimesOk(h.tables.sessions, h.registered, h.runtimes, h.nextRid)
    requires sid in h.tables.sessions && sid !in h.registered && rt.sid == sid && h.nextRid !in h.runtimes
    ensures RuntimesOk(h.tables.sessions, h.registered[sid := h.nextRid], h.runtimes[h.nextRid := rt], h.nextRid + 1)
  {
  }

  lemma RegisterKeepsPending(h: Host, sid: SessionId, rt: Runtime)
    requires RuntimesOk(h.tables.sessions, h.registered, h.runtimes, h.nextRid)
    requires PendingOk(h.tables.commands, h.registered, h.starting, h.handed) && TurnsOk(h.tables.commands, h.registered, h.runtimes)
    requires sid !in h.registered && h.nextRid !in h.runtimes
    ensures PendingOk(h.tables.commands, h.registered[sid := h.nextRid], h.starting, h.handed)
    ensures TurnsOk(h.tables.commands, h.registered[sid := h.nextRid], h.runtimes[h.nextRid := rt])
  {
  }

  lemma RegisterKeepsMemory(h: Host, sid: SessionId, rt: Runtime)
    requires Inv(h) && rt.active.None? && rt.wires == map[] && h.nextRid !in h.runtimes
    ensures ActiveOk(h.tables.commands, h.runtimes[h.nextRid := rt], h.handed)
    ensures WiresOk(h.tables.commands, h.runtimes[h.nextRid := rt], h.handed)
  {
    var changed := h.runtimes[h.nextRid := rt];
    forall r, w | r in changed && w in changed[r].wires
      ensures Owns(h.tables.commands, h.handed, r, Key(changed[r].sid, changed[r].wires[w]))
    {
      assert w in h.runtimes[r].wires;
    }
  }

  lemma RegisterKeepsDispatches(h: Host, sid: SessionId, rt: Runtime)
    requires Inv(h) && h.nextRid !in h.runtimes
    ensures DispatchesOk(h.tables.commands, h.runtimes[h.nextRid := rt], h.handed, h.dispatches)
  {
  }

  lemma RegisterKeepsStages(h: Host, sid: SessionId, rt: Runtime)
    requires Inv(h) && sid in h.starting && sid !in h.registered && !rt.timer && h.nextRid !in h.runtimes
    ensures StagesOk(h.tables.sessions, h.registered[sid := h.nextRid], h.runtimes[h.nextRid := rt], h.starting, h.stopping)
  {
  }

  lemma ConnectedKeepsInv(h: Host, sid: SessionId)
    requires Inv(h) && Spawned(h, sid)
    ensures Inv(WithRuntime(h, h.registered[sid], h.runtimes[h.registered[sid]].(phase := Ready)))
  {
    RuntimeTouchKeepsInv(h, h.registered[sid], h.runtimes[h.registered[sid]].(phase := Ready));
  }

  lemma StartedKeepsInv(h: Host, sid: SessionId)
    requires Inv(h) && Spawned(h, sid) && !h.runtimes[h.registered[sid]].closing
    ensures Inv(WithRuntime(h, h.registered[sid], h.runtimes[h.registered[sid]].(timer := true)).(starting := h.starting - {sid}))
  {
    StartingShrinksKeepsInv(h, sid);
    var g := h.(starting := h.starting - {sid});
    var rid := h.registered[sid];
    TimerKeepsInv(g, sid, rid);
  }

  lemma TimerKeepsInv(h: Host, sid: SessionId, rid: RuntimeId)
    requires Inv(h) && sid in h.registered && h.registered[sid] == rid && rid in h.runtimes && sid !in h.starting
    ensures Inv(WithRuntime(h, rid, h.runtimes[rid].(timer := true)))
  {
    var rt := h.runtimes[rid].(timer := true);
    SameActiveKeepsTurns(h, rid, rt);
    assert RuntimesOk(h.tables.sessions, h.registered, h.runtimes[rid := rt], h.nextRid);
    HandOverKeepsMemoryOf(h, rid, rt);
    TimerKeepsStages(h, sid, rid);
  }

  lemma HandOverKeepsMemoryOf(h: Host, rid: RuntimeId, rt: Runtime)
    requires Inv(h) && rid in h.runtimes
    requires rt.sid == h.runtimes[rid].sid && rt.active == h.runtimes[rid].active && rt.wires == h.runtimes[rid].wires
    ensures ActiveOk(h.tables.commands, h.runtimes[rid := rt], h.handed)
    ensures WiresOk(h.tables.commands, h.runtimes[rid := rt], h.handed)
    ensures DispatchesOk(h.tables.commands, h.runtimes[rid := rt], h.handed, h.dispatches)
  {
    var changed := h.runtimes[rid := rt];
    forall r, w | r in changed && w in changed[r].wires
      ensures Owns(h.tables.commands, h.handed, r, Key(changed[r].sid, changed[r].wires[w]))
    {
      assert w in h.runtimes[r].wires;
    }
  }

  lemma TimerKeepsStages(h: Host, sid: SessionId, rid: RuntimeId)
    requires Inv(h) && sid in h.registered && h.registered[sid] == rid && rid in h.runtimes && sid !in h.starting
    ensures StagesOk(h.tables.sessions, h.registered, h.runtimes[rid := h.runtimes[rid].(timer := true)], h.starting, h.stopping)
  {
    forall s | s in h.registered && s in h.starting ensures h.registered[s] != rid {
      assert h.runtimes[h.registered[s]].sid == s && h.runtimes[rid].sid == sid;
    }
  }

  lemma StartFailingKeepsInv(h: Host, sid: SessionId)
    requires Inv(h) && Spawned(h, sid)
    ensures Inv(WithRuntime(h, h.registered[sid], MarkClosing(h.runtimes[h.registered[sid]])))
  {
    RuntimeTouchKeepsInv(h, h.registered[sid], MarkClosing(h.runtimes[h.registered[sid]]));
  }

  lemma StartFailedKeepsInv(h: Host, sid: SessionId, reaped: bool)
    requires Inv(h) && Spawned(h, sid)
    ensures Inv(OnStartFailed(h, sid, reaped))
  {
    var rid := h.registered[sid];
    RuntimeTouchKeepsInv(h, rid, h.runtimes[rid].(phase := Closed));
    var g := if reaped then WithRuntime(h, rid, h.runtimes[rid].(phase := Closed)) else h;
    UnregisterKeepsInv(g, sid);
    var g1 := g.(registered := g.registered - {sid});
    StartingShrinksKeepsInv(g1, sid);
    StatusKeepsInv(g1.(starting := g1.starting - {sid}), sid, Stopped);
  }

  lemma StoppingShrinksKeepsInv(h: Host, sid: SessionId)
    requires Inv(h)
    ensures Inv(h.(stopping := h.stopping - {sid}))
  {
    assert StagesOk(h.tables.sessions, h.registered, h.runtimes, h.starting, h.stopping - {sid});
  }

  lemma AwaitCloseKeepsInv(h: Host, sid: SessionId)
    requires Inv(h) && sid !in h.starting && sid in h.registered && h.registered[sid] in h.runtimes
    requires h.runtimes[h.registered[sid]].closing
    ensures Inv(h.(stopping := h.stopping[sid := WaitingForClose]))
  {
    assert StagesOk(h.tables.sessions, h.registered, h.runtimes, h.starting, h.stopping[sid := WaitingForClose]);
  }

  lemma StopRuntimeKeepsInv(h: Host, sid: SessionId)
    requires Inv(h) && sid !in h.starting
    ensures Inv(StopRuntime(h, sid))
  {
    if sid in h.registered && h.registered[sid] in h.runtimes {
      var rid := h.registered[sid];
      RuntimeTouchKeepsInv(h, rid, MarkClosing(h.runtimes[rid]));
      AwaitCloseKeepsInv(WithRuntime(h, rid, MarkClosing(h.runtimes[rid])), sid);
    } else {
      StoppingShrinksKeepsInv(h, sid);
    }
  }

  lemma StopKeepsInv(h: Host, sid: SessionId)
    requires Inv(h)
    ensures Inv(OnStop(h, sid))
  {
    if sid in h.stopping {
    } else if sid in h.starting {
      AwaitStartKeepsInv(h, sid);
    } else {
      StopRuntimeKeepsInv(h, sid);
    }
  }

  lemma AwaitStartKeepsInv(h: Host, sid: SessionId)
    requires Inv(h)
    ensures Inv(h.(stopping := h.stopping[sid := WaitingForStart]))
  {
    assert StagesOk(h.tables.sessions, h.registered, h.runtimes, h.starting, h.stopping[sid := WaitingForStart]);
  }

  lemma StopFinishedKeepsInv(h: Host, sid: SessionId, reaped: bool)
    requires Inv(h) && sid in h.stopping && h.stopping[sid].WaitingForClose?
    ensures Inv(OnStopFinished(h, sid, reaped))
  {
    assert sid !in h.starting && sid in h.registered && h.registered[sid] in h.runtimes;
    StoppingShrinksKeepsInv(h, sid);
    var g := h.(stopping := h.stopping - {sid});
    if reaped {
      var rid := g.registered[sid];
      DetachKeepsInv(g, sid, rid, g.runtimes[rid].(phase := Closed), Stopped);
    }
  }

  // -------------------------------------------------------------------- restart

  lemma RecoverRowsOk(t: Tables)
    requires RowsOk(t.sessions, t.commands)
    ensures RowsOk(Recover(t).sessions, Recover(t).commands)
  {
    var rows := Recover(t).commands;
    forall k | k in rows ensures k.sid in Recover(t).sessions && RowOk(rows[k]) {
      MarkUnknownKeepsRow(t.commands[k]);
    }
  }

  lemma RecoverEvolves(t: Tables)
    ensures var rows := Recover(t).commands;
            && Recover(t).sessions.Keys == t.sessions.Keys
            && RowsEvolve(t.commands, rows)
            && forall k :: k in rows ==> !IsPending(rows[k])
  {
  }

  lemma RestartKeepsInv(h: Host)
    requires Inv(h)
    ensures Inv(OnRestart(h))
  {
    RecoverRowsOk(h.tables);
    RecoverEvolves(h.tables);
    RowsEvolveKeeps(h, Recover(h.tables).commands);
  }

  lemma CreateKeepsInv(h: Host, sid: SessionId, incarnation: J.Text)
    requires Inv(h) && sid !in h.tables.sessions
    ensures Inv(h.(tables := h.tables.(sessions := h.tables.sessions[sid := Session(Idle, incarnation)])))
  {
    var sessions := h.tables.sessions[sid := Session(Idle, incarnation)];
    assert RowsOk(sessions, h.tables.commands);
    assert RuntimesOk(sessions, h.registered, h.runtimes, h.nextRid);
    assert StagesOk(sessions, h.registered, h.runtimes, h.starting, h.stopping);
  }

  lemma DispatchIsOwned(h: Host, d: Dispatch)
    requires Inv(h) && d in h.dispatches
    ensures d.rid in h.runtimes && Owns(h.tables.commands, h.handed, d.rid, Key(h.runtimes[d.rid].sid, d.cid))
  {
  }

  lemma AcknowledgedKeepsInv(h: Host, e: Event)
    requires Inv(h) && Enabled(h, e) && e.Ack?
    ensures Inv(Step(h, e))
  {
    DispatchIsOwned(h, Dispatch(e.rid, e.cid));
    AckKeepsInv(h, e.rid, e.cid, e.localOnly);
  }

  lemma ContinuationKeepsInv(h: Host, e: Event)
    requires Inv(h) && Enabled(h, e) && (e.Fail? || e.StateRead?)
    ensures Inv(Step(h, e))
  {
    DispatchIsOwned(h, Dispatch(e.rid, e.cid));
    match e
    case Fail(rid, cid, cause, bytes) => CaughtKeepsInv(h, rid, cid, cause, Some(bytes));
    case StateRead(rid, cid) => SettleKeepsInv(h, rid, cid);
  }

  lemma StartupKeepsInv(h: Host, e: Event)
    requires Inv(h) && Enabled(h, e) && (e.Start? || e.Spawn? || e.SpawnRefused? || e.Connected?)
    ensures Inv(Step(h, e))
  {
    match e
    case Start(sid) => StartKeepsInv(h, sid);
    case Spawn(sid, incarnation) => SpawnKeepsInv(h, sid, incarnation);
    case SpawnRefused(sid) => StartingShrinksKeepsInv(h, sid);
    case Connected(sid) => ConnectedKeepsInv(h, sid);
  }

  lemma StartupEndKeepsInv(h: Host, e: Event)
    requires Inv(h) && Enabled(h, e) && (e.MarkIdle? || e.Started?)
    ensures Inv(Step(h, e))
  {
    match e
    case MarkIdle(sid) => StatusKeepsInv(h, sid, Idle);
    case Started(sid) => StartedKeepsInv(h, sid);
  }

  lemma StartupFailureKeepsInv(h: Host, e: Event)
    requires Inv(h) && Enabled(h, e) && (e.StartFailing? || e.StartFailed?)
    ensures Inv(Step(h, e))
  {
    match e
    case StartFailing(sid) => StartFailingKeepsInv(h, sid);
    case StartFailed(sid, reaped) => StartFailedKeepsInv(h, sid, reaped);
  }

  lemma TrafficKeepsInv(h: Host, e: Event)
    requires Inv(h) && Enabled(h, e) && (e.Command? || e.Respond? || e.Answered? || e.Received?)
    ensures Inv(Step(h, e))
  {
    match e
    case Command(sid, cid, request, pathOwned, wire) => CommandKeepsInv(h, Key(sid, cid), request, pathOwned, wire);
    case Respond(sid, cid, request) => OnRespondKeepsInv(h, Key(sid, cid), request);
    case Answered(k, outcome, bytes) => AnsweredKeepsInv(h, k, outcome, Some(bytes));
    case Received(rid, f) => FrameKeepsInv(h, rid, f);
  }

  lemma StopStepKeepsInv(h: Host, e: Event)
    requires Inv(h) && Enabled(h, e) && (e.Stop? || e.StopProceed?)
    ensures Inv(Step(h, e))
  {
    match e
    case Stop(sid) => StopKeepsInv(h, sid);
    case StopProceed(sid) => StopRuntimeKeepsInv(h, sid);
  }

  lemma EndingKeepsInv(h: Host, e: Event)
    requires Inv(h) && Enabled(h, e) && (e.StopFinished? || e.Lost?)
    ensures Inv(Step(h, e))
  {
    match e
    case StopFinished(sid, reaped) => StopFinishedKeepsInv(h, sid, reaped);
    case Lost(rid) => LostKeepsInv(h, rid);
  }

  lemma OwnerKeepsInv(h: Host, e: Event)
    requires Inv(h) && Enabled(h, e) && (e.CreateSession? || e.Reconcile?)
    ensures Inv(Step(h, e))
  {
    match e
    case CreateSession(sid, incarnation) => if sid !in h.tables.sessions { CreateKeepsInv(h, sid, incarnation); }
    case Reconcile(sid) => StatusKeepsInv(h, sid, Stopped);
  }

  lemma ShutdownKeepsInv(h: Host)
    requires Inv(h)
    ensures Inv(h.(shutting := true))
  {
  }

  lemma ProcessKeepsInv(h: Host, e: Event)
    requires Inv(h) && Enabled(h, e) && (e.ClientDown? || e.Shutdown?)
    ensures Inv(Step(h, e))
  {
    match e
    case ClientDown(rid, p) => RuntimeTouchKeepsInv(h, rid, h.runtimes[rid].(phase := p));
    case Shutdown => ShutdownKeepsInv(h);
  }

  /** Every step of the host keeps the invariant. */
  lemma StepKeepsInv(h: Host, e: Event)
    requires Inv(h) && Enabled(h, e)
    ensures Inv(Step(h, e))
  {
    if e.Command? || e.Respond? || e.Answered? || e.Received? {
      TrafficKeepsInv(h, e);
    } else if e.Ack? {
      AcknowledgedKeepsInv(h, e);
    } else if e.Fail? || e.StateRead? {
      ContinuationKeepsInv(h, e);
    } else if e.Start? || e.Spawn? || e.SpawnRefused? || e.Connected? {
      StartupKeepsInv(h, e);
    } else if e.MarkIdle? || e.Started? {
      StartupEndKeepsInv(h, e);
    } else if e.StartFailing? || e.StartFailed? {
      StartupFailureKeepsInv(h, e);
    } else if e.Stop? || e.StopProceed? {
      StopStepKeepsInv(h, e);
    } else if e.StopFinished? || e.Lost? {
      EndingKeepsInv(h, e);
    } else if e.CreateSession? || e.Reconcile? {
      OwnerKeepsInv(h, e);
    } else if e.ClientDown? || e.Shutdown? {
      ProcessKeepsInv(h, e);
    } else {
      RestartKeepsInv(h);
    }
  }
}
