/**
  What every step of the host keeps: legal rows, one send for a command, pending commands owned by the
  runtime registered for their session, the pending turn active there, runtimes that remember only
  what was handed to them, dispatches and answers at a stage their row allows, sessions in recovery
  without a runtime, and refusals that have a cause.
*/
module HostInvariant {
  import opened Basics
  import opened Journal
  import opened HostSteps

  type Rows = map<Key, Row>
  type Registry = map<SessionId, RuntimeId>
  type Objects = map<RuntimeId, Runtime>
  type Handed = map<Key, RuntimeId>

  /** The life of a command row: claimed, perhaps acknowledged, then at most one final status. */
  ghost predicate LegalHistory(history: seq<Status>) {
    || history == [Claimed]
    || history == [Claimed, Acknowledged]
    || (|history| == 2 && history[0].Claimed? && IsTerminal(history[1]))
    || (|history| == 3 && history[0].Claimed? && history[1].Acknowledged? && IsTerminal(history[2]))
  }

  ghost predicate RowOk(row: Row) {
    && LegalHistory(row.history)
    && row.status == row.history[|row.history| - 1]
    && (Acknowledged in row.history ==> IsTurn(row.kind))
  }

  ghost predicate RowsOk(sessions: map<SessionId, Session>, rows: Rows) {
    forall k :: k in rows ==> k.sid in sessions && RowOk(rows[k])
  }

  ghost predicate RuntimesOk(sessions: map<SessionId, Session>, registered: Registry, runtimes: Objects, nextRid: RuntimeId) {
    && (forall rid :: rid in runtimes ==> rid < nextRid && runtimes[rid].sid in sessions)
    && (forall sid :: sid in registered ==> registered[sid] in runtimes && runtimes[registered[sid]].sid == sid)
  }

  /** Every command was handed over at most once, and only when its row existed. */
  ghost predicate SendsOk(rows: Rows, sends: multiset<Key>, handed: Handed) {
    && (forall k :: sends[k] <= 1)
    && (forall k :: k in sends <==> k in handed)
    && (forall k :: k in handed ==> k in rows)
  }

  predicate IsRpcPending(row: Row) { IsPending(row) && !row.kind.UiResponse? }

  /** A pending command belongs to the registered runtime of its session. */
  ghost predicate PendingOk(rows: Rows, registered: Registry, starting: set<SessionId>, handed: Handed) {
    forall k :: k in rows && IsRpcPending(rows[k]) ==>
      k.sid in registered && k.sid !in starting && k in handed && handed[k] == registered[k.sid]
  }

  /** A pending turn is the active command of the registered runtime. */
  ghost predicate TurnsOk(rows: Rows, registered: Registry, runtimes: Objects) {
    forall k :: k in rows && IsRpcPending(rows[k]) && IsTurn(rows[k].kind) && k.sid in registered && registered[k.sid] in runtimes ==>
      runtimes[registered[k.sid]].active == Some(k.cid)
  }

  ghost predicate Owns(rows: Rows, handed: Handed, rid: RuntimeId, k: Key) {
    k in rows && !rows[k].kind.UiResponse? && k in handed && handed[k] == rid
  }

  /** What a runtime object remembers was handed to it. */
  ghost predicate ActiveOk(rows: Rows, runtimes: Objects, handed: Handed) {
    forall rid :: rid in runtimes && runtimes[rid].active.Some? ==>
      var k := Key(runtimes[rid].sid, runtimes[rid].active.value);
      Owns(rows, handed, rid, k) && IsTurn(rows[k].kind)
  }

  ghost predicate WiresOk(rows: Rows, runtimes: Objects, handed: Handed) {
    forall rid, w :: rid in runtimes && w in runtimes[rid].wires ==>
      Owns(rows, handed, rid, Key(runtimes[rid].sid, runtimes[rid].wires[w]))
  }

  ghost predicate DispatchesOk(rows: Rows, runtimes: Objects, handed: Handed, dispatches: map<Dispatch, Await>) {
    forall d :: d in dispatches ==>
      && d.rid in runtimes
      && Owns(rows, handed, d.rid, Key(runtimes[d.rid].sid, d.cid))
      && (dispatches[d].ForState? ==> IsTerminal(rows[Key(runtimes[d.rid].sid, d.cid)].status))
  }

  ghost predicate ResponsesOk(rows: Rows, responses: set<Key>) {
    forall k :: k in responses ==>
      k in rows && rows[k].kind.UiResponse? && (rows[k].status.Claimed? || rows[k].status.OutcomeUnknown?)
  }

  ghost predicate StagesOk(sessions: map<SessionId, Session>, registered: Registry, runtimes: Objects,
                           starting: set<SessionId>, stopping: map<SessionId, StopStage>) {
    && (forall sid :: sid in starting || sid in registered ==> sid in sessions && !sessions[sid].status.RecoveryRequired?)
    && (forall sid :: sid in registered && sid in starting && registered[sid] in runtimes ==> !runtimes[registered[sid]].timer)
    && (forall sid :: sid in stopping && stopping[sid].WaitingForClose? ==>
          sid !in starting && sid in registered && registered[sid] in runtimes && runtimes[registered[sid]].closing)
  }

  /** Why the store refused a change: the error text did not fit, or a stop overtook an answer. */
  ghost predicate Explained(rows: Rows, r: Refused) {
    || !ErrorFits(r.error)
    || (r.key in rows && rows[r.key].kind.UiResponse? && r.from == Some(OutcomeUnknown))
  }

  ghost predicate RefusalsOk(rows: Rows, refusals: seq<Refused>) {
    forall i :: 0 <= i < |refusals| ==> Explained(rows, refusals[i])
  }

  ghost predicate Inv(h: Host) {
    && RowsOk(h.tables.sessions, h.tables.commands)
    && RuntimesOk(h.tables.sessions, h.registered, h.runtimes, h.nextRid)
    && SendsOk(h.tables.commands, h.sends, h.handed)
    && PendingOk(h.tables.commands, h.registered, h.starting, h.handed)
    && TurnsOk(h.tables.commands, h.registered, h.runtimes)
    && ActiveOk(h.tables.commands, h.runtimes, h.handed)
    && WiresOk(h.tables.commands, h.runtimes, h.handed)
    && DispatchesOk(h.tables.commands, h.runtimes, h.handed, h.dispatches)
    && ResponsesOk(h.tables.commands, h.responses)
    && StagesOk(h.tables.sessions, h.registered, h.runtimes, h.starting, h.stopping)
    && RefusalsOk(h.tables.commands, h.refusals)
  }

  lemma InitialInv()
    ensures Inv(INITIAL)
  {
  }

  // ----------------------------------------------------- how components may change

  /** Rows are never dropped, keep their kind, and never become pending again. */
  ghost predicate RowsEvolve(a: Rows, b: Rows) {
    forall k :: k in a ==>
      && k in b
      && b[k].kind == a[k].kind
      && (IsTerminal(a[k].status) ==> b[k].status == a[k].status)
  }

  /** No new pending commands. */
  ghost predicate NoNewPending(a: Rows, b: Rows) {
    forall k :: k in b && IsPending(b[k]) ==> k in a && IsPending(a[k])
  }

  lemma RowsEvolveKeeps(h: Host, rows: Rows)
    requires Inv(h) && RowsEvolve(h.tables.commands, rows)
    ensures SendsOk(rows, h.sends, h.handed)
    ensures RefusalsOk(rows, h.refusals)
  {
    forall i | 0 <= i < |h.refusals| ensures Explained(rows, h.refusals[i]) {
      assert Explained(h.tables.commands, h.refusals[i]);
    }
  }

  lemma RowsEvolveKeepsActive(a: Rows, b: Rows, runtimes: Objects, handed: Handed)
    requires RowsEvolve(a, b) && ActiveOk(a, runtimes, handed)
    ensures ActiveOk(b, runtimes, handed)
  {
  }

  lemma RowsEvolveKeepsWires(a: Rows, b: Rows, runtimes: Objects, handed: Handed)
    requires RowsEvolve(a, b) && WiresOk(a, runtimes, handed)
    ensures WiresOk(b, runtimes, handed)
  {
    forall rid, w | rid in runtimes && w in runtimes[rid].wires
      ensures Owns(b, handed, rid, Key(runtimes[rid].sid, runtimes[rid].wires[w]))
    {
      assert Owns(a, handed, rid, Key(runtimes[rid].sid, runtimes[rid].wires[w]));
    }
  }

  lemma RowsEvolveKeepsDispatches(a: Rows, b: Rows, runtimes: Objects, handed: Handed, dispatches: map<Dispatch, Await>)
    requires RowsEvolve(a, b) && DispatchesOk(a, runtimes, handed, dispatches)
    ensures DispatchesOk(b, runtimes, handed, dispatches)
  {
    forall d | d in dispatches
      ensures Owns(b, handed, d.rid, Key(runtimes[d.rid].sid, d.cid))
      ensures dispatches[d].ForState? ==> IsTerminal(b[Key(runtimes[d.rid].sid, d.cid)].status)
    {
      assert Owns(a, handed, d.rid, Key(runtimes[d.rid].sid, d.cid));
    }
  }

  lemma FewerPendingKeeps(h: Host, rows: Rows)
    requires Inv(h) && RowsEvolve(h.tables.commands, rows) && NoNewPending(h.tables.commands, rows)
    ensures PendingOk(rows, h.registered, h.starting, h.handed)
    ensures TurnsOk(rows, h.registered, h.runtimes)
  {
  }

  /** New rows for old: everything about who was handed what stays true. */
  lemma NewRowsKeepInv(h: Host, rows: Rows)
    requires Inv(h)
    requires RowsEvolve(h.tables.commands, rows) && NoNewPending(h.tables.commands, rows)
    requires RowsOk(h.tables.sessions, rows)
    requires ResponsesOk(rows, h.responses)
    ensures Inv(h.(tables := h.tables.(commands := rows)))
  {
    RowsEvolveKeeps(h, rows);
    RowsEvolveKeepsActive(h.tables.commands, rows, h.runtimes, h.handed);
    RowsEvolveKeepsWires(h.tables.commands, rows, h.runtimes, h.handed);
    RowsEvolveKeepsDispatches(h.tables.commands, rows, h.runtimes, h.handed, h.dispatches);
    FewerPendingKeeps(h, rows);
  }

  /** A runtime object forgets, or closes, but never changes its session. */
  ghost predicate RuntimeEvolves(a: Runtime, b: Runtime) {
    && b.sid == a.sid
    && (b.active == a.active || b.active.None?)
    && (forall w :: w in b.wires ==> w in a.wires && b.wires[w] == a.wires[w])
    && (a.closing ==> b.closing)
    && (b.timer ==> a.timer)
  }

  lemma NewRuntimeKeepsInv(h: Host, rid: RuntimeId, rt: Runtime)
    requires Inv(h) && rid in h.runtimes && RuntimeEvolves(h.runtimes[rid], rt)
    requires TurnsOk(h.tables.commands, h.registered, h.runtimes[rid := rt])
    ensures Inv(WithRuntime(h, rid, rt))
  {
    var runtimes := h.runtimes[rid := rt];
    assert RuntimesOk(h.tables.sessions, h.registered, runtimes, h.nextRid);
    NewRuntimeKeepsMemory(h.tables.commands, h.runtimes, h.handed, rid, rt);
    NewRuntimeKeepsDispatches(h.tables.commands, h.runtimes, h.handed, h.dispatches, rid, rt);
    NewRuntimeKeepsStages(h, rid, rt);
  }

  lemma NewRuntimeKeepsMemory(rows: Rows, runtimes: Objects, handed: Handed, rid: RuntimeId, rt: Runtime)
    requires rid in runtimes && RuntimeEvolves(runtimes[rid], rt)
    requires ActiveOk(rows, runtimes, handed) && WiresOk(rows, runtimes, handed)
    ensures ActiveOk(rows, runtimes[rid := rt], handed) && WiresOk(rows, runtimes[rid := rt], handed)
  {
    var changed := runtimes[rid := rt];
    forall r, w | r in changed && w in changed[r].wires
      ensures Owns(rows, handed, r, Key(changed[r].sid, changed[r].wires[w]))
    {
      assert w in runtimes[r].wires;
    }
  }

  lemma NewRuntimeKeepsDispatches(rows: Rows, runtimes: Objects, handed: Handed, dispatches: map<Dispatch, Await>, rid: RuntimeId, rt: Runtime)
    requires rid in runtimes && RuntimeEvolves(runtimes[rid], rt)
    requires DispatchesOk(rows, runtimes, handed, dispatches)
    ensures DispatchesOk(rows, runtimes[rid := rt], handed, dispatches)
  {
  }

  lemma NewRuntimeKeepsStages(h: Host, rid: RuntimeId, rt: Runtime)
    requires rid in h.runtimes && RuntimeEvolves(h.runtimes[rid], rt)
    requires StagesOk(h.tables.sessions, h.registered, h.runtimes, h.starting, h.stopping)
    ensures StagesOk(h.tables.sessions, h.registered, h.runtimes[rid := rt], h.starting, h.stopping)
  {
  }

  lemma SameActiveKeepsTurns(h: Host, rid: RuntimeId, rt: Runtime)
    requires Inv(h) && rid in h.runtimes && rt.active == h.runtimes[rid].active
    ensures TurnsOk(h.tables.commands, h.registered, h.runtimes[rid := rt])
  {
  }

  /** The runtime changes without losing its active command. */
  lemma RuntimeTouchKeepsInv(h: Host, rid: RuntimeId, rt: Runtime)
    requires Inv(h) && rid in h.runtimes && RuntimeEvolves(h.runtimes[rid], rt) && rt.active == h.runtimes[rid].active
    ensures Inv(WithRuntime(h, rid, rt))
  {
    SameActiveKeepsTurns(h, rid, rt);
    NewRuntimeKeepsInv(h, rid, rt);
  }

  /** Session rows stay, and none that is live becomes `recovery_required`. */
  ghost predicate SessionsEvolve(a: map<SessionId, Session>, b: map<SessionId, Session>, live: set<SessionId>) {
    && a.Keys == b.Keys
    && forall sid :: sid in b && sid in live && b[sid].status.RecoveryRequired? ==> a[sid].status.RecoveryRequired?
  }

  lemma SessionsEvolveKeepsRows(a: map<SessionId, Session>, b: map<SessionId, Session>, rows: Rows)
    requires a.Keys == b.Keys && RowsOk(a, rows)
    ensures RowsOk(b, rows)
  {
    forall k | k in rows ensures k.sid in b && RowOk(rows[k]) {
      assert k.sid in a.Keys;
    }
  }

  lemma SessionsEvolveKeepsRuntimes(a: map<SessionId, Session>, b: map<SessionId, Session>, h: Host)
    requires a.Keys == b.Keys && RuntimesOk(a, h.registered, h.runtimes, h.nextRid)
    ensures RuntimesOk(b, h.registered, h.runtimes, h.nextRid)
  {
    forall rid | rid in h.runtimes ensures h.runtimes[rid].sid in b {
      assert h.runtimes[rid].sid in a.Keys;
    }
  }

  lemma SessionsEvolveKeepsStages(a: map<SessionId, Session>, b: map<SessionId, Session>, h: Host)
    requires SessionsEvolve(a, b, h.starting + h.registered.Keys)
    requires StagesOk(a, h.registered, h.runtimes, h.starting, h.stopping)
    ensures StagesOk(b, h.registered, h.runtimes, h.starting, h.stopping)
  {
    forall sid | sid in h.starting || sid in h.registered ensures sid in b && !b[sid].status.RecoveryRequired? {
      assert sid in a.Keys && sid in h.starting + h.registered.Keys;
    }
  }

  lemma SessionsKeepInv(h: Host, sessions: map<SessionId, Session>)
    requires Inv(h) && SessionsEvolve(h.tables.sessions, sessions, h.starting + h.registered.Keys)
    ensures Inv(h.(tables := h.tables.(sessions := sessions)))
  {
    SessionsEvolveKeepsRows(h.tables.sessions, sessions, h.tables.commands);
    SessionsEvolveKeepsRuntimes(h.tables.sessions, sessions, h);
    SessionsEvolveKeepsStages(h.tables.sessions, sessions, h);
  }

  lemma StatusKeepsInv(h: Host, sid: SessionId, status: SessionStatus)
    requires Inv(h) && (status.RecoveryRequired? ==> sid !in h.registered && sid !in h.starting)
    ensures Inv(SetStatus(h, sid, status))
  {
    if sid in h.tables.sessions {
      var sessions := h.tables.sessions[sid := h.tables.sessions[sid].(status := status)];
      assert sessions.Keys == h.tables.sessions.Keys;
      SessionsKeepInv(h, sessions);
    }
  }

  // ------------------------------------------------------------ status changes

  /** A change the store accepts on a pending row keeps the row legal. */
  lemma MovedRowOk(row: Row, next: Status)
    requires RowOk(row) && IsPending(row)
    requires IsTerminal(next) || (next.Acknowledged? && row.status.Claimed? && IsTurn(row.kind))
    ensures RowOk(MoveTo(row, next)) && IsAllowed(row.status, next) && row.status != next
  {
    assert row.history == [Claimed] || row.history == [Claimed, Acknowledged];
  }

  lemma MoveEvolves(rows: Rows, k: Key, next: Status)
    requires k in rows && IsPending(rows[k])
    requires !next.Claimed?
    ensures var moved := rows[k := MoveTo(rows[k], next)]; RowsEvolve(rows, moved) && NoNewPending(rows, moved)
  {
  }

  lemma MoveKeepsRows(sessions: map<SessionId, Session>, rows: Rows, k: Key, next: Status)
    requires RowsOk(sessions, rows) && k in rows && RowOk(MoveTo(rows[k], next))
    ensures RowsOk(sessions, rows[k := MoveTo(rows[k], next)])
  {
  }

  lemma MoveKeepsResponses(rows: Rows, responses: set<Key>, k: Key, next: Status)
    requires ResponsesOk(rows, responses) && k in rows && IsPending(rows[k])
    requires rows[k].kind.UiResponse? ==> IsTerminal(next) && (k !in responses || next.OutcomeUnknown?)
    ensures ResponsesOk(rows[k := MoveTo(rows[k], next)], responses)
  {
  }

  lemma MoveKeepsInv(h: Host, k: Key, next: Status)
    requires Inv(h) && k in h.tables.commands && IsPending(h.tables.commands[k])
    requires IsTerminal(next) || (next.Acknowledged? && h.tables.commands[k].status.Claimed? && IsTurn(h.tables.commands[k].kind))
    requires h.tables.commands[k].kind.UiResponse? ==> k !in h.responses || next.OutcomeUnknown?
    ensures Inv(h.(tables := h.tables.(commands := h.tables.commands[k := MoveTo(h.tables.commands[k], next)])))
  {
    MovedRowOk(h.tables.commands[k], next);
    MoveEvolves(h.tables.commands, k, next);
    MoveKeepsRows(h.tables.sessions, h.tables.commands, k, next);
    MoveKeepsResponses(h.tables.commands, h.responses, k, next);
    NewRowsKeepInv(h, h.tables.commands[k := MoveTo(h.tables.commands[k], next)]);
  }

  lemma RefusalKeepsInv(h: Host, r: Refused)
    requires Inv(h) && Explained(h.tables.commands, r)
    ensures Inv(h.(refusals := h.refusals + [r]))
  {
  }

  /** What the store answers to a final status for a pending command. */
  lemma FinishAnswer(t: Tables, k: Key, next: Status, error: ErrorText)
    requires k in t.commands && k.sid in t.sessions && RowOk(t.commands[k]) && IsPending(t.commands[k])
    requires IsTerminal(next) && (next.Failed? ==> error.Some?)
    ensures Transition(t, k, next, error) ==
      if ErrorFits(error) then (t.(commands := t.commands[k := MoveTo(t.commands[k], next)]), true) else (t, false)
  {
    MovedRowOk(t.commands[k], next);
  }

  lemma PendingRowIsOk(h: Host, k: Key)
    requires Inv(h) && k in h.tables.commands
    ensures RowOk(h.tables.commands[k]) && k.sid in h.tables.sessions
  {
  }

  /** Asking for a final status of a pending command: granted exactly when the error text fits. */
  lemma FinishKeepsInv(h: Host, k: Key, next: Status, error: ErrorText)
    requires Inv(h) && k in h.tables.commands && IsRpcPending(h.tables.commands[k])
    requires IsTerminal(next) && (next.Failed? ==> error.Some?)
    ensures var (g, accepted) := ChangeStatus(h, k, next, error);
            && Inv(g)
            && accepted == ErrorFits(error)
            && (accepted ==> g == h.(tables := h.tables.(commands := h.tables.commands[k := MoveTo(h.tables.commands[k], next)])))
            && (!accepted ==> g == h.(refusals := h.refusals + [Refused(k, Some(h.tables.commands[k].status), next, error)]))
  {
    PendingRowIsOk(h, k);
    FinishAnswer(h.tables, k, next, error);
    if ErrorFits(error) {
      MoveKeepsInv(h, k, next);
    } else {
      RefusalKeepsInv(h, Refused(k, StatusAt(h, k), next, error));
    }
  }

  lemma ClearKeepsInv(h: Host, rid: RuntimeId, cid: CommandId)
    requires Inv(h) && rid in h.runtimes
    requires var k := Key(h.runtimes[rid].sid, cid); k in h.tables.commands ==> !IsRpcPending(h.tables.commands[k])
    ensures Inv(ClearActive(h, rid, cid))
  {
    if h.runtimes[rid].active == Some(cid) {
      var rt := h.runtimes[rid].(active := None);
      ClearKeepsTurns(h, rid, cid);
      NewRuntimeKeepsInv(h, rid, rt);
    }
  }

  lemma ClearKeepsTurns(h: Host, rid: RuntimeId, cid: CommandId)
    requires Inv(h) && rid in h.runtimes && h.runtimes[rid].active == Some(cid)
    requires var k := Key(h.runtimes[rid].sid, cid); k in h.tables.commands ==> !IsRpcPending(h.tables.commands[k])
    ensures TurnsOk(h.tables.commands, h.registered, h.runtimes[rid := h.runtimes[rid].(active := None)])
  {
  }

  lemma ForgetKeepsInv(h: Host, rid: RuntimeId, cid: CommandId)
    requires Inv(h) && rid in h.runtimes
    ensures Inv(ForgetWires(h, rid, cid))
  {
    RuntimeTouchKeepsInv(h, rid, h.runtimes[rid].(wires := WithoutCommand(h.runtimes[rid].wires, cid)));
  }

  lemma DropKeepsInv(h: Host, d: Dispatch)
    requires Inv(h)
    ensures Inv(DropDispatch(h, d))
  {
  }

  lemma SettleKeepsInv(h: Host, rid: RuntimeId, cid: CommandId)
    requires Inv(h) && rid in h.runtimes
    ensures Inv(Settle(h, rid, cid))
  {
    ForgetKeepsInv(h, rid, cid);
    DropKeepsInv(ForgetWires(h, rid, cid), Dispatch(rid, cid));
    DropKeepsInv(h, Dispatch(rid, cid));
  }
}
