/** What calls, starts, stops, losses and restarts leave, told field by field. */
module HostCalls {
  import opened Basics
  import opened Journal
  import opened HostSteps
  import opened HostInvariant
  import opened HostPreservation
  import opened HostEffects
  import opened HostTheorems
  import opened HostOutcomes
  import J = CanonicalJson

  // ------------------------------------------------------------------------- calls

  /** A new command of the running incarnation of a session. */
  predicate IsNew(h: Host, k: Key, r: Request) {
    && !h.shutting && k.sid in h.tables.sessions && k !in h.tables.commands
    && r.incarnation == h.tables.sessions[k.sid].incarnation && J.Supported(r.payload)
  }

  function NewRow(r: Request, history: seq<Status>): Row
    requires J.Supported(r.payload) && |history| > 0
  {
    Row(r.kind, J.Encode(IdentityObject(Identity(r.device, r.incarnation, KindText(r.kind), r.payload))), history[|history| - 1], history)
  }

  function WithRow(h: Host, k: Key, row: Row): Host {
    h.(tables := h.tables.(commands := h.tables.commands[k := row]))
  }

  /** The runtime that is ready for a command of this kind: one turn at a time, everything else at any time. */
  predicate IsReadyFor(h: Host, sid: SessionId, kind: Kind) {
    && sid in h.registered && h.registered[sid] in h.runtimes
    && h.runtimes[h.registered[sid]].phase.Ready? && !h.runtimes[h.registered[sid]].closing
    && (kind.Prompt? || kind.AbortAndPrompt? ==> h.runtimes[h.registered[sid]].active.None?)
  }

  function HandedOver(h: Host, k: Key, kind: Kind, wire: Option<WireId>): Host
    requires k.sid in h.registered && h.registered[k.sid] in h.runtimes
  {
    var rid := h.registered[k.sid];
    var rt := h.runtimes[rid];
    h.(runtimes := h.runtimes[rid := rt.(
         active := if kind.Prompt? || kind.AbortAndPrompt? then Some(k.cid) else rt.active,
         wires := if wire.Some? then rt.wires[wire.value := k.cid] else rt.wires)],
       dispatches := h.dispatches[Dispatch(rid, k.cid) := ForAck],
       sends := h.sends + multiset{k},
       handed := h.handed[k := rid])
  }

  /**
    A command call: unless it is refused or repeated, its row is claimed and handed to the ready runtime,
    or not dispatched.
  */
  lemma CommandOutcome(h: Host, sid: SessionId, cid: CommandId, r: Request, pathOwned: bool, wire: Option<WireId>)
    requires Enabled(h, Command(sid, cid, r, pathOwned, wire))
    ensures var k, g := Key(sid, cid), Step(h, Command(sid, cid, r, pathOwned, wire));
            if !IsNew(h, k, r) || r.kind.UiResponse? || sid in h.starting || (r.kind.SwitchSession? && !pathOwned) then g == h
            else if IsReadyFor(h, sid, r.kind) then g == HandedOver(WithRow(h, k, NewRow(r, [Claimed])), k, r.kind, wire)
            else g == WithRow(h, k, NewRow(r, [Claimed, NotDispatched]))
  {
    var k, e := Key(sid, cid), Command(sid, cid, r, pathOwned, wire);
    if Accepts(h, e) {
      if CanDispatch(h, sid, r.kind) {
        DispatchedCall(h, e);
      } else {
        WithheldCall(h, e);
        UndispatchedCall(h, k, r.kind, r.Identity());
      }
    } else {
      RefusedCallsChangeNothing(h, e);
    }
  }

  /** An answer to a question: claimed and handed to the broker while the runtime is not closing, or not dispatched. */
  lemma RespondOutcome(h: Host, sid: SessionId, cid: CommandId, r: Request)
    requires Enabled(h, Respond(sid, cid, r))
    ensures var k, g := Key(sid, cid), Step(h, Respond(sid, cid, r));
            if !IsNew(h, k, r) then g == h
            else if sid in h.registered && h.registered[sid] in h.runtimes && !h.runtimes[h.registered[sid]].closing then
              g == WithRow(h, k, NewRow(r, [Claimed])).(responses := h.responses + {k}, sends := h.sends + multiset{k},
                                                         handed := h.handed[k := h.registered[sid]])
            else g == WithRow(h, k, NewRow(r, [Claimed, NotDispatched]))
  {
    var k, e := Key(sid, cid), Respond(sid, cid, r);
    if Accepts(h, e) {
      UndispatchedCall(h, k, UiResponse, r.Identity());
    } else {
      RefusedCallsChangeNothing(h, e);
    }
  }

  /** The status that the broker's outcome means. */
  predicate AnswerMeans(outcome: AnswerOutcome, status: Status) {
    && (status.Completed? <==> outcome.AnswerSent?)
    && (status.OutcomeUnknown? <==> outcome.AnswerSendFailed?)
    && (status.NotDispatched? <==> outcome.AnswerRejected?)
  }

  /** The broker's outcome is stored for a claimed answer; one that is unknown already stays so. */
  lemma AnswerOutcomeIsStored(h: Host, k: Key, outcome: AnswerOutcome, bytes: nat)
    requires Inv(h) && Enabled(h, Answered(k, outcome, bytes)) && bytes <= 16_384
    ensures k in h.tables.commands
    ensures var g := Step(h, Answered(k, outcome, bytes));
            && k in g.tables.commands
            && g == WithRow(h, k, g.tables.commands[k]).(responses := h.responses - {k}, refusals := g.refusals)
            && (if h.tables.commands[k].status.Claimed?
                then AnswerMeans(outcome, g.tables.commands[k].status) && g.refusals == h.refusals
                     && g.tables.commands[k] == Moved(h.tables.commands[k], g.tables.commands[k].status)
                else g.tables.commands[k] == h.tables.commands[k])
  {
    AnswerWaits(h, k);
    OnAnsweredTold(h, k, outcome, bytes);
  }

  lemma AnswerWaits(h: Host, k: Key)
    requires Inv(h) && k in h.responses
    ensures k in h.tables.commands && k.sid in h.tables.sessions
    ensures h.tables.commands[k].status.Claimed? || h.tables.commands[k].status.OutcomeUnknown?
  {
    PendingRowIsOk(h, k);
  }

  lemma OnAnsweredTold(h: Host, k: Key, outcome: AnswerOutcome, bytes: nat)
    requires k in h.tables.commands && k.sid in h.tables.sessions && 0 < bytes <= 16_384
    requires h.tables.commands[k].status.Claimed? || h.tables.commands[k].status.OutcomeUnknown?
    ensures var row, g := h.tables.commands[k], OnAnswered(h, k, outcome, Some(bytes));
            && k in g.tables.commands
            && g == WithRow(h, k, g.tables.commands[k]).(responses := h.responses - {k}, refusals := g.refusals)
            && (if row.status.Claimed?
                then AnswerMeans(outcome, g.tables.commands[k].status) && g.refusals == h.refusals
                     && g.tables.commands[k] == Moved(row, g.tables.commands[k].status)
                else g.tables.commands[k] == row)
  {
    AnswerTold(h.(responses := h.responses - {k}), k, outcome, bytes);
    assert h.tables.commands[k := h.tables.commands[k]] == h.tables.commands;
  }

  lemma AnswerTold(h: Host, k: Key, outcome: AnswerOutcome, bytes: nat)
    requires k in h.tables.commands && k.sid in h.tables.sessions && 0 < bytes <= 16_384
    requires h.tables.commands[k].status.Claimed? || h.tables.commands[k].status.OutcomeUnknown?
    ensures var row := h.tables.commands[k];
            var status := if outcome.AnswerSent? then Completed else if outcome.AnswerSendFailed? then OutcomeUnknown else NotDispatched;
            var g := match outcome
                     case AnswerSent =>
                       var (g, accepted) := ChangeStatus(h, k, Completed, None);
                       if accepted then g else ChangeStatus(g, k, NotDispatched, OWN_TEXT).0
                     case AnswerSendFailed => ChangeStatus(h, k, OutcomeUnknown, Some(bytes)).0
                     case AnswerRejected => ChangeStatus(h, k, NotDispatched, Some(bytes)).0;
            g == (if row.status.Claimed? then WithRow(h, k, Moved(row, status)) else h.(refusals := g.refusals))
  {
  }

  // --------------------------------------------------------------------- lifecycle

  /** Every unfinished row of the session becomes unknown. */
  function AllUnknown(commands: Rows, sid: SessionId): Rows {
    map k | k in commands :: if k.sid == sid && Unfinished(commands[k]) then Moved(commands[k], OutcomeUnknown) else commands[k]
  }

  /** A runtime that lost its process, when it is still the live one of its session. */
  function LostHost(h: Host, rid: RuntimeId): Host
    requires rid in h.runtimes && h.runtimes[rid].sid in h.tables.sessions
  {
    var sid := h.runtimes[rid].sid;
    if sid in h.registered && h.registered[sid] == rid && !h.runtimes[rid].closing then
      h.(runtimes := h.runtimes[rid := h.runtimes[rid].(closing := true)],
         registered := h.registered - {sid},
         tables := Tables(h.tables.sessions[sid := h.tables.sessions[sid].(status := RecoveryRequired)], AllUnknown(h.tables.commands, sid)))
    else h
  }

  lemma LoseOutcome(h: Host, rid: RuntimeId)
    requires rid in h.runtimes && h.runtimes[rid].sid in h.tables.sessions
    ensures Lose(h, rid) == LostHost(h, rid)
  {
    assert UnknownIn(h.tables, h.runtimes[rid].sid).commands == AllUnknown(h.tables.commands, h.runtimes[rid].sid);
  }

  lemma LostOutcome(h: Host, rid: RuntimeId)
    requires Inv(h) && Enabled(h, Lost(rid))
    ensures h.runtimes[rid].sid in h.tables.sessions && Step(h, Lost(rid)) == LostHost(h, rid)
  {
    RuntimeIsKnown(h, rid);
    LoseOutcome(h, rid);
  }

  /**
    A start: nothing while the host closes, the session stops, starts or is live; a registered runtime that
    is not live is given up; a session in recovery is refused; else the session is starting.
  */
  lemma StartOutcome(h: Host, sid: SessionId)
    requires Inv(h)
    ensures sid in h.registered ==> h.registered[sid] in h.runtimes && h.runtimes[h.registered[sid]].sid in h.tables.sessions
    ensures Step(h, Start(sid)) ==
      if h.shutting || sid in h.stopping then h
      else if sid in h.registered && h.runtimes[h.registered[sid]].phase.Ready? && !h.runtimes[h.registered[sid]].closing then h
      else if sid in h.starting then h
      else if sid in h.registered then LostHost(h, h.registered[sid])
      else if sid !in h.tables.sessions || h.tables.sessions[sid].status.RecoveryRequired? then h
      else h.(starting := h.starting + {sid})
  {
    RegisteredIsKnown(h, sid);
    StartTold(h, sid);
  }

  lemma RegisteredIsKnown(h: Host, sid: SessionId)
    requires Inv(h)
    ensures sid in h.registered ==> h.registered[sid] in h.runtimes && h.runtimes[h.registered[sid]].sid in h.tables.sessions
  {
  }

  lemma StartTold(h: Host, sid: SessionId)
    requires sid in h.registered ==> h.registered[sid] in h.runtimes && h.runtimes[h.registered[sid]].sid in h.tables.sessions
    ensures OnStart(h, sid) ==
      if h.shutting || sid in h.stopping then h
      else if sid in h.registered && h.runtimes[h.registered[sid]].phase.Ready? && !h.runtimes[h.registered[sid]].closing then h
      else if sid in h.starting then h
      else if sid in h.registered then LostHost(h, h.registered[sid])
      else if sid !in h.tables.sessions || h.tables.sessions[sid].status.RecoveryRequired? then h
      else h.(starting := h.starting + {sid})
  {
    if sid in h.registered {
      LoseOutcome(h, h.registered[sid]);
    }
  }

  lemma SpawnOutcome(h: Host, sid: SessionId, incarnation: J.Text)
    requires Inv(h) && Enabled(h, Spawn(sid, incarnation))
    ensures sid in h.tables.sessions
    ensures Step(h, Spawn(sid, incarnation)) ==
      h.(tables := h.tables.(sessions := h.tables.sessions[sid := Session(h.tables.sessions[sid].status, incarnation)]),
         runtimes := h.runtimes[h.nextRid := Runtime(sid, Connecting, false, false, None, map[], false)],
         registered := h.registered[sid := h.nextRid],
         nextRid := h.nextRid + 1)
    ensures Step(h, SpawnRefused(sid)) == h.(starting := h.starting - {sid})
  {
  }

  /** The rest of a start: the client is there, the session is idle, the process is watched. */
  lemma StartingOutcome(h: Host, sid: SessionId)
    requires Spawned(h, sid)
    ensures var rid, rt := h.registered[sid], h.runtimes[h.registered[sid]];
            && (Enabled(h, Connected(sid)) ==> Step(h, Connected(sid)) == h.(runtimes := h.runtimes[rid := rt.(phase := Ready)]))
            && (Enabled(h, Started(sid)) ==>
                  Step(h, Started(sid)) == h.(runtimes := h.runtimes[rid := rt.(timer := true)], starting := h.starting - {sid}))
  {
  }

  lemma StartIsIdle(h: Host, sid: SessionId)
    requires Inv(h) && Spawned(h, sid)
    ensures sid in h.tables.sessions && (Enabled(h, MarkIdle(sid)) ==> Step(h, MarkIdle(sid)) == WithSession(h, sid, Idle))
  {
    RegisteredIsKnown(h, sid);
  }

  lemma StartFailingOutcome(h: Host, sid: SessionId)
    requires Enabled(h, StartFailing(sid))
    ensures var rid, rt := h.registered[sid], h.runtimes[h.registered[sid]];
            Step(h, StartFailing(sid)) ==
              h.(runtimes := h.runtimes[rid := rt.(closing := true, phase := if rt.phase.Ready? then Closing else rt.phase)])
  {
  }

  lemma StartFailedOutcome(h: Host, sid: SessionId, reaped: bool)
    requires Inv(h) && Enabled(h, StartFailed(sid, reaped))
    ensures sid in h.tables.sessions
    ensures Step(h, StartFailed(sid, reaped)) ==
      WithSession(h, sid, Stopped).(
        runtimes := if reaped then h.runtimes[h.registered[sid] := h.runtimes[h.registered[sid]].(phase := Closed)] else h.runtimes,
        registered := h.registered - {sid},
        starting := h.starting - {sid})
  {
    RuntimeIsKnown(h, h.registered[sid]);
  }

  /** A runtime is told to close, or there is none to close. */
  function StopBegun(h: Host, sid: SessionId): Host {
    if sid in h.registered && h.registered[sid] in h.runtimes then
      var rt := h.runtimes[h.registered[sid]];
      h.(runtimes := h.runtimes[h.registered[sid] := rt.(closing := true, phase := if rt.phase.Ready? then Closing else rt.phase)],
         stopping := h.stopping[sid := WaitingForClose])
    else h.(stopping := h.stopping - {sid})
  }

  lemma StopOutcome(h: Host, sid: SessionId)
    ensures Step(h, Stop(sid)) ==
      if sid in h.stopping then h
      else if sid in h.starting then h.(stopping := h.stopping[sid := WaitingForStart])
      else StopBegun(h, sid)
    ensures Enabled(h, StopProceed(sid)) ==> Step(h, StopProceed(sid)) == StopBegun(h, sid)
  {
  }

  /** After the close the runtime goes, nothing of the session stays unfinished, and it is stopped. */
  lemma StopFinishedOutcome(h: Host, sid: SessionId, reaped: bool)
    requires Inv(h) && Enabled(h, StopFinished(sid, reaped))
    ensures sid in h.registered && h.registered[sid] in h.runtimes && sid in h.tables.sessions
    ensures Step(h, StopFinished(sid, reaped)) ==
      if !reaped then h.(stopping := h.stopping - {sid})
      else
        h.(stopping := h.stopping - {sid},
           runtimes := h.runtimes[h.registered[sid] := h.runtimes[h.registered[sid]].(phase := Closed)],
           registered := h.registered - {sid},
           tables := Tables(h.tables.sessions[sid := h.tables.sessions[sid].(status := Stopped)], AllUnknown(h.tables.commands, sid)))
  {
    assert UnknownIn(h.tables, sid).commands == AllUnknown(h.tables.commands, sid);
  }

  /** The owner's calls. */
  lemma OwnerOutcome(h: Host, sid: SessionId, incarnation: J.Text)
    ensures Step(h, CreateSession(sid, incarnation)) ==
      if h.shutting || sid in h.tables.sessions then h
      else h.(tables := h.tables.(sessions := h.tables.sessions[sid := Session(Idle, incarnation)]))
    ensures Step(h, Reconcile(sid)) ==
      if !h.shutting && sid !in h.registered && sid in h.tables.sessions && h.tables.sessions[sid].status.RecoveryRequired?
      then WithSession(h, sid, Stopped) else h
    ensures Step(h, Shutdown) == h.(shutting := true)
  {
  }

  lemma ClientDownOutcome(h: Host, rid: RuntimeId, p: Phase)
    requires Enabled(h, ClientDown(rid, p))
    ensures Step(h, ClientDown(rid, p)) == h.(runtimes := h.runtimes[rid := h.runtimes[rid].(phase := p)])
  {
  }

  // ------------------------------------------------------------------- what can come

  /** Callers may call at any time, and the process may crash at any time. */
  lemma CallersAreFree(h: Host, sid: SessionId, cid: CommandId, r: Request, pathOwned: bool, incarnation: J.Text)
    ensures Enabled(h, Command(sid, cid, r, pathOwned, None)) && (r.kind.UiResponse? ==> Enabled(h, Respond(sid, cid, r)))
    ensures Enabled(h, CreateSession(sid, incarnation)) && Enabled(h, Start(sid)) && Enabled(h, Stop(sid)) && Enabled(h, Reconcile(sid))
    ensures Enabled(h, Shutdown) && Enabled(h, Restart)
  {
  }

  /** A start whose runtime is registered can go on or fail; one that is being given up can be. */
  lemma StartsGoOn(h: Host, sid: SessionId, reaped: bool)
    requires sid in h.starting && sid in h.registered && h.registered[sid] in h.runtimes
    ensures var rt := h.runtimes[h.registered[sid]];
            && (Enabled(h, StartFailed(sid, reaped)) <==> rt.closing)
            && (Enabled(h, StartFailing(sid)) <==> !rt.closing)
            && (Enabled(h, Connected(sid)) <==> !rt.closing && rt.phase.Connecting?)
            && (Enabled(h, MarkIdle(sid)) <==> !rt.closing && !rt.phase.Connecting?)
            && (Enabled(h, Started(sid)) <==> !rt.closing && !rt.phase.Connecting?)
  {
  }

  /** Before that, one can register a runtime or be refused one. */
  lemma StartsBegin(h: Host, sid: SessionId, incarnation: J.Text)
    ensures Enabled(h, Spawn(sid, incarnation)) <==> sid in h.starting && sid !in h.registered
    ensures Enabled(h, SpawnRefused(sid)) <==> sid in h.starting && sid !in h.registered
  {
  }

  /** Every suspended call can go on, with every outcome it may have. */
  lemma NothingIsStuck(h: Host, bytes: nat)
    requires bytes > 0
    ensures forall d, cause :: d in h.dispatches ==> Enabled(h, Fail(d.rid, d.cid, cause, bytes))
    ensures forall d, localOnly :: d in h.dispatches && h.dispatches[d].ForAck? ==> Enabled(h, Ack(d.rid, d.cid, localOnly))
    ensures forall d :: d in h.dispatches && h.dispatches[d].ForState? ==> Enabled(h, StateRead(d.rid, d.cid))
    ensures forall k, outcome :: k in h.responses ==> Enabled(h, Answered(k, outcome, bytes))
    ensures forall sid, reaped :: sid in h.stopping && h.stopping[sid].WaitingForClose? ==> Enabled(h, StopFinished(sid, reaped))
    ensures forall sid :: sid in h.stopping && h.stopping[sid].WaitingForStart? && sid !in h.starting ==> Enabled(h, StopProceed(sid))
    ensures forall rid, f :: rid in h.runtimes && !h.runtimes[rid].phase.Closed? ==> Enabled(h, Received(rid, f))
    ensures forall rid :: rid in h.runtimes && (h.runtimes[rid].phase.Ready? || h.runtimes[rid].phase.Closing?) ==>
      Enabled(h, ClientDown(rid, Closing)) && Enabled(h, ClientDown(rid, Closed))
    ensures forall rid :: rid in h.runtimes && h.runtimes[rid].timer && h.runtimes[rid].phase.Closed? ==> Enabled(h, Lost(rid))
  {
  }

  // ----------------------------------------------------------------------- recovery

  /** A crash and the next host, at any point of any run: nothing survives but the recovered store. */
  lemma RestartOutcome(trace: seq<Host>, events: seq<Event>, i: nat)
    requires IsRun(trace, events) && i < |events| && events[i].Restart?
    ensures var h, g := trace[i], trace[i + 1];
            && Recovers(h.tables, g.tables)
            && g == h.(tables := g.tables, registered := map[], runtimes := map[], starting := {}, stopping := map[],
                       dispatches := map[], responses := {}, shutting := false)
  {
    NextStep(trace, events, i);
    RestartTold(trace[i]);
  }

  lemma RestartTold(h: Host)
    ensures var g := Step(h, Restart);
            && Recovers(h.tables, g.tables)
            && g == h.(tables := g.tables, registered := map[], runtimes := map[], starting := {}, stopping := map[],
                       dispatches := map[], responses := {}, shutting := false)
  {
    RecoverRecovers(h.tables);
  }
}
