/** Turns of one OMP process never overlap. */
module HostTurns {
  import opened Basics
  import opened Journal
  import opened HostSteps
  import opened HostInvariant
  import opened HostPreservation
  import opened HostEffects
  import opened HostTheorems
  import opened HostOutcomes

  /**
    The events that end the active turn of a runtime: an acknowledgement that no agent ran, a failure
    whose outcome is known, OMP's result or error for the turn's own request, or a terminal agent end.
    A loss, a stop and a failure with unknown outcome are not among them.
  */
  ghost predicate EndsTurn(h: Host, e: Event, rid: RuntimeId)
    requires rid in h.runtimes
  {
    match e
    case Ack(r, cid, localOnly) => r == rid && IsTurnOf(h, rid, cid) && localOnly && Unfinished(h.tables.commands[Key(h.runtimes[rid].sid, cid)])
    case Fail(r, cid, cause, bytes) =>
      && r == rid && IsTurnOf(h, rid, cid)
      && var row := h.tables.commands[Key(h.runtimes[rid].sid, cid)];
         if Unfinished(row) then !cause.OtherFailure? && bytes <= 16_384 else !row.status.OutcomeUnknown?
    case Received(r, f) => r == rid && !h.runtimes[rid].faulted && FrameEndsTurn(h, rid, f)
    case _ => false
  }

  ghost predicate IsTurnOf(h: Host, rid: RuntimeId, cid: CommandId)
    requires rid in h.runtimes
  {
    h.runtimes[rid].active == Some(cid) && Key(h.runtimes[rid].sid, cid) in h.tables.commands
  }

  ghost predicate FrameEndsTurn(h: Host, rid: RuntimeId, f: Frame)
    requires rid in h.runtimes
  {
    var rt := h.runtimes[rid];
    match f
    case PromptResult(wire) => wire.Some? && wire.value in rt.wires && IsTurnOf(h, rid, rt.wires[wire.value])
    case ResponseFailed(wire, bytes) =>
      && wire.Some? && wire.value in rt.wires && IsTurnOf(h, rid, rt.wires[wire.value])
      && (Unfinished(h.tables.commands[Key(rt.sid, rt.wires[wire.value])]) ==> 0 < bytes <= 16_384)
    case AgentEnd(isTerminal) => isTerminal
    case _ => false
  }

  /** The runtime is gone for good, or still has this command active. */
  ghost predicate Holds(h: Host, rid: RuntimeId, cid: CommandId) {
    if rid in h.runtimes then h.runtimes[rid].active == Some(cid) else rid < h.nextRid
  }

  /** After a continuation or a frame the turn is over exactly when the event ends it. */
  ghost predicate TurnGoesOn(h: Host, g: Host, e: Event, rid: RuntimeId)
    requires rid in h.runtimes
  {
    rid in g.runtimes && g.runtimes[rid].active == if EndsTurn(h, e, rid) then None else h.runtimes[rid].active
  }

  /** The active command is a turn. */
  lemma ActiveIsTurn(h: Host, rid: RuntimeId)
    requires Inv(h) && rid in h.runtimes && h.runtimes[rid].active.Some?
    ensures IsTurnAt(h, Key(h.runtimes[rid].sid, h.runtimes[rid].active.value))
  {
  }

  predicate IsTurnAt(h: Host, k: Key) {
    k in h.tables.commands && (h.tables.commands[k].kind.Prompt? || h.tables.commands[k].kind.AbortAndPrompt?)
  }

  /** Only this runtime's active command differs, and it is this one. */
  ghost predicate ActiveAfter(h: Host, g: Host, rid: RuntimeId, active: Option<CommandId>) {
    g.runtimes.Keys == h.runtimes.Keys
    && forall r :: r in h.runtimes ==> g.runtimes[r].active == if r == rid then active else h.runtimes[r].active
  }

  lemma AckedActive(h: Host, rid: RuntimeId, cid: CommandId, localOnly: bool)
    requires rid in h.runtimes && Key(h.runtimes[rid].sid, cid) in h.tables.commands
    ensures ActiveAfter(h, Acked(h, rid, cid, localOnly), rid,
                        AckedRuntime(h.runtimes[rid], h.tables.commands[Key(h.runtimes[rid].sid, cid)], cid, localOnly).active)
  {
  }

  lemma AckEndsTurn(h: Host, g: Host, e: Event, rid: RuntimeId)
    requires e.Ack? && rid in h.runtimes && h.runtimes[rid].active.Some?
    requires IsTurnAt(h, Key(h.runtimes[rid].sid, h.runtimes[rid].active.value))
    requires e.rid in h.runtimes && Key(h.runtimes[e.rid].sid, e.cid) in h.tables.commands
    requires ActiveAfter(h, g, e.rid, AckedRuntime(h.runtimes[e.rid], h.tables.commands[Key(h.runtimes[e.rid].sid, e.cid)], e.cid, e.localOnly).active)
    ensures TurnGoesOn(h, g, e, rid)
  {
  }

  lemma FailureEndsTurn(h: Host, g: Host, e: Event, rid: RuntimeId)
    requires e.Fail? && rid in h.runtimes && h.runtimes[rid].active.Some?
    requires e.rid in h.runtimes && Key(h.runtimes[e.rid].sid, e.cid) in h.tables.commands
    requires FailureLeaves(h, e.rid, e.cid, e.cause, e.errorBytes, g)
    ensures TurnGoesOn(h, g, e, rid)
  {
  }

  lemma ContinuationEndsTurn(h: Host, e: Event, rid: RuntimeId)
    requires Inv(h) && Enabled(h, e) && (e.Ack? || e.Fail? || e.StateRead?)
    requires rid in h.runtimes && h.runtimes[rid].active.Some?
    ensures TurnGoesOn(h, Step(h, e), e, rid)
  {
    ActiveIsTurn(h, rid);
    if e.Ack? {
      AckOutcome(h, e);
      AckedActive(h, e.rid, e.cid, e.localOnly);
      AckEndsTurn(h, Step(h, e), e, rid);
    } else if e.Fail? {
      FailureOutcome(h, e);
      FailureEndsTurn(h, Step(h, e), e, rid);
    } else {
      StateReadOutcome(h, e);
    }
  }

  lemma EndActive(h: Host, g: Host, rid: RuntimeId, f: Frame)
    requires f.AgentEnd? && KnowsItsCommands(h, rid) && FrameLeaves(h, rid, f, g)
    ensures ActiveAfter(h, g, rid, if !h.runtimes[rid].faulted && FrameEndsTurn(h, rid, f) then None else h.runtimes[rid].active)
  {
    if h.runtimes[rid].active.Some? {
      CompletedActive(h, rid, h.runtimes[rid].active.value);
    }
  }

  lemma AnswerActive(h: Host, g: Host, rid: RuntimeId, f: Frame)
    requires (f.PromptResult? || f.ResponseFailed?) && KnowsItsCommands(h, rid) && FrameLeaves(h, rid, f, g)
    ensures ActiveAfter(h, g, rid, if !h.runtimes[rid].faulted && FrameEndsTurn(h, rid, f) then None else h.runtimes[rid].active)
  {
    if f.wire.Some? && f.wire.value in h.runtimes[rid].wires {
      if f.PromptResult? {
        CompletedActive(h, rid, h.runtimes[rid].wires[f.wire.value]);
      } else {
        FailedActive(h, rid, h.runtimes[rid].wires[f.wire.value], f.errorBytes);
      }
    }
  }

  lemma FrameActive(h: Host, g: Host, rid: RuntimeId, f: Frame)
    requires KnowsItsCommands(h, rid) && FrameLeaves(h, rid, f, g)
    ensures ActiveAfter(h, g, rid, if !h.runtimes[rid].faulted && FrameEndsTurn(h, rid, f) then None else h.runtimes[rid].active)
  {
    match f
    case PromptResult(wire) => AnswerActive(h, g, rid, f);
    case ResponseFailed(wire, bytes) => AnswerActive(h, g, rid, f);
    case AgentEnd(isTerminal) => EndActive(h, g, rid, f);
    case _ =>
  }

  lemma CompletedActive(h: Host, rid: RuntimeId, cid: CommandId)
    requires rid in h.runtimes && Key(h.runtimes[rid].sid, cid) in h.tables.commands
    ensures ActiveAfter(h, CompletedHost(h, rid, cid), rid, if h.runtimes[rid].active == Some(cid) then None else h.runtimes[rid].active)
  {
  }

  lemma FailedActive(h: Host, rid: RuntimeId, cid: CommandId, bytes: nat)
    requires rid in h.runtimes && Key(h.runtimes[rid].sid, cid) in h.tables.commands
    ensures ActiveAfter(h, FailedHost(h, rid, cid, bytes), rid,
                        if h.runtimes[rid].active == Some(cid) && (Unfinished(h.tables.commands[Key(h.runtimes[rid].sid, cid)]) ==> 0 < bytes <= 16_384)
                        then None else h.runtimes[rid].active)
  {
  }

  lemma FrameEndsOrNot(h: Host, g: Host, e: Event, rid: RuntimeId)
    requires e.Received? && e.rid in h.runtimes && rid in h.runtimes && h.runtimes[rid].active.Some?
    requires ActiveAfter(h, g, e.rid,
                         if !h.runtimes[e.rid].faulted && FrameEndsTurn(h, e.rid, e.frame) then None else h.runtimes[e.rid].active)
    ensures TurnGoesOn(h, g, e, rid)
  {
  }

  lemma ReceivedEndsTurn(h: Host, e: Event, rid: RuntimeId)
    requires Inv(h) && Enabled(h, e) && e.Received? && rid in h.runtimes && h.runtimes[rid].active.Some?
    ensures TurnGoesOn(h, Step(h, e), e, rid)
  {
    FrameOutcome(h, e);
    FrameActive(h, Step(h, e), e.rid, e.frame);
    FrameEndsOrNot(h, Step(h, e), e, rid);
  }

  lemma CallHolds(h: Host, e: Event, rid: RuntimeId, cid: CommandId)
    requires Inv(h) && Enabled(h, e) && (e.Command? || e.Respond?)
    requires Holds(h, rid, cid)
    ensures Holds(Step(h, e), rid, cid)
  {
    if !Accepts(h, e) {
      RefusedCallsChangeNothing(h, e);
    } else if e.Command? {
      CommandEffect(h, e);
    } else {
      RespondEffect(h, e);
    }
  }

  lemma RestartHolds(h: Host, rid: RuntimeId, cid: CommandId)
    requires Inv(h) && Holds(h, rid, cid)
    ensures Holds(OnRestart(h), rid, cid)
  {
  }

  /** Every step ends the active turn of a runtime exactly when it is one of those events, or the runtime goes with the process. */
  lemma StepEndsTurn(h: Host, e: Event, rid: RuntimeId, cid: CommandId)
    requires Inv(h) && Enabled(h, e) && Holds(h, rid, cid)
    ensures if rid in h.runtimes && rid in Step(h, e).runtimes then TurnGoesOn(h, Step(h, e), e, rid) else Holds(Step(h, e), rid, cid)
  {
    if e.Ack? || e.Fail? || e.StateRead? {
      if rid in h.runtimes { ContinuationEndsTurn(h, e, rid); }
      ContinuationTouches(h, e);
    } else if e.Received? {
      if rid in h.runtimes { ReceivedEndsTurn(h, e, rid); }
      ReceivedTouches(h, e.rid, e.frame);
    } else if e.Command? || e.Respond? {
      CallHolds(h, e, rid, cid);
    } else if e.Answered? {
      AnsweredEffect(h, e.key, e.outcome, Some(e.errorBytes));
    } else if e.Restart? {
      RestartHolds(h, rid, cid);
    } else {
      LifecycleIsCalm(h, e);
    }
  }

  // ----------------------------------------------------------------- whole runs

  /** Event `i` of the run sends the turn command `k` through the runtime `rid`. */
  ghost predicate TurnSentAt(trace: seq<Host>, events: seq<Event>, i: nat, rid: RuntimeId, k: Key)
    requires |trace| == |events| + 1 && i < |events|
  {
    && SendsAt(trace, i, k)
    && k in trace[i + 1].handed && trace[i + 1].handed[k] == rid
    && k in trace[i + 1].tables.commands && IsTurn(trace[i + 1].tables.commands[k].kind)
  }

  /** Event `n` of the run ends this turn, and leaves the runtime without an active command. */
  ghost predicate TurnEndsAt(trace: seq<Host>, events: seq<Event>, n: nat, rid: RuntimeId, cid: CommandId)
    requires |trace| == |events| + 1 && n < |events|
  {
    && rid in trace[n].runtimes && trace[n].runtimes[rid].active == Some(cid) && EndsTurn(trace[n], events[n], rid)
    && rid in trace[n + 1].runtimes && trace[n + 1].runtimes[rid].active.None?
  }

  /** A turn is sent only to an idle runtime, and makes it busy. */
  lemma TurnNeedsIdleRuntime(h: Host, e: Event, k: Key)
    requires Inv(h) && Enabled(h, e) && SendsNow(h, e, k)
    requires k in Step(h, e).tables.commands && IsTurn(Step(h, e).tables.commands[k].kind)
    ensures var g := Step(h, e);
            && k in g.handed && g.handed[k] in h.runtimes && g.handed[k] in g.runtimes
            && h.runtimes[g.handed[k]].active.None?
            && g.runtimes[g.handed[k]].active == Some(k.cid)
  {
    OnlyTheCreatingCallSends(h, e, k);
    if !Accepts(h, e) {
      RefusedCallsChangeNothing(h, e);
    } else if e.Command? {
      CommandEffect(h, e);
    } else {
      RespondEffect(h, e);
    }
  }

  lemma TurnNeedsIdleRuntimeAt(trace: seq<Host>, events: seq<Event>, i: nat, rid: RuntimeId, k: Key)
    requires IsRun(trace, events) && i < |events| && TurnSentAt(trace, events, i, rid, k)
    ensures rid in trace[i].runtimes && trace[i].runtimes[rid].active.None?
    ensures Holds(trace[i + 1], rid, k.cid)
  {
    RunKeepsInv(trace, events, i);
    NextStep(trace, events, i);
    TurnNeedsIdleRuntime(trace[i], events[i], k);
  }

  lemma HoldsAt(trace: seq<Host>, events: seq<Event>, i: nat, rid: RuntimeId, cid: CommandId)
    requires IsRun(trace, events) && i < |events| && Holds(trace[i], rid, cid) && !TurnEndsAt(trace, events, i, rid, cid)
    ensures Holds(trace[i + 1], rid, cid)
  {
    RunKeepsInv(trace, events, i);
    NextStep(trace, events, i);
    StepEndsTurn(trace[i], events[i], rid, cid);
  }

  lemma {:induction false} HoldsInRun(trace: seq<Host>, events: seq<Event>, i: nat, j: nat, rid: RuntimeId, cid: CommandId)
    requires IsRun(trace, events) && i <= j < |trace| && Holds(trace[i], rid, cid)
    requires forall n :: i <= n < j ==> !TurnEndsAt(trace, events, n, rid, cid)
    ensures Holds(trace[j], rid, cid)
    decreases j - i
  {
    if i < j {
      HoldsInRun(trace, events, i, j - 1, rid, cid);
      HoldsAt(trace, events, j - 1, rid, cid);
    }
  }

  /**
    One turn at a time: between two turn commands sent through one OMP process the first one has
    ended, even when its stored outcome became unknown in between.
  */
  lemma OneTurnAtATime(trace: seq<Host>, events: seq<Event>, i: nat, j: nat, rid: RuntimeId, first: Key, second: Key)
    requires IsRun(trace, events) && i < j < |events|
    requires TurnSentAt(trace, events, i, rid, first) && TurnSentAt(trace, events, j, rid, second)
    ensures exists n :: i < n < j && TurnEndsAt(trace, events, n, rid, first.cid)
  {
    TurnNeedsIdleRuntimeAt(trace, events, i, rid, first);
    TurnNeedsIdleRuntimeAt(trace, events, j, rid, second);
    if forall n :: i < n < j ==> !TurnEndsAt(trace, events, n, rid, first.cid) {
      HoldsInRun(trace, events, i + 1, j, rid, first.cid);
      assert false;
    }
  }

  /** A turn that is claimed or acknowledged is the active command of the registered runtime it was handed to. */
  lemma PendingTurnIsActive(trace: seq<Host>, events: seq<Event>, i: nat, k: Key)
    requires IsRun(trace, events) && i < |trace| && k in trace[i].tables.commands
    requires IsPending(trace[i].tables.commands[k]) && IsTurn(trace[i].tables.commands[k].kind)
    ensures var h := trace[i];
            && k.sid in h.registered && h.registered[k.sid] in h.runtimes
            && k in h.handed && h.handed[k] == h.registered[k.sid]
            && h.runtimes[h.registered[k.sid]].active == Some(k.cid)
  {
    RunKeepsInv(trace, events, i);
    assert IsRpcPending(trace[i].tables.commands[k]);
  }
}
