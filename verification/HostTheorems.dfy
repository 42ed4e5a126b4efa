/**
  What the host promises over whole runs: a command is never sent twice, turns do not overlap, an
  uncertain session is left alone until it is reconciled, and command histories are legal.
*/
module HostTheorems {
  import opened Basics
  import opened Journal
  import opened HostSteps
  import opened HostInvariant
  import opened HostPreservation
  import opened HostEffects
  import J = CanonicalJson

  ghost predicate IsStep(h: Host, e: Event, g: Host) {
    Enabled(h, e) && g == Step(h, e)
  }

  /** A run of the host: its states, and the event between each two. */
  ghost predicate IsRun(trace: seq<Host>, events: seq<Event>) {
    && |trace| == |events| + 1
    && trace[0] == INITIAL
    && forall i {:trigger IsStep(trace[i], events[i], trace[i + 1])} :: 0 <= i < |events| ==> IsStep(trace[i], events[i], trace[i + 1])
  }

  lemma NextStep(trace: seq<Host>, events: seq<Event>, i: nat)
    requires IsRun(trace, events) && i < |events|
    ensures Enabled(trace[i], events[i]) && trace[i + 1] == Step(trace[i], events[i])
  {
    assert IsStep(trace[i], events[i], trace[i + 1]);
  }

  lemma InvAtNextStep(trace: seq<Host>, events: seq<Event>, i: nat)
    requires IsRun(trace, events) && i < |events| && Inv(trace[i])
    ensures Inv(trace[i + 1])
  {
    NextStep(trace, events, i);
    StepKeepsInv(trace[i], events[i]);
  }

  lemma {:induction false} RunKeepsInv(trace: seq<Host>, events: seq<Event>, i: nat)
    requires IsRun(trace, events) && i < |trace|
    ensures Inv(trace[i])
  {
    if i == 0 {
      InitialInv();
    } else {
      RunKeepsInv(trace, events, i - 1);
      InvAtNextStep(trace, events, i - 1);
    }
  }

  // ------------------------------------------------------------ at most one send

  /** This step hands the command to OMP's client or to the question broker. */
  predicate SendsNow(h: Host, e: Event, k: Key)
    requires Enabled(h, e)
  {
    Step(h, e).sends[k] > h.sends[k]
  }

  lemma OnlyCallersSend(h: Host, e: Event)
    requires Inv(h) && Enabled(h, e) && !e.Command? && !e.Respond?
    ensures Step(h, e).sends == h.sends && Step(h, e).handed == h.handed
  {
    if e.Ack? || e.Fail? || e.StateRead? {
      ContinuationTouches(h, e);
    } else if e.Received? {
      ReceivedTouches(h, e.rid, e.frame);
    } else if e.Answered? {
      AnsweredEffect(h, e.key, e.outcome, Some(e.errorBytes));
    } else if !e.Restart? {
      LifecycleIsCalm(h, e);
    }
  }

  /** Either the caller's command is sent through the live registered runtime, or nothing is. */
  lemma CallSends(h: Host, e: Event)
    requires Enabled(h, e) && (e.Command? || e.Respond?)
    ensures var g, k := Step(h, e), Key(e.sid, e.cid);
            || (g.sends == h.sends && g.handed == h.handed)
            || (k !in h.tables.commands && k in g.tables.commands && Sent(h, g, k))
  {
    if !Accepts(h, e) {
      RefusedCallsChangeNothing(h, e);
    } else if e.Command? {
      CommandEffect(h, e);
    } else {
      RespondEffect(h, e);
    }
  }

  /**
    A send happens only in the call that creates the row, through the registered live runtime of the
    session; a call that finds a row, whatever its state, sends nothing.
  */
  lemma OnlyTheCreatingCallSends(h: Host, e: Event, k: Key)
    requires Inv(h) && Enabled(h, e) && SendsNow(h, e, k)
    ensures (e.Command? || e.Respond?) && k == Key(e.sid, e.cid)
    ensures k !in h.tables.commands && k in Step(h, e).tables.commands
    ensures h.sends[k] == 0 && Step(h, e).sends[k] == 1
    ensures k.sid in h.registered && h.registered[k.sid] in h.runtimes && !h.runtimes[h.registered[k.sid]].closing
    ensures Step(h, e).handed == h.handed[k := h.registered[k.sid]]
  {
    if e.Command? || e.Respond? {
      CallSends(h, e);
    } else {
      OnlyCallersSend(h, e);
    }
    assert k !in h.sends by {
      assert SendsOk(h.tables.commands, h.sends, h.handed);
    }
  }

  lemma SendsGrow(h: Host, e: Event, k: Key)
    requires Inv(h) && Enabled(h, e)
    ensures Step(h, e).sends[k] >= h.sends[k]
  {
    if e.Command? || e.Respond? {
      CallSends(h, e);
    } else {
      OnlyCallersSend(h, e);
    }
  }

  /** Event number `i` of the run sends the command. */
  ghost predicate SendsAt(trace: seq<Host>, i: nat, k: Key)
    requires i + 1 < |trace|
  {
    trace[i + 1].sends[k] > trace[i].sends[k]
  }

  lemma SendsGrowAt(trace: seq<Host>, events: seq<Event>, i: nat, k: Key)
    requires IsRun(trace, events) && i < |events|
    ensures trace[i].sends[k] <= trace[i + 1].sends[k]
  {
    RunKeepsInv(trace, events, i);
    NextStep(trace, events, i);
    SendsGrow(trace[i], events[i], k);
  }

  lemma {:induction false} SendsGrowInRun(trace: seq<Host>, events: seq<Event>, i: nat, j: nat, k: Key)
    requires IsRun(trace, events) && i <= j < |trace|
    ensures trace[i].sends[k] <= trace[j].sends[k]
    decreases j - i
  {
    if i < j {
      SendsGrowInRun(trace, events, i, j - 1, k);
      SendsGrowAt(trace, events, j - 1, k);
    }
  }

  lemma SentAtMostOnce(trace: seq<Host>, events: seq<Event>, i: nat, k: Key)
    requires IsRun(trace, events) && i < |trace|
    ensures trace[i].sends[k] <= 1
  {
    RunKeepsInv(trace, events, i);
    assert SendsOk(trace[i].tables.commands, trace[i].sends, trace[i].handed);
  }

  /** In a whole run, across losses, stops, crashes and restarts, a command is sent by one event at most. */
  lemma AtMostOneSend(trace: seq<Host>, events: seq<Event>, i: nat, j: nat, k: Key)
    requires IsRun(trace, events) && i < |events| && j < |events|
    requires SendsAt(trace, i, k) && SendsAt(trace, j, k)
    ensures i == j
    ensures trace[i].sends[k] == 0 && trace[|trace| - 1].sends[k] == 1
  {
    SentAtMostOnce(trace, events, i + 1, k);
    SentAtMostOnce(trace, events, j + 1, k);
    SentAtMostOnce(trace, events, |trace| - 1, k);
    SendsGrowInRun(trace, events, i + 1, |trace| - 1, k);
    if i < j {
      SendsGrowInRun(trace, events, i + 1, j, k);
    } else if j < i {
      SendsGrowInRun(trace, events, j + 1, i, k);
    }
  }

  /** A repeated call, and a conflicting one, leaves the whole host as it is, whatever happened to the command. */
  lemma ReplayChangesNothing(trace: seq<Host>, events: seq<Event>, i: nat, k: Key)
    requires IsRun(trace, events) && i < |events| && k in trace[i].tables.commands
    requires (events[i].Command? || events[i].Respond?) && Key(events[i].sid, events[i].cid) == k
    ensures trace[i + 1] == trace[i]
  {
    NextStep(trace, events, i);
    RefusedCallsChangeNothing(trace[i], events[i]);
  }

  // ----------------------------------------------------------------- histories

  lemma StepAdvancesRows(h: Host, e: Event)
    requires Inv(h) && Enabled(h, e)
    ensures RowsAdvance(h.tables.commands, Step(h, e).tables.commands)
  {
    SameRowsAdvance(h.tables.commands);
    if e.Ack? || e.Fail? || e.StateRead? {
      ContinuationTouches(h, e);
    } else if e.Received? {
      ReceivedTouches(h, e.rid, e.frame);
    } else if e.Answered? {
      AnsweredEffect(h, e.key, e.outcome, Some(e.errorBytes));
    } else if e.Command? || e.Respond? {
      CallAdvancesRows(h, e);
    } else if e.Restart? {
      UnknownAdvances(h.tables, "");
    } else {
      LifecycleAdvancesRows(h, e);
    }
  }

  lemma CallAdvancesRows(h: Host, e: Event)
    requires Enabled(h, e) && (e.Command? || e.Respond?)
    ensures RowsAdvance(h.tables.commands, Step(h, e).tables.commands)
  {
    if !Accepts(h, e) {
      RefusedCallsChangeNothing(h, e);
    } else if e.Command? {
      CommandEffect(h, e);
    } else {
      RespondEffect(h, e);
    }
  }

  lemma RowAdvancesAt(trace: seq<Host>, events: seq<Event>, i: nat, k: Key)
    requires IsRun(trace, events) && i < |events| && k in trace[i].tables.commands
    ensures k in trace[i + 1].tables.commands
    ensures RowAdvances(trace[i].tables.commands[k], trace[i + 1].tables.commands[k])
  {
    RunKeepsInv(trace, events, i);
    NextStep(trace, events, i);
    StepAdvancesRows(trace[i], events[i]);
  }

  lemma RowAdvancesCompose(a: Row, b: Row, c: Row)
    requires RowAdvances(a, b) && RowAdvances(b, c)
    ensures RowAdvances(a, c)
  {
  }

  /**
    Under every interleaving of acknowledgements, failures, frames, stops, losses and crashes, a
    command's history is claimed, perhaps acknowledged, then at most one final status; it only
    grows, the row keeps its kind and its payload hash, and a final row never changes again.
  */
  lemma {:induction false} HistoriesAreLegal(trace: seq<Host>, events: seq<Event>, i: nat, j: nat, k: Key)
    requires IsRun(trace, events) && i <= j < |trace| && k in trace[i].tables.commands
    ensures k in trace[j].tables.commands
    ensures RowAdvances(trace[i].tables.commands[k], trace[j].tables.commands[k])
    ensures RowOk(trace[j].tables.commands[k])
    decreases j - i
  {
    if i < j {
      HistoriesAreLegal(trace, events, i, j - 1, k);
      RowAdvancesAt(trace, events, j - 1, k);
      RowAdvancesCompose(trace[i].tables.commands[k], trace[j - 1].tables.commands[k], trace[j].tables.commands[k]);
    }
    RunKeepsInv(trace, events, j);
    PendingRowIsOk(trace[j], k);
  }

  /** A session without a runtime has no claimed or acknowledged OMP command. */
  lemma NoRuntimeNothingPending(trace: seq<Host>, events: seq<Event>, i: nat, k: Key)
    requires IsRun(trace, events) && i < |trace| && k in trace[i].tables.commands
    requires k.sid !in trace[i].registered && !trace[i].tables.commands[k].kind.UiResponse?
    ensures IsTerminal(trace[i].tables.commands[k].status)
  {
    RunKeepsInv(trace, events, i);
    assert !IsRpcPending(trace[i].tables.commands[k]);
    assert RowOk(trace[i].tables.commands[k]);
  }

  // ------------------------------------------------------------ refused requests

  /**
    The requests for a status change which the store refuses: a text over the limit, an empty text of a
    failed response, or an answer that a loss or a stop marked unknown while it was being sent.
  */
  predicate Refuses(h: Host, e: Event)
    requires Enabled(h, e)
  {
    match e
    case Fail(rid, cid, _, bytes) =>
      && rid in h.runtimes && bytes > ERROR_MAX_BYTES
      && var k := Key(h.runtimes[rid].sid, cid); k in h.tables.commands && !IsTerminal(h.tables.commands[k].status)
    case Received(rid, ResponseFailed(wire, bytes)) =>
      && !h.runtimes[rid].faulted && wire.Some? && wire.value in h.runtimes[rid].wires && (bytes == 0 || bytes > ERROR_MAX_BYTES)
      && var k := Key(h.runtimes[rid].sid, h.runtimes[rid].wires[wire.value]);
         k in h.tables.commands && !IsTerminal(h.tables.commands[k].status)
    case Answered(k, outcome, bytes) =>
      match outcome {
        case AnswerSent => StatusAt(h, k) == Some(OutcomeUnknown)
        case AnswerSendFailed => bytes > ERROR_MAX_BYTES
        case AnswerRejected => bytes > ERROR_MAX_BYTES || StatusAt(h, k) == Some(OutcomeUnknown)
      }
    case _ => false
  }

  lemma FailRefusals(h: Host, e: Event)
    requires Inv(h) && Enabled(h, e) && e.Fail?
    ensures Refuses(h, e) <==> Step(h, e).refusals != h.refusals
  {
    DispatchIsOwned(h, Dispatch(e.rid, e.cid));
    CaughtRefusals(h, e.rid, e.cid, e.cause, Some(e.errorBytes));
  }

  lemma CaughtRefusals(h: Host, rid: RuntimeId, cid: CommandId, cause: FailureCause, error: ErrorText)
    requires Inv(h) && rid in h.runtimes && error.Some?
    requires Owns(h.tables.commands, h.handed, rid, Key(h.runtimes[rid].sid, cid))
    ensures (!ErrorFits(error) && !IsTerminal(h.tables.commands[Key(h.runtimes[rid].sid, cid)].status))
       <==> Caught(h, rid, cid, cause, error).refusals != h.refusals
  {
    var k := Key(h.runtimes[rid].sid, cid);
    CaughtShape(h, rid, cid, cause, error);
    CaughtTailRefusesNothing(StoredCause(h, rid, cid, cause, error).0, rid, cid);
    StoredCauseRefusals(h, rid, cid, cause, error);
  }

  lemma StoredCauseRefusals(h: Host, rid: RuntimeId, cid: CommandId, cause: FailureCause, error: ErrorText)
    requires Inv(h) && rid in h.runtimes && error.Some?
    requires Owns(h.tables.commands, h.handed, rid, Key(h.runtimes[rid].sid, cid))
    ensures (!ErrorFits(error) && !IsTerminal(h.tables.commands[Key(h.runtimes[rid].sid, cid)].status))
       <==> StoredCause(h, rid, cid, cause, error).0.refusals != h.refusals
  {
    var k := Key(h.runtimes[rid].sid, cid);
    if !IsTerminal(h.tables.commands[k].status) {
      FinishKeepsInv(h, k, CauseStatus(cause), error);
    }
  }

  lemma CaughtTailRefusesNothing(g: Host, rid: RuntimeId, cid: CommandId)
    requires rid in g.runtimes
    ensures CaughtTail(g, rid, cid).refusals == g.refusals && Settle(g, rid, cid).refusals == g.refusals
    ensures DropDispatch(g, Dispatch(rid, cid)).refusals == g.refusals
  {
  }

  lemma FailedFrameRefusals(h: Host, rid: RuntimeId, w: WireId, bytes: nat)
    requires Inv(h) && rid in h.runtimes && w in h.runtimes[rid].wires && !h.runtimes[rid].faulted
    ensures var k := Key(h.runtimes[rid].sid, h.runtimes[rid].wires[w]);
            && k in h.tables.commands
            && ((!ErrorFits(Some(bytes)) && !IsTerminal(h.tables.commands[k].status))
                <==> OnFrame(h, rid, ResponseFailed(Some(w), bytes)).refusals != h.refusals)
  {
    WireIsOwned(h, rid, w);
    var k := Key(h.runtimes[rid].sid, h.runtimes[rid].wires[w]);
    if IsTerminal(h.tables.commands[k].status) {
      LateFailureShape(h, rid, w, bytes);
      FrameTailRefusesNothing(h, rid, k.cid);
    } else {
      FailedFrameShape(h, rid, w, bytes);
      FrameTailRefusesNothing(ChangeStatus(h, k, Failed, Some(bytes)).0, rid, k.cid);
      StoredFailureRefusals(h, k, bytes);
    }
  }

  lemma StoredFailureRefusals(h: Host, k: Key, bytes: nat)
    requires Inv(h) && k in h.tables.commands && IsRpcPending(h.tables.commands[k])
    ensures !ErrorFits(Some(bytes)) <==> ChangeStatus(h, k, Failed, Some(bytes)).0.refusals != h.refusals
  {
    FinishKeepsInv(h, k, Failed, Some(bytes));
  }

  lemma FrameTailRefusesNothing(g: Host, rid: RuntimeId, cid: CommandId)
    requires rid in g.runtimes
    ensures ClearActive(g, rid, cid).refusals == g.refusals && Fault(g, rid).refusals == g.refusals
  {
  }

  lemma FrameRefusals(h: Host, e: Event)
    requires Inv(h) && Enabled(h, e) && e.Received?
    ensures Refuses(h, e) <==> Step(h, e).refusals != h.refusals
  {
    match e.frame
    case PromptResult(wire) => PromptResultTouches(h, e.rid, wire);
    case AgentEnd(isTerminal) => AgentEndTouches(h, e.rid, isTerminal);
    case ResponseFailed(wire, bytes) =>
      if !h.runtimes[e.rid].faulted && wire.Some? && wire.value in h.runtimes[e.rid].wires {
        FailedFrameRefusals(h, e.rid, wire.value, bytes);
      }
    case AgentStart => OtherFrameTouches(h, e.rid, e.frame);
    case HostCallOverflow => OtherFrameTouches(h, e.rid, e.frame);
    case OtherFrame => OtherFrameTouches(h, e.rid, e.frame);
  }

  lemma AnswerRefusals(h: Host, e: Event)
    requires Inv(h) && Enabled(h, e) && e.Answered?
    ensures Refuses(h, e) <==> Step(h, e).refusals != h.refusals
  {
    DropResponseKeepsInv(h, e.key);
    var g := h.(responses := h.responses - {e.key});
    match e.outcome
    case AnswerSent => SentRefusals(g, e.key);
    case AnswerSendFailed => SendFailedRefusals(g, e.key, Some(e.errorBytes));
    case AnswerRejected => RejectedRefusals(g, e.key, Some(e.errorBytes));
  }

  lemma SentRefusals(h: Host, k: Key)
    requires k in h.tables.commands && k.sid in h.tables.sessions
    requires h.tables.commands[k].status.Claimed? || h.tables.commands[k].status.OutcomeUnknown?
    ensures var (g, accepted) := ChangeStatus(h, k, Completed, None);
            && (accepted <==> h.tables.commands[k].status.Claimed?)
            && (accepted ==> g.refusals == h.refusals)
            && (!accepted ==> |ChangeStatus(g, k, NotDispatched, OWN_TEXT).0.refusals| > |h.refusals|)
  {
  }

  lemma SendFailedRefusals(h: Host, k: Key, error: ErrorText)
    requires k in h.tables.commands && k.sid in h.tables.sessions
    requires h.tables.commands[k].status.Claimed? || h.tables.commands[k].status.OutcomeUnknown?
    ensures !ErrorFits(error) <==> ChangeStatus(h, k, OutcomeUnknown, error).0.refusals != h.refusals
  {
  }

  lemma RejectedRefusals(h: Host, k: Key, error: ErrorText)
    requires k in h.tables.commands && k.sid in h.tables.sessions
    requires h.tables.commands[k].status.Claimed? || h.tables.commands[k].status.OutcomeUnknown?
    ensures !ErrorFits(error) || h.tables.commands[k].status.OutcomeUnknown?
       <==> ChangeStatus(h, k, NotDispatched, error).0.refusals != h.refusals
  {
  }

  lemma AckRefusesNothing(h: Host, e: Event)
    requires Inv(h) && Enabled(h, e) && (e.Ack? || e.StateRead?)
    ensures Step(h, e).refusals == h.refusals
  {
    DispatchIsOwned(h, Dispatch(e.rid, e.cid));
    if e.Ack? {
      AckTouches(h, e.rid, e.cid, e.localOnly);
    } else {
      CaughtTailRefusesNothing(h, e.rid, e.cid);
    }
  }

  lemma CallRefusesNothing(h: Host, e: Event)
    requires Enabled(h, e) && (e.Command? || e.Respond?)
    ensures Step(h, e).refusals == h.refusals
  {
    if !Accepts(h, e) {
      RefusedCallsChangeNothing(h, e);
    } else if e.Command? {
      CommandEffect(h, e);
    } else {
      RespondEffect(h, e);
    }
  }

  /**
    The host does request changes the store refuses, in exactly two situations: OMP's error text is
    empty or over 16384 bytes, or a loss or stop marked an answer unknown while it was being sent.
  */
  lemma RefusedExactlyWhen(trace: seq<Host>, events: seq<Event>, i: nat)
    requires IsRun(trace, events) && i < |events| && Enabled(trace[i], events[i])
    ensures trace[i + 1].refusals != trace[i].refusals <==> Refuses(trace[i], events[i])
  {
    RunKeepsInv(trace, events, i);
    NextStep(trace, events, i);
    StepRefusals(trace[i], events[i]);
  }

  lemma StepRefusals(h: Host, e: Event)
    requires Inv(h) && Enabled(h, e)
    ensures Refuses(h, e) <==> Step(h, e).refusals != h.refusals
  {
    if e.Fail? {
      FailRefusals(h, e);
    } else if e.Received? {
      FrameRefusals(h, e);
    } else if e.Answered? {
      AnswerRefusals(h, e);
    } else if e.Ack? || e.StateRead? {
      AckRefusesNothing(h, e);
    } else if e.Command? || e.Respond? {
      CallRefusesNothing(h, e);
    } else if !e.Restart? {
      LifecycleIsCalm(h, e);
    }
  }
}
