/** A session whose work may be half done is left alone until it is reconciled. */
module HostRecovery {
  import opened Basics
  import opened Journal
  import opened HostSteps
  import opened HostInvariant
  import opened HostPreservation
  import opened HostEffects
  import opened HostTheorems
  import J = CanonicalJson

  predicate InRecovery(h: Host, sid: SessionId) {
    sid in h.tables.sessions && h.tables.sessions[sid].status.RecoveryRequired?
  }

  /** A late frame of a runtime that left the registry while its client was still open. */
  predicate LateAgentFrame(h: Host, e: Event, sid: SessionId) {
    && e.Received? && e.rid in h.runtimes && h.runtimes[e.rid].sid == sid && !h.runtimes[e.rid].faulted
    && (e.frame.AgentStart? || e.frame == AgentEnd(true))
  }

  lemma ContinuationKeepsSessions(h: Host, e: Event)
    requires Inv(h) && Enabled(h, e) && (e.Ack? || e.Fail? || e.StateRead? || e.Command? || e.Respond? || e.Answered?)
    ensures Step(h, e).tables.sessions == h.tables.sessions
  {
    if e.Answered? {
      AnsweredEffect(h, e.key, e.outcome, Some(e.errorBytes));
    } else if e.Ack? || e.Fail? || e.StateRead? {
      ContinuationTouches(h, e);
    } else if !Accepts(h, e) {
      RefusedCallsChangeNothing(h, e);
    } else if e.Command? {
      CommandEffect(h, e);
    } else {
      RespondEffect(h, e);
    }
  }

  lemma FrameSessions(h: Host, rid: RuntimeId, f: Frame)
    requires Inv(h) && rid in h.runtimes
    ensures OnFrame(h, rid, f).tables.sessions
         == WithFrameStatus(h, h.runtimes[rid].sid, FrameStatus(h.runtimes[rid], f)).tables.sessions
  {
    ReceivedTouches(h, rid, f);
  }

  lemma WrittenStatusLeavesRecovery(h: Host, s: SessionId, status: Option<SessionStatus>, sid: SessionId)
    requires InRecovery(h, sid) && status != Some(RecoveryRequired)
    ensures !InRecovery(WithFrameStatus(h, s, status), sid) <==> s == sid && status.Some?
  {
  }

  lemma FrameLeavesRecovery(h: Host, rid: RuntimeId, f: Frame, sid: SessionId)
    requires Inv(h) && rid in h.runtimes && InRecovery(h, sid)
    ensures !InRecovery(OnFrame(h, rid, f), sid) <==> LateAgentFrame(h, Received(rid, f), sid)
  {
    FrameSessions(h, rid, f);
    WrittenStatusLeavesRecovery(h, h.runtimes[rid].sid, FrameStatus(h.runtimes[rid], f), sid);
  }

  lemma QuietSession(h: Host, sid: SessionId)
    requires Inv(h) && InRecovery(h, sid)
    ensures sid !in h.registered && sid !in h.starting
  {
  }

  lemma LoseKeepsRecovery(h: Host, rid: RuntimeId, sid: SessionId)
    requires rid in h.runtimes && InRecovery(h, sid)
    ensures InRecovery(Lose(h, rid), sid)
  {
  }

  lemma StartKeepsRecovery(h: Host, s: SessionId, sid: SessionId)
    requires InRecovery(h, sid)
    ensures InRecovery(OnStart(h, s), sid)
  {
    if s in h.registered && h.registered[s] in h.runtimes {
      LoseKeepsRecovery(h, h.registered[s], sid);
    }
  }

  lemma StopKeepsRecovery(h: Host, s: SessionId, sid: SessionId)
    requires InRecovery(h, sid)
    ensures InRecovery(StopRuntime(h, s), sid) && InRecovery(OnStop(h, s), sid)
  {
    StopRuntimeKeepsTables(h, s);
  }

  lemma StopFinishedKeepsRecovery(h: Host, s: SessionId, reaped: bool, sid: SessionId)
    requires InRecovery(h, sid) && sid !in h.registered
    ensures InRecovery(OnStopFinished(h, s, reaped), sid)
  {
  }

  lemma StartFailedKeepsRecovery(h: Host, s: SessionId, reaped: bool, sid: SessionId)
    requires InRecovery(h, sid) && sid !in h.registered && Spawned(h, s)
    ensures InRecovery(OnStartFailed(h, s, reaped), sid)
  {
  }

  lemma StartupKeepsRecovery(h: Host, e: Event, sid: SessionId)
    requires Enabled(h, e) && InRecovery(h, sid) && sid !in h.registered && sid !in h.starting
    requires e.CreateSession? || e.Spawn? || e.SpawnRefused? || e.Connected? || e.MarkIdle? || e.Started?
    ensures InRecovery(Step(h, e), sid)
  {
  }

  lemma StoppingKeepsRecovery(h: Host, e: Event, sid: SessionId)
    requires Enabled(h, e) && InRecovery(h, sid) && sid !in h.registered && (e.Stop? || e.StopProceed?)
    ensures InRecovery(Step(h, e), sid)
  {
    StopKeepsRecovery(h, e.sid, sid);
  }

  lemma EndingKeepsRecovery(h: Host, e: Event, sid: SessionId)
    requires Enabled(h, e) && InRecovery(h, sid) && sid !in h.registered && (e.StopFinished? || e.StartFailed?)
    ensures InRecovery(Step(h, e), sid)
  {
    if e.StopFinished? {
      StopFinishedKeepsRecovery(h, e.sid, e.reaped, sid);
    } else {
      StartFailedKeepsRecovery(h, e.sid, e.reaped, sid);
    }
  }

  lemma OtherKeepsRecovery(h: Host, e: Event, sid: SessionId)
    requires Enabled(h, e) && InRecovery(h, sid)
    requires e.ClientDown? || e.StartFailing? || e.Shutdown?
    ensures InRecovery(Step(h, e), sid)
  {
  }

  lemma ReconcileLeavesRecovery(h: Host, s: SessionId, sid: SessionId)
    requires InRecovery(h, sid) && sid !in h.registered
    ensures !InRecovery(OnReconcile(h, s), sid) <==> s == sid && !h.shutting
  {
  }

  lemma LifecycleLeavesRecovery(h: Host, e: Event, sid: SessionId)
    requires Inv(h) && Enabled(h, e) && IsLifecycle(e) && InRecovery(h, sid)
    ensures !InRecovery(Step(h, e), sid) <==> e == Reconcile(sid) && !h.shutting
  {
    QuietSession(h, sid);
    if e.Reconcile? {
      ReconcileLeavesRecovery(h, e.sid, sid);
    } else if e.Start? {
      StartKeepsRecovery(h, e.sid, sid);
    } else if e.Lost? {
      LoseKeepsRecovery(h, e.rid, sid);
    } else if e.Stop? || e.StopProceed? {
      StoppingKeepsRecovery(h, e, sid);
    } else if e.StopFinished? || e.StartFailed? {
      EndingKeepsRecovery(h, e, sid);
    } else if e.ClientDown? || e.StartFailing? || e.Shutdown? {
      OtherKeepsRecovery(h, e, sid);
    } else {
      StartupKeepsRecovery(h, e, sid);
    }
  }

  /** Exactly when a step takes a session out of `recovery_required`. */
  lemma StepLeavesRecovery(h: Host, e: Event, sid: SessionId)
    requires Inv(h) && Enabled(h, e) && InRecovery(h, sid)
    ensures !InRecovery(Step(h, e), sid) <==> (e == Reconcile(sid) && !h.shutting) || LateAgentFrame(h, e, sid)
  {
    if e.Received? {
      FrameLeavesRecovery(h, e.rid, e.frame, sid);
    } else if IsLifecycle(e) {
      LifecycleLeavesRecovery(h, e, sid);
    } else if e.Restart? {
      RestartKeepsRecovery(h, sid);
    } else {
      ContinuationKeepsSessions(h, e);
    }
  }

  lemma RestartKeepsRecovery(h: Host, sid: SessionId)
    requires InRecovery(h, sid)
    ensures InRecovery(OnRestart(h), sid)
  {
  }

  // -------------------------------------------------- runtimes that were let go

  predicate Attached(registered: Registry, runtimes: Objects, rid: RuntimeId)
    requires rid in runtimes
  {
    runtimes[rid].sid in registered && registered[runtimes[rid].sid] == rid
  }

  /** Every runtime object outside the registry has a closed client, so it receives nothing more. */
  ghost predicate DetachedAreClosed(registered: Registry, runtimes: Objects) {
    forall rid :: rid in runtimes ==> Attached(registered, runtimes, rid) || runtimes[rid].phase.Closed?
  }

  /**
    The two places that drop a runtime without its client being closed: a start which finds a runtime
    that is no longer ready, and a failed start whose client could not be closed.
  */
  predicate DetachesOpenClient(h: Host, e: Event) {
    match e
    case Start(sid) =>
      && !h.shutting && sid !in h.stopping && sid !in h.starting
      && sid in h.registered && h.registered[sid] in h.runtimes
      && var rt := h.runtimes[h.registered[sid]]; !rt.closing && !rt.phase.Ready? && !rt.phase.Closed?
    case StartFailed(sid, reaped) =>
      !reaped && sid in h.registered && h.registered[sid] in h.runtimes && !h.runtimes[h.registered[sid]].phase.Closed?
    case _ => false
  }

  ghost predicate Tidy(h: Host) { DetachedAreClosed(h.registered, h.runtimes) }

  lemma WriteKeepsTidy(h: Host, rid: RuntimeId, rt: Runtime)
    requires Tidy(h) && rid in h.runtimes && rt.sid == h.runtimes[rid].sid
    requires Attached(h.registered, h.runtimes, rid) || rt.phase.Closed?
    ensures Tidy(WithRuntime(h, rid, rt))
  {
  }

  /** Taking a runtime with a closed client out of the registry. */
  lemma DetachKeepsTidy(registered: Registry, runtimes: Objects, sid: SessionId)
    requires DetachedAreClosed(registered, runtimes) && sid in registered && registered[sid] in runtimes
    requires runtimes[registered[sid]].phase.Closed?
    ensures DetachedAreClosed(registered - {sid}, runtimes)
  {
  }

  lemma LoseKeepsTidy(h: Host, rid: RuntimeId)
    requires Tidy(h) && rid in h.runtimes
    requires h.runtimes[rid].phase.Closed?
    ensures Tidy(Lose(h, rid))
  {
    var rt := h.runtimes[rid];
    if rt.sid in h.registered && h.registered[rt.sid] == rid && !rt.closing {
      WriteKeepsTidy(h, rid, rt.(closing := true));
      DetachKeepsTidy(h.registered, h.runtimes[rid := rt.(closing := true)], rt.sid);
    }
  }

  lemma StartKeepsTidy(h: Host, sid: SessionId)
    requires Tidy(h) && !DetachesOpenClient(h, Start(sid))
    ensures Tidy(OnStart(h, sid))
  {
    if sid in h.registered && h.registered[sid] in h.runtimes && h.runtimes[h.registered[sid]].phase.Closed? {
      LoseKeepsTidy(h, h.registered[sid]);
    }
  }

  lemma StopRuntimeKeepsTidy(h: Host, sid: SessionId)
    requires Inv(h) && Tidy(h)
    ensures Tidy(StopRuntime(h, sid))
  {
    if sid in h.registered && h.registered[sid] in h.runtimes {
      WriteKeepsTidy(h, h.registered[sid], MarkClosing(h.runtimes[h.registered[sid]]));
    }
  }

  lemma StopKeepsTidy(h: Host, sid: SessionId)
    requires Inv(h) && Tidy(h)
    ensures Tidy(OnStop(h, sid))
  {
    StopRuntimeKeepsTidy(h, sid);
  }

  lemma StopFinishedKeepsTidy(h: Host, sid: SessionId, reaped: bool)
    requires Inv(h) && Tidy(h)
    ensures Tidy(OnStopFinished(h, sid, reaped))
  {
    if reaped && sid in h.registered && h.registered[sid] in h.runtimes {
      var rid := h.registered[sid];
      var rt := h.runtimes[rid].(phase := Closed);
      WriteKeepsTidy(h, rid, rt);
      DetachKeepsTidy(h.registered, h.runtimes[rid := rt], sid);
    }
  }

  lemma StartFailedKeepsTidy(h: Host, sid: SessionId, reaped: bool)
    requires Inv(h) && Tidy(h) && Spawned(h, sid) && !DetachesOpenClient(h, StartFailed(sid, reaped))
    ensures Tidy(OnStartFailed(h, sid, reaped))
  {
    var rid := h.registered[sid];
    var rt := h.runtimes[rid].(phase := Closed);
    if reaped {
      WriteKeepsTidy(h, rid, rt);
      DetachKeepsTidy(h.registered, h.runtimes[rid := rt], sid);
    } else {
      DetachKeepsTidy(h.registered, h.runtimes, sid);
    }
  }

  lemma RegisterKeepsTidy(registered: Registry, runtimes: Objects, sid: SessionId, rid: RuntimeId, rt: Runtime)
    requires DetachedAreClosed(registered, runtimes) && sid !in registered && rid !in runtimes && rt.sid == sid
    ensures DetachedAreClosed(registered[sid := rid], runtimes[rid := rt])
  {
  }

  lemma SpawnKeepsTidy(h: Host, sid: SessionId, incarnation: J.Text)
    requires Inv(h) && Tidy(h) && sid !in h.registered
    ensures Tidy(OnSpawn(h, sid, incarnation))
  {
    assert h.nextRid !in h.runtimes;
    RegisterKeepsTidy(h.registered, h.runtimes, sid, h.nextRid, Runtime(sid, Connecting, false, false, None, map[], false));
  }

  lemma StartupKeepsTidy(h: Host, e: Event)
    requires Inv(h) && Enabled(h, e) && Tidy(h) && (e.Connected? || e.Started? || e.StartFailing?)
    ensures Tidy(Step(h, e))
  {
    var rid := h.registered[e.sid];
    WriteKeepsTidy(h, rid, h.runtimes[rid].(phase := Ready));
    WriteKeepsTidy(h, rid, h.runtimes[rid].(timer := true));
    WriteKeepsTidy(h, rid, MarkClosing(h.runtimes[rid]));
  }

  lemma OwnerKeepsTidy(h: Host, e: Event)
    requires Enabled(h, e) && Tidy(h) && (e.CreateSession? || e.SpawnRefused? || e.MarkIdle? || e.Shutdown? || e.Reconcile?)
    ensures Tidy(Step(h, e))
  {
  }

  lemma StopStepKeepsTidy(h: Host, e: Event)
    requires Inv(h) && Enabled(h, e) && Tidy(h) && (e.Stop? || e.StopProceed?)
    ensures Tidy(Step(h, e))
  {
    match e
    case Stop(sid) => StopKeepsTidy(h, sid);
    case StopProceed(sid) => StopRuntimeKeepsTidy(h, sid);
  }

  lemma EndKeepsTidy(h: Host, e: Event)
    requires Inv(h) && Enabled(h, e) && Tidy(h) && !DetachesOpenClient(h, e) && (e.StopFinished? || e.StartFailed?)
    ensures Tidy(Step(h, e))
  {
    match e
    case StopFinished(sid, reaped) => StopFinishedKeepsTidy(h, sid, reaped);
    case StartFailed(sid, reaped) => StartFailedKeepsTidy(h, sid, reaped);
  }

  lemma ClientDownKeepsTidy(h: Host, e: Event)
    requires Enabled(h, e) && Tidy(h) && e.ClientDown?
    ensures Tidy(Step(h, e))
  {
    WriteKeepsTidy(h, e.rid, h.runtimes[e.rid].(phase := e.phase));
  }

  lemma LifecycleKeepsTidy(h: Host, e: Event)
    requires Inv(h) && Enabled(h, e) && Tidy(h) && !DetachesOpenClient(h, e) && IsLifecycle(e)
    ensures Tidy(Step(h, e))
  {
    if e.Start? {
      StartKeepsTidy(h, e.sid);
    } else if e.Lost? {
      LoseKeepsTidy(h, e.rid);
    } else if e.ClientDown? {
      ClientDownKeepsTidy(h, e);
    } else if e.Spawn? {
      SpawnKeepsTidy(h, e.sid, e.incarnation);
    } else if e.Connected? || e.Started? || e.StartFailing? {
      StartupKeepsTidy(h, e);
    } else if e.Stop? || e.StopProceed? {
      StopStepKeepsTidy(h, e);
    } else if e.StopFinished? || e.StartFailed? {
      EndKeepsTidy(h, e);
    } else {
      OwnerKeepsTidy(h, e);
    }
  }

  lemma TouchKeepsTidy(h: Host, g: Host, rid: RuntimeId, cid: Option<CommandId>)
    requires Tidy(h) && rid in h.runtimes && g.registered == h.registered
    requires rid in g.runtimes && g.runtimes == h.runtimes[rid := g.runtimes[rid]] && Touched(h.runtimes[rid], g.runtimes[rid], cid)
    requires Attached(h.registered, h.runtimes, rid) || h.runtimes[rid].phase.Closed?
    ensures Tidy(g)
  {
  }

  lemma CallKeepsTidy(h: Host, e: Event)
    requires Inv(h) && Enabled(h, e) && Tidy(h) && (e.Command? || e.Respond?)
    ensures Tidy(Step(h, e))
  {
    if !Accepts(h, e) {
      RefusedCallsChangeNothing(h, e);
    } else if e.Command? {
      CommandEffect(h, e);
    } else {
      RespondEffect(h, e);
    }
  }

  lemma TrafficKeepsTidy(h: Host, e: Event)
    requires Inv(h) && Enabled(h, e) && Tidy(h) && (e.Ack? || e.Fail? || e.StateRead? || e.Received?)
    ensures Tidy(Step(h, e))
  {
    if e.Received? {
      ReceivedTouches(h, e.rid, e.frame);
      TouchKeepsTidy(h, Step(h, e), e.rid, FrameEnds(h.runtimes[e.rid], e.frame));
    } else {
      ContinuationTouches(h, e);
      TouchKeepsTidy(h, Step(h, e), e.rid, ContinuationEnds(h, e));
    }
  }

  lemma StepKeepsTidy(h: Host, e: Event)
    requires Inv(h) && Enabled(h, e) && Tidy(h) && !DetachesOpenClient(h, e)
    ensures Tidy(Step(h, e))
  {
    if e.Ack? || e.Fail? || e.StateRead? || e.Received? {
      TrafficKeepsTidy(h, e);
    } else if e.Command? || e.Respond? {
      CallKeepsTidy(h, e);
    } else if e.Answered? {
      AnsweredEffect(h, e.key, e.outcome, Some(e.errorBytes));
    } else if !e.Restart? {
      LifecycleKeepsTidy(h, e);
    }
  }

  // ----------------------------------------------------------------- whole runs

  /** No event of the run so far dropped a runtime whose client was open. */
  ghost predicate ClosesBeforeDetaching(trace: seq<Host>, events: seq<Event>, n: nat)
    requires |trace| == |events| + 1 && n <= |events|
  {
    forall i :: 0 <= i < n ==> !DetachesOpenClient(trace[i], events[i])
  }

  lemma TidyAtNextStep(trace: seq<Host>, events: seq<Event>, i: nat)
    requires IsRun(trace, events) && i < |events| && Tidy(trace[i]) && !DetachesOpenClient(trace[i], events[i])
    ensures Tidy(trace[i + 1])
  {
    RunKeepsInv(trace, events, i);
    NextStep(trace, events, i);
    StepKeepsTidy(trace[i], events[i]);
  }

  lemma {:induction false} RunKeepsTidy(trace: seq<Host>, events: seq<Event>, n: nat)
    requires IsRun(trace, events) && n <= |events| && ClosesBeforeDetaching(trace, events, n)
    ensures Tidy(trace[n])
  {
    if n > 0 {
      RunKeepsTidy(trace, events, n - 1);
      TidyAtNextStep(trace, events, n - 1);
    }
  }

  /** Nothing but a reconciliation ends the recovery of a session when detached runtimes are closed. */
  lemma OnlyReconcileLeaves(h: Host, e: Event, sid: SessionId)
    requires Inv(h) && Enabled(h, e) && Tidy(h) && InRecovery(h, sid) && e != Reconcile(sid)
    ensures InRecovery(Step(h, e), sid)
  {
    StepLeavesRecovery(h, e, sid);
    QuietSession(h, sid);
    if LateAgentFrame(h, e, sid) {
      assert false;
    }
  }

  lemma StaysInRecoveryAt(trace: seq<Host>, events: seq<Event>, i: nat, sid: SessionId)
    requires IsRun(trace, events) && i < |events| && InRecovery(trace[i], sid)
    requires events[i] != Reconcile(sid) && Tidy(trace[i])
    ensures InRecovery(trace[i + 1], sid)
  {
    RunKeepsInv(trace, events, i);
    NextStep(trace, events, i);
    OnlyReconcileLeaves(trace[i], events[i], sid);
  }

  /** Nothing is sent for a session in recovery. */
  lemma NothingSentAt(trace: seq<Host>, events: seq<Event>, i: nat, k: Key)
    requires IsRun(trace, events) && i < |events| && InRecovery(trace[i], k.sid)
    ensures trace[i + 1].sends[k] == trace[i].sends[k]
  {
    RunKeepsInv(trace, events, i);
    NextStep(trace, events, i);
    QuietSession(trace[i], k.sid);
    SendsGrowAt(trace, events, i, k);
    if SendsNow(trace[i], events[i], k) {
      OnlyTheCreatingCallSends(trace[i], events[i], k);
      assert false;
    }
  }

  /**
    From the step that makes a session `recovery_required` until it is reconciled it keeps that
    status, has no runtime, is not being started, and nothing is sent for it; provided no runtime
    was dropped while its client was still open.
  */
  lemma {:induction false} RecoveryLastsUntilReconciled(trace: seq<Host>, events: seq<Event>, i: nat, j: nat, sid: SessionId, cid: CommandId)
    requires IsRun(trace, events) && i <= j <= |events| && InRecovery(trace[i], sid)
    requires ClosesBeforeDetaching(trace, events, j)
    requires forall n :: i <= n < j ==> events[n] != Reconcile(sid)
    ensures InRecovery(trace[j], sid)
    ensures sid !in trace[j].registered && sid !in trace[j].starting
    ensures trace[j].sends[Key(sid, cid)] == trace[i].sends[Key(sid, cid)]
    decreases j - i
  {
    if i < j {
      RecoveryLastsUntilReconciled(trace, events, i, j - 1, sid, cid);
      RunKeepsTidy(trace, events, j - 1);
      StaysInRecoveryAt(trace, events, j - 1, sid);
      NothingSentAt(trace, events, j - 1, Key(sid, cid));
    }
    RunKeepsInv(trace, events, j);
    QuietSession(trace[j], sid);
  }

  /** Without that proviso: in every run, the session leaves recovery exactly by a reconciliation or a late frame. */
  lemma RecoveryEndsExactlyBy(trace: seq<Host>, events: seq<Event>, i: nat, sid: SessionId)
    requires IsRun(trace, events) && i < |events| && InRecovery(trace[i], sid)
    ensures !InRecovery(trace[i + 1], sid)
       <==> (events[i] == Reconcile(sid) && !trace[i].shutting) || LateAgentFrame(trace[i], events[i], sid)
    ensures LateAgentFrame(trace[i], events[i], sid) ==> exists n :: 0 <= n < i && DetachesOpenClient(trace[n], events[n])
  {
    RunKeepsInv(trace, events, i);
    NextStep(trace, events, i);
    StepLeavesRecovery(trace[i], events[i], sid);
    if LateAgentFrame(trace[i], events[i], sid) && forall n :: 0 <= n < i ==> !DetachesOpenClient(trace[n], events[n]) {
      RunKeepsTidy(trace, events, i);
      StaysInRecoveryAt(trace, events, i, sid) by {
        assert events[i] != Reconcile(sid);
      }
      assert false;
    }
  }

  /** After a crash at any point, every session that may have been working is in recovery and its commands are unknown. */
  lemma CrashRequiresRecovery(h: Host, k: Key)
    requires Inv(h) && k in h.tables.commands && IsPending(h.tables.commands[k])
    ensures var g := OnRestart(h);
            && InRecovery(g, k.sid)
            && k in g.tables.commands && g.tables.commands[k].status.OutcomeUnknown?
            && g.sends[k] == h.sends[k]
  {
    PendingRowIsOk(h, k);
    assert HasPending(h.tables, k.sid);
  }

  /** Losing the runtime of a session leaves it in recovery with nothing pending. */
  lemma LossRequiresRecovery(h: Host, rid: RuntimeId, k: Key)
    requires Inv(h) && rid in h.runtimes && Attached(h.registered, h.runtimes, rid) && !h.runtimes[rid].closing
    requires k in h.tables.commands && k.sid == h.runtimes[rid].sid
    ensures var g := Lose(h, rid);
            && InRecovery(g, k.sid) && k.sid !in g.registered
            && k in g.tables.commands
            && g.tables.commands[k].status == if IsPending(h.tables.commands[k]) then OutcomeUnknown else h.tables.commands[k].status
  {
    PendingRowIsOk(h, k);
  }
}
