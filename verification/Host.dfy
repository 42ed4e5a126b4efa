/**
  `CediaHost` (apps/host/src/service.ts) as an object that updates its maps, its runtime objects and
  its store in place.  Every method is one stretch of code between two `await`s and is proved to be
  the corresponding step of the state machine.
*/
module Host {
  import opened Basics
  import opened Journal
  import opened HostSteps
  import J = CanonicalJson

  /** One OMP process as the host sees it. */
  class RuntimeObject {
    const rid: RuntimeId
    const sid: SessionId
    var phase: Phase
    var closing: bool
    var faulted: bool
    var activeCommand: Option<CommandId>
    var wireCommands: map<WireId, CommandId>
    var timer: bool

    constructor (rid: RuntimeId, sid: SessionId)
      ensures this.rid == rid
      ensures Value() == Runtime(sid, Connecting, false, false, None, map[], false)
    {
      this.rid, this.sid := rid, sid;
      phase, closing, faulted, activeCommand, wireCommands, timer := Connecting, false, false, None, map[], false;
    }

    function Value(): Runtime
      reads this
    {
      Runtime(sid, phase, closing, faulted, activeCommand, wireCommands, timer)
    }

    /** `#forgetWireCommand`. */
    method ForgetWireCommand(cid: CommandId)
      modifies this`wireCommands
      ensures wireCommands == WithoutCommand(old(wireCommands), cid)
    {
      var rest := wireCommands.Keys;
      while rest != {}
        invariant rest <= old(wireCommands).Keys
        invariant forall w :: w in wireCommands <==> w in old(wireCommands) && (w in rest || old(wireCommands)[w] != cid)
        invariant forall w :: w in wireCommands ==> wireCommands[w] == old(wireCommands)[w]
        decreases |rest|
      {
        var w :| w in rest;
        if wireCommands[w] == cid {
          wireCommands := wireCommands - {w};
        }
        rest := rest - {w};
      }
    }

    method ClearActive(cid: CommandId)
      modifies this`activeCommand
      ensures activeCommand == if old(activeCommand) == Some(cid) then None else old(activeCommand)
    {
      if activeCommand == Some(cid) {
        activeCommand := None;
      }
    }

    /** `client.close()` has been requested: a ready client is no longer ready. */
    method CloseClient()
      modifies this`phase
      ensures phase == if old(phase).Ready? then Closing else old(phase)
    {
      if phase.Ready? {
        phase := Closing;
      }
    }
  }

  class CediaHost {
    const store: DurableStore
    var runtimes: map<SessionId, RuntimeId>
    var objects: map<RuntimeId, RuntimeObject>
    var nextRid: RuntimeId
    var starting: set<SessionId>
    var stopping: map<SessionId, StopStage>
    var closing: bool
    ghost var dispatches: map<Dispatch, Await>
    ghost var responses: set<Key>
    ghost var sends: multiset<Key>
    ghost var handed: map<Key, RuntimeId>
    ghost var refusals: seq<Refused>

    ghost predicate Valid()
      reads this, objects.Values
    {
      && (forall rid :: rid in objects ==> objects[rid].rid == rid)
      && (forall rid :: rid in objects ==> rid < nextRid)
      && (forall sid :: sid in runtimes ==> runtimes[sid] in objects && objects[runtimes[sid]].sid == sid)
    }

    ghost function Objects(): map<RuntimeId, Runtime>
      reads this`objects, objects.Values
    {
      map rid | rid in objects :: objects[rid].Value()
    }

    /** The abstract state: this host and its store. */
    ghost function Value(): HostSteps.Host
      reads this, store, objects.Values
    {
      HostSteps.Host(store.Value(), runtimes, Objects(), nextRid, starting, stopping, dispatches, responses, sends, handed, refusals, closing)
    }

    constructor ()
      ensures Valid() && fresh(store) && Value() == INITIAL
    {
      store := new DurableStore();
      runtimes, objects, nextRid, starting, stopping, closing := map[], map[], 0, {}, map[], false;
      dispatches, responses, sends, handed, refusals := map[], {}, multiset{}, map[], [];
    }

    /** One runtime object changed, and nothing else did. */
    twostate lemma OnlyObjectChanged(rid: RuntimeId)
      requires objects == old(objects) && rid in objects
      requires forall r :: r in objects ==> objects[r].rid == r
      requires forall r :: r in objects && r != rid ==> objects[r].Value() == old(objects[r].Value())
      ensures Objects() == old(Objects())[rid := objects[rid].Value()]
    {
    }

    twostate lemma ObjectAdded(rid: RuntimeId, new runtime: RuntimeObject)
      requires rid !in old(objects) && objects == old(objects)[rid := runtime]
      requires forall r :: r in old(objects) ==> old(objects)[r].Value() == old(objects[r].Value())
      ensures Objects() == old(Objects())[rid := runtime.Value()]
    {
    }

    // --------------------------------------------------------------------- pieces

    method TransitionLogged(k: Key, next: Status, error: ErrorText) returns (accepted: bool)
      modifies this`refusals, store
      ensures (store.Value(), accepted) == Transition(old(store.Value()), k, next, error)
      ensures refusals == if accepted then old(refusals) else old(refusals) + [Refused(k, old(StoredStatus(k)), next, error)]
    {
      ghost var from := StoredStatus(k);
      accepted := store.TransitionCommand(k, next, error);
      if !accepted {
        refusals := refusals + [Refused(k, from, next, error)];
      }
    }

    function StoredStatus(k: Key): Option<Status>
      reads this, store
    {
      if k in store.commands then Some(store.commands[k].status) else None
    }

    method ChangeStatus(k: Key, next: Status, error: ErrorText) returns (accepted: bool)
      modifies this`refusals, store
      ensures (Value(), accepted) == HostSteps.ChangeStatus(old(Value()), k, next, error)
    {
      accepted := TransitionLogged(k, next, error);
      assert Objects() == old(Objects());
    }

    method SetStatus(sid: SessionId, status: SessionStatus)
      modifies store
      ensures Value() == HostSteps.SetStatus(old(Value()), sid, status)
    {
      store.UpdateStatus(sid, status);
      assert Objects() == old(Objects());
    }

    method ClearActive(rid: RuntimeId, cid: CommandId)
      requires Valid() && rid in objects
      modifies objects[rid]
      ensures Value() == HostSteps.ClearActive(old(Value()), rid, cid)
    {
      objects[rid].ClearActive(cid);
      OnlyObjectChanged(rid);
      assert old(Objects()) == old(Objects())[rid := old(objects[rid].Value())];
    }

    method ForgetWires(rid: RuntimeId, cid: CommandId)
      requires Valid() && rid in objects
      modifies objects[rid]
      ensures Value() == HostSteps.ForgetWires(old(Value()), rid, cid)
    {
      objects[rid].ForgetWireCommand(cid);
      OnlyObjectChanged(rid);
    }

    ghost method DropDispatch(d: Dispatch)
      modifies this`dispatches
      ensures Value() == HostSteps.DropDispatch(old(Value()), d)
    {
      dispatches := dispatches - {d};
      assert Objects() == old(Objects());
    }

    method Complete(rid: RuntimeId, cid: CommandId) returns (accepted: bool)
      requires Valid() && rid in objects
      modifies this`refusals, store, objects[rid]
      ensures Valid()
      ensures (Value(), accepted) == HostSteps.Complete(old(Value()), rid, cid)
    {
      var k := Key(objects[rid].sid, cid);
      accepted := true;
      if k in store.commands && !IsTerminal(store.commands[k].status) {
        accepted := ChangeStatus(k, Completed, None);
      }
      if accepted {
        ClearActive(rid, cid);
        ForgetWires(rid, cid);
      }
    }

    method Fault(rid: RuntimeId)
      requires Valid() && rid in objects
      modifies objects[rid]
      ensures Valid() && Value() == HostSteps.Fault(old(Value()), rid)
    {
      objects[rid].faulted := true;
      objects[rid].CloseClient();
      OnlyObjectChanged(rid);
    }

    // ------------------------------------------------------------------ dispatch

    /** The end of `#dispatch`. */
    method Settle(rid: RuntimeId, cid: CommandId)
      requires Valid() && rid in objects
      modifies this`dispatches, objects[rid]
      ensures Valid() && Value() == HostSteps.Settle(old(Value()), rid, cid)
    {
      var k := Key(objects[rid].sid, cid);
      if k in store.commands && IsTerminal(store.commands[k].status) && !store.commands[k].status.OutcomeUnknown? {
        ForgetWires(rid, cid);
      }
      DropDispatch(Dispatch(rid, cid));
    }

    ghost method AwaitState(d: Dispatch)
      modifies this`dispatches
      ensures Value() == old(Value()).(dispatches := old(dispatches)[d := ForState])
    {
      dispatches := dispatches[d := ForState];
      assert Objects() == old(Objects());
    }

    /** The catch branch of `#dispatch`. */
    method Caught(rid: RuntimeId, cid: CommandId, cause: FailureCause, error: ErrorText)
      requires Valid() && rid in objects
      modifies this`dispatches, this`refusals, store, objects[rid]
      ensures Valid() && Value() == HostSteps.Caught(old(Value()), rid, cid, cause, error)
    {
      var k := Key(objects[rid].sid, cid);
      if k !in store.commands {
        DropDispatch(Dispatch(rid, cid));
        return;
      }
      var accepted := StoreCause(rid, cid, cause, error);
      if !accepted {
        DropDispatch(Dispatch(rid, cid));
        return;
      }
      CaughtTail(rid, cid);
    }

    method StoreCause(rid: RuntimeId, cid: CommandId, cause: FailureCause, error: ErrorText) returns (accepted: bool)
      requires Valid() && rid in objects
      modifies this`refusals, store
      ensures Valid() && (Value(), accepted) == HostSteps.StoredCause(old(Value()), rid, cid, cause, error)
    {
      var k := Key(objects[rid].sid, cid);
      if k in store.commands && IsTerminal(store.commands[k].status) { return true; }
      accepted := ChangeStatus(k, CauseStatus(cause), error);
    }

    method CaughtTail(rid: RuntimeId, cid: CommandId)
      requires Valid() && rid in objects
      modifies this`dispatches, objects[rid]
      ensures Valid() && Value() == HostSteps.CaughtTail(old(Value()), rid, cid)
    {
      if StoredStatus(Key(objects[rid].sid, cid)) != Some(OutcomeUnknown) {
        ClearActive(rid, cid);
      }
      Settle(rid, cid);
    }

    /** `#dispatch` from OMP's acknowledgement to its next `await` or its end. */
    method DispatchAcknowledged(rid: RuntimeId, cid: CommandId, localOnly: bool)
      requires Valid() && rid in objects && Key(objects[rid].sid, cid) in store.commands
      modifies this`dispatches, this`refusals, store, objects[rid]
      ensures Valid() && Value() == OnAck(old(Value()), rid, cid, localOnly)
    {
      var k := Key(objects[rid].sid, cid);
      var current := store.commands[k];
      var awaitsTurn := IsTurn(current.kind) && !localOnly;
      if !IsTerminal(current.status) {
        var accepted := ChangeStatus(k, if awaitsTurn then Acknowledged else Completed, None);
        if !accepted {
          Caught(rid, cid, OtherFailure, OWN_TEXT);
          return;
        }
        if !awaitsTurn {
          ClearActive(rid, cid);
        }
      }
      if ChangesSession(current.kind) {
        AwaitState(Dispatch(rid, cid));
      } else {
        Settle(rid, cid);
      }
    }

    // -------------------------------------------------------------------- callers

    method Claim(k: Key, kind: Kind, id: Identity) returns (r: ClaimResult)
      modifies store
      ensures r == Journal.Claim(old(store.Value()), k, kind, id).1
      ensures Value() == old(Value()).(tables := Journal.Claim(old(store.Value()), k, kind, id).0)
    {
      r := store.ClaimCommand(k, kind, id);
      assert Objects() == old(Objects());
    }

    predicate Dispatchable(sid: SessionId, kind: Kind)
      requires Valid()
      reads this, objects.Values
    {
      sid in runtimes && var runtime := objects[runtimes[sid]];
        runtime.phase.Ready? && !runtime.closing && (IsTurn(kind) ==> runtime.activeCommand.None?)
    }

    /** The runtime remembers the command it is handed. */
    method Remember(rid: RuntimeId, cid: CommandId, kind: Kind, wire: Option<WireId>)
      requires Valid() && rid in objects
      modifies objects[rid]
      ensures Valid()
      ensures objects[rid].Value() == old(objects[rid].Value()).(
        active := if IsTurn(kind) then Some(cid) else old(objects[rid].activeCommand),
        wires := if wire.Some? then old(objects[rid].wireCommands)[wire.value := cid] else old(objects[rid].wireCommands))
      ensures Objects() == old(Objects())[rid := objects[rid].Value()]
    {
      var runtime := objects[rid];
      if IsTurn(kind) {
        runtime.activeCommand := Some(cid);
      }
      if wire.Some? {
        runtime.wireCommands := runtime.wireCommands[wire.value := cid];
      }
      OnlyObjectChanged(rid);
    }

    /** The synchronous part of `#dispatch`: the command becomes active and goes to OMP's client. */
    method HandOver(k: Key, kind: Kind, wire: Option<WireId>)
      requires Valid() && k.sid in runtimes
      modifies this`dispatches, this`sends, this`handed, objects[runtimes[k.sid]]
      ensures Valid() && Value() == HostSteps.HandOver(old(Value()), k, kind, wire)
    {
      Remember(runtimes[k.sid], k.cid, kind, wire);
      LogSend(k, runtimes[k.sid]);
    }

    ghost method LogSend(k: Key, rid: RuntimeId)
      modifies this`dispatches, this`sends, this`handed
      ensures Value() == old(Value()).(dispatches := old(dispatches)[Dispatch(rid, k.cid) := ForAck],
                                       sends := old(sends) + multiset{k}, handed := old(handed)[k := rid])
    {
      dispatches := dispatches[Dispatch(rid, k.cid) := ForAck];
      sends := sends + multiset{k};
      handed := handed[k := rid];
      assert Objects() == old(Objects());
    }

    /** `command`. */
    method Command(k: Key, request: Request, pathOwned: bool, wire: Option<WireId>)
      requires Valid()
      modifies this`dispatches, this`sends, this`handed, this`refusals, store, objects.Values
      ensures Valid() && Value() == OnCommand(old(Value()), k, request, pathOwned, wire)
    {
      if closing || request.kind.UiResponse? || k.sid !in store.sessions { return; }
      if k !in store.commands && request.incarnation != store.sessions[k.sid].incarnation { return; }
      if k !in store.commands && k.sid in starting { return; }
      if request.kind.SwitchSession? && !pathOwned { return; }
      var claim := Claim(k, request.kind, request.Identity());
      if !claim.ClaimCreated? { return; }
      if Dispatchable(k.sid, request.kind) {
        HandOver(k, request.kind, wire);
      } else {
        var _ := ChangeStatus(k, NotDispatched, OWN_TEXT);
      }
    }

    ghost method HandToBroker(k: Key)
      requires k.sid in runtimes
      modifies this`responses, this`sends, this`handed
      ensures Value() == old(Value()).(responses := old(responses) + {k}, sends := old(sends) + multiset{k},
                                       handed := old(handed)[k := runtimes[k.sid]])
    {
      responses := responses + {k};
      sends := sends + multiset{k};
      handed := handed[k := runtimes[k.sid]];
      assert Objects() == old(Objects());
    }

    /** `respond` up to the broker. */
    method Respond(k: Key, request: Request)
      requires Valid()
      modifies this`responses, this`sends, this`handed, this`refusals, store
      ensures Valid() && Value() == OnRespond(old(Value()), k, request)
    {
      if closing || k.sid !in store.sessions { return; }
      if k !in store.commands && request.incarnation != store.sessions[k.sid].incarnation { return; }
      var claim := Claim(k, UiResponse, request.Identity());
      if !claim.ClaimCreated? { return; }
      if k.sid in runtimes && !objects[runtimes[k.sid]].closing {
        HandToBroker(k);
      } else {
        var _ := ChangeStatus(k, NotDispatched, OWN_TEXT);
      }
    }

    ghost method DropResponse(k: Key)
      modifies this`responses
      ensures Value() == old(Value()).(responses := old(responses) - {k})
    {
      responses := responses - {k};
      assert Objects() == old(Objects());
    }

    /** `respond` after the broker answered. */
    method ResponseSettled(k: Key, outcome: AnswerOutcome, error: ErrorText)
      requires Valid()
      modifies this`responses, this`refusals, store
      ensures Valid() && Value() == OnAnswered(old(Value()), k, outcome, error)
    {
      DropResponse(k);
      match outcome {
        case AnswerSent =>
          var accepted := ChangeStatus(k, Completed, None);
          if !accepted {
            var _ := ChangeStatus(k, NotDispatched, OWN_TEXT);
          }
        case AnswerSendFailed => var _ := ChangeStatus(k, OutcomeUnknown, error);
        case AnswerRejected => var _ := ChangeStatus(k, NotDispatched, error);
      }
    }

    // --------------------------------------------------------------------- frames

    /** `#onFrame`. */
    method Receive(rid: RuntimeId, frame: Frame)
      requires Valid() && rid in objects
      modifies this`refusals, store, objects[rid]
      ensures Valid() && Value() == OnFrame(old(Value()), rid, frame)
    {
      var runtime := objects[rid];
      if runtime.faulted { return; }
      var accepted := true;
      match frame {
        case AgentStart => SetStatus(runtime.sid, Running);
        case PromptResult(wire) =>
          if wire.Some? && wire.value in runtime.wireCommands {
            accepted := Complete(rid, runtime.wireCommands[wire.value]);
          }
        case ResponseFailed(wire, bytes) =>
          if wire.Some? && wire.value in runtime.wireCommands {
            accepted := FailCommand(rid, runtime.wireCommands[wire.value], bytes);
          }
        case AgentEnd(isTerminal) =>
          if isTerminal {
            if runtime.activeCommand.Some? {
              accepted := Complete(rid, runtime.activeCommand.value);
            }
            if accepted {
              SetStatus(runtime.sid, Idle);
            }
          }
        case HostCallOverflow => accepted := false;
        case OtherFrame =>
      }
      if !accepted {
        Fault(rid);
      }
    }

    /** A failed response to the command's own request. */
    method FailCommand(rid: RuntimeId, cid: CommandId, bytes: nat) returns (accepted: bool)
      requires Valid() && rid in objects
      modifies this`refusals, store, objects[rid]
      ensures Valid() && (Value(), accepted) == HostSteps.FailCommand(old(Value()), rid, cid, bytes)
    {
      var k := Key(objects[rid].sid, cid);
      accepted := true;
      if k in store.commands && !IsTerminal(store.commands[k].status) {
        accepted := ChangeStatus(k, Failed, Some(bytes));
      }
      if accepted {
        ClearActive(rid, cid);
      }
    }

    // --------------------------------------------------------- loss, stop and start

    /** `#unknownCommands`: one store request per pending command. */
    method UnknownCommands(sid: SessionId)
      requires Valid() && sid in store.sessions
      modifies this`refusals, store
      ensures Valid() && Value() == old(Value()).(tables := UnknownIn(old(store.Value()), sid))
    {
      var pending := store.ListPending(sid);
      ghost var tables := store.Value();
      while pending != {}
        invariant store.sessions == old(store.sessions) && refusals == old(refusals)
        invariant pending <= set k | k in tables.commands && k.sid == sid && IsPending(tables.commands[k])
        invariant store.commands == map k | k in tables.commands ::
          if k.sid == sid && k !in pending then MarkUnknown(tables.commands[k]) else tables.commands[k]
        decreases |pending|
      {
        var k :| k in pending;
        var accepted := TransitionLogged(k, OutcomeUnknown, OWN_TEXT);
        pending := pending - {k};
      }
      assert store.commands == UnknownIn(tables, sid).commands;
      assert Objects() == old(Objects());
    }

    method Unregister(sid: SessionId)
      requires Valid()
      modifies this`runtimes
      ensures Valid() && Value() == old(Value()).(registered := old(runtimes) - {sid})
    {
      runtimes := runtimes - {sid};
      assert Objects() == old(Objects());
    }

    /** `#lost`. */
    method Lost(rid: RuntimeId)
      requires Valid() && rid in objects && objects[rid].sid in store.sessions
      modifies this`runtimes, this`refusals, store, objects[rid]
      ensures Valid() && Value() == Lose(old(Value()), rid)
    {
      var runtime := objects[rid];
      if runtime.sid !in runtimes || runtimes[runtime.sid] != rid || runtime.closing { return; }
      runtime.closing := true;
      OnlyObjectChanged(rid);
      Unregister(runtime.sid);
      UnknownCommands(runtime.sid);
      SetStatus(runtime.sid, RecoveryRequired);
    }

    method SetStarting(to: set<SessionId>)
      modifies this`starting
      ensures Value() == old(Value()).(starting := to)
    {
      starting := to;
      assert Objects() == old(Objects());
    }

    method SetStopping(to: map<SessionId, StopStage>)
      modifies this`stopping
      ensures Value() == old(Value()).(stopping := to)
    {
      stopping := to;
      assert Objects() == old(Objects());
    }

    /** One call of `startSession`; after a stop or a loss it is called again. */
    method StartSession(sid: SessionId)
      requires Valid() && (sid in runtimes ==> sid in store.sessions)
      modifies this`starting, this`runtimes, this`refusals, store, objects.Values
      ensures Valid() && Value() == OnStart(old(Value()), sid)
    {
      if closing || sid in stopping { return; }
      if sid in runtimes && objects[runtimes[sid]].phase.Ready? && !objects[runtimes[sid]].closing { return; }
      if sid in starting { return; }
      if sid in runtimes {
        Lost(runtimes[sid]);
        return;
      }
      if sid !in store.sessions || store.sessions[sid].status.RecoveryRequired? { return; }
      SetStarting(starting + {sid});
    }

    /** `#startSession` before the client exists: a fresh incarnation and a fresh runtime object. */
    method Spawn(sid: SessionId, incarnation: J.Text)
      requires Valid() && sid !in runtimes
      modifies this`starting, this`runtimes, this`objects, this`nextRid, store
      ensures Valid() && Value() == OnSpawn(old(Value()), sid, incarnation)
      ensures forall rid :: rid in objects && rid !in old(objects) ==> fresh(objects[rid])
    {
      if sid !in store.sessions {
        SetStarting(starting - {sid});
        return;
      }
      RotateIncarnation(sid, incarnation);
      Register(sid);
    }

    method RotateIncarnation(sid: SessionId, incarnation: J.Text)
      requires sid in store.sessions
      modifies store
      ensures Value() == old(Value()).(tables := Tables(
        old(store.sessions)[sid := old(store.sessions)[sid].(incarnation := incarnation)], old(store.commands)))
    {
      store.RotateIncarnation(sid, incarnation);
      assert Objects() == old(Objects());
    }

    method Register(sid: SessionId)
      requires Valid() && sid !in runtimes
      modifies this`runtimes, this`objects, this`nextRid
      ensures Valid()
      ensures forall rid :: rid in objects && rid !in old(objects) ==> fresh(objects[rid])
      ensures Value() == old(Value()).(
        runtimes := old(Objects())[old(nextRid) := Runtime(sid, Connecting, false, false, None, map[], false)],
        registered := old(runtimes)[sid := old(nextRid)],
        nextRid := old(nextRid) + 1)
    {
      var runtime := new RuntimeObject(nextRid, sid);
      objects := objects[nextRid := runtime];
      runtimes := runtimes[sid := nextRid];
      nextRid := nextRid + 1;
      ObjectAdded(old(nextRid), runtime);
    }

    method ClientConnected(sid: SessionId)
      requires Valid() && sid in runtimes
      modifies objects[runtimes[sid]]
      ensures Valid()
      ensures Value() == WithRuntime(old(Value()), runtimes[sid], old(objects[runtimes[sid]].Value()).(phase := Ready))
    {
      objects[runtimes[sid]].phase := Ready;
      OnlyObjectChanged(runtimes[sid]);
    }

    /** The end of a successful `#startSession`. */
    method StartFinished(sid: SessionId)
      requires Valid() && sid in runtimes
      modifies this`starting, objects[runtimes[sid]]
      ensures Valid()
      ensures Value() == WithRuntime(old(Value()), runtimes[sid], old(objects[runtimes[sid]].Value()).(timer := true)).(starting := old(starting) - {sid})
    {
      objects[runtimes[sid]].timer := true;
      OnlyObjectChanged(runtimes[sid]);
      SetStarting(starting - {sid});
    }

    /** `closing = true` and the request to close the client. */
    method MarkClosing(rid: RuntimeId)
      requires Valid() && rid in objects
      modifies objects[rid]
      ensures Valid()
      ensures Value() == WithRuntime(old(Value()), rid, HostSteps.MarkClosing(old(objects[rid].Value())))
    {
      objects[rid].closing := true;
      objects[rid].CloseClient();
      OnlyObjectChanged(rid);
    }

    method ClientReaped(rid: RuntimeId)
      requires Valid() && rid in objects
      modifies objects[rid]
      ensures Valid()
      ensures Value() == WithRuntime(old(Value()), rid, old(objects[rid].Value()).(phase := Closed))
    {
      objects[rid].phase := Closed;
      OnlyObjectChanged(rid);
    }

    /** The end of a failed `#startSession`. */
    method StartFailed(sid: SessionId, reaped: bool)
      requires Valid() && sid in starting && sid in runtimes
      modifies this`starting, this`runtimes, store, objects[runtimes[sid]]
      ensures Valid() && Value() == OnStartFailed(old(Value()), sid, reaped)
      ensures sid !in runtimes && sid !in starting && store.commands == old(store.commands)
      ensures sid in store.sessions ==> store.sessions[sid].status.Stopped?
    {
      if reaped {
        ClientReaped(runtimes[sid]);
      }
      Unregister(sid);
      SetStarting(starting - {sid});
      SetStatus(sid, Stopped);
    }

    /** `#stopSession` up to the client's close. */
    method StopRuntime(sid: SessionId)
      requires Valid()
      modifies this`stopping, objects.Values
      ensures Valid() && Value() == HostSteps.StopRuntime(old(Value()), sid)
    {
      if sid in runtimes {
        MarkClosing(runtimes[sid]);
        SetStopping(stopping[sid := WaitingForClose]);
      } else {
        SetStopping(stopping - {sid});
      }
    }

    /** `stopSession`. */
    method StopSession(sid: SessionId)
      requires Valid()
      modifies this`stopping, objects.Values
      ensures Valid() && Value() == OnStop(old(Value()), sid)
    {
      if sid in stopping { return; }
      if sid in starting {
        SetStopping(stopping[sid := WaitingForStart]);
      } else {
        StopRuntime(sid);
      }
    }

    /** `#stopSession` after the client's close. */
    method StopFinished(sid: SessionId, reaped: bool)
      requires Valid() && (sid in runtimes ==> sid in store.sessions)
      modifies this`stopping, this`runtimes, this`refusals, store, objects.Values
      ensures Valid() && Value() == OnStopFinished(old(Value()), sid, reaped)
      ensures !reaped ==> runtimes == old(runtimes) && store.Value() == old(store.Value())
      ensures reaped && sid in old(runtimes) ==>
        sid !in runtimes && forall k :: k in store.commands && k.sid == sid ==> !IsPending(store.commands[k])
    {
      SetStopping(stopping - {sid});
      if reaped && sid in runtimes {
        Release(sid);
      }
    }

    /** The runtime of a stopped session goes, and nothing of the session stays pending. */
    method Release(sid: SessionId)
      requires Valid() && sid in runtimes && sid in store.sessions
      modifies this`runtimes, this`refusals, store, objects.Values
      ensures Valid()
      ensures Value() == WithRuntime(old(Value()), old(runtimes)[sid], old(objects[runtimes[sid]].Value()).(phase := Closed)).(
        registered := old(runtimes) - {sid},
        tables := WithStatus(UnknownIn(old(store.Value()), sid), sid, Stopped))
    {
      ClientReaped(runtimes[sid]);
      Unregister(sid);
      UnknownCommands(sid);
      SetStatus(sid, Stopped);
    }

    // ---------------------------------------------------------------------- owner

    method CreateSession(sid: SessionId, incarnation: J.Text)
      modifies store
      ensures Value() == Step(old(Value()), Event.CreateSession(sid, incarnation))
    {
      if !closing {
        store.CreateSession(sid, incarnation);
      }
      assert Objects() == old(Objects());
    }

    /** `reconcile`. */
    method Reconcile(sid: SessionId)
      requires Valid()
      modifies store
      ensures Valid() && Value() == OnReconcile(old(Value()), sid)
      ensures store.commands == old(store.commands)
      ensures sid in store.sessions && store.sessions[sid].status.RecoveryRequired? ==> closing || sid in runtimes
    {
      if closing || sid in runtimes || sid !in store.sessions { return; }
      if store.sessions[sid].status.RecoveryRequired? {
        SetStatus(sid, Stopped);
      }
    }

    /** The next host process opens the store its predecessor left behind. */
    constructor Reopen(previous: CediaHost)
      requires previous.Valid()
      modifies previous.store
      ensures Valid() && store == previous.store
      ensures Value() == OnRestart(old(previous.Value()))
    {
      store := previous.store;
      runtimes, objects, nextRid, starting, stopping, closing := map[], map[], previous.nextRid, {}, map[], false;
      dispatches, responses, sends, handed, refusals := map[], {}, previous.sends, previous.handed, previous.refusals;
      new;
      store.RecoverPending();
    }
  }
}
