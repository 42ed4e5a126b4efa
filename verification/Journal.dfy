/**
  The durable command journal (apps/host/src/store.ts): session and command tables, the claim that
  decides between a new command, a replay and a conflict, the status graph, and startup recovery.
  Each SQLite transaction is one atomic step.
*/
module Journal {
  import opened Basics
  import J = CanonicalJson

  type SessionId = string
  type CommandId = string

  datatype Key = Key(sid: SessionId, cid: CommandId)

  datatype Status = Claimed | Acknowledged | Completed | Failed | OutcomeUnknown | NotDispatched

  /** `isTerminalCommandStatus`. */
  predicate IsTerminal(s: Status) {
    s.Completed? || s.Failed? || s.OutcomeUnknown? || s.NotDispatched?
  }

  /** `isAllowedCommandTransition`. */
  predicate IsAllowed(current: Status, next: Status) {
    match current
    case Claimed => next.Acknowledged? || IsTerminal(next)
    case Acknowledged => next.Completed? || next.Failed? || next.OutcomeUnknown? || next.NotDispatched?
    case _ => false
  }

  datatype SessionStatus = Idle | Running | Stopped | RecoveryRequired

  datatype Session = Session(status: SessionStatus, incarnation: J.Text)

  const PROMPT: J.Text := [112, 114, 111, 109, 112, 116]
  const ABORT_AND_PROMPT: J.Text := [97, 98, 111, 114, 116, 95, 97, 110, 100, 95, 112, 114, 111, 109, 112, 116]
  const NEW_SESSION: J.Text := [110, 101, 119, 95, 115, 101, 115, 115, 105, 111, 110]
  const SWITCH_SESSION: J.Text := [115, 119, 105, 116, 99, 104, 95, 115, 101, 115, 115, 105, 111, 110]
  const BRANCH: J.Text := [98, 114, 97, 110, 99, 104]
  const UI_RESPONSE: J.Text := [117, 105, 95, 114, 101, 115, 112, 111, 110, 115, 101]

  predicate IsSpecial(name: J.Text) {
    || name == PROMPT || name == ABORT_AND_PROMPT || name == NEW_SESSION || name == SWITCH_SESSION || name == BRANCH
    || name == UI_RESPONSE
  }

  /** The name of a command that the host treats like most others. */
  type OrdinaryName = name: J.Text | !IsSpecial(name) witness []

  /** The recognised commands; only the first five and the answers to OMP's questions are treated specially. */
  datatype Kind = Prompt | AbortAndPrompt | NewSession | SwitchSession | Branch | OtherCommand(name: OrdinaryName) | UiResponse

  /** The kind as a request names it and the store keeps it. */
  function KindText(kind: Kind): J.Text {
    match kind
    case Prompt => PROMPT
    case AbortAndPrompt => ABORT_AND_PROMPT
    case NewSession => NEW_SESSION
    case SwitchSession => SWITCH_SESSION
    case Branch => BRANCH
    case OtherCommand(name) => name
    case UiResponse => UI_RESPONSE
  }

  /** `turnCommands`. */
  predicate IsTurn(kind: Kind) { kind.Prompt? || kind.AbortAndPrompt? }

  /** Commands after which the host reads OMP's session file back. */
  predicate ChangesSession(kind: Kind) { kind.NewSession? || kind.SwitchSession? || kind.Branch? }

  /** The complete identity of a command request. */
  datatype Identity = Identity(device: J.Text, incarnation: J.Text, kind: J.Text, payload: J.Value)

  const DEVICE_ID: J.Text := [100, 101, 118, 105, 99, 101, 73, 100]
  const INCARNATION: J.Text := [105, 110, 99, 97, 114, 110, 97, 116, 105, 111, 110]
  const KIND: J.Text := [107, 105, 110, 100]
  const PAYLOAD: J.Text := [112, 97, 121, 108, 111, 97, 100]

  function IdentityObject(id: Identity): J.Value {
    J.Object([
      J.Field(DEVICE_ID, J.String(id.device)),
      J.Field(INCARNATION, J.String(id.incarnation)),
      J.Field(KIND, J.String(id.kind)),
      J.Field(PAYLOAD, id.payload)])
  }

  /** `commandPayloadHash`, with SHA-256 taken as injective: the hash is the text it digests. */
  function CommandHash(id: Identity): J.Text
    requires J.Supported(id.payload)
  {
    J.Encode(IdentityObject(id))
  }

  /** A command row.  `history` lists every status the row has had, in order. */
  datatype Row = Row(kind: Kind, hash: J.Text, status: Status, history: seq<Status>)

  datatype Tables = Tables(sessions: map<SessionId, Session>, commands: map<Key, Row>)

  // --------------------------------------------------------------------- claim

  datatype ClaimResult = ClaimCreated | ClaimExisting(row: Row) | ClaimConflict | ClaimNoSession | ClaimBadPayload

  function Claim(t: Tables, k: Key, kind: Kind, id: Identity): (Tables, ClaimResult) {
    if !J.Supported(id.payload) then (t, ClaimBadPayload)
    else if k.sid !in t.sessions then (t, ClaimNoSession)
    else if k in t.commands then
      (t, if t.commands[k].hash != CommandHash(id) then ClaimConflict else ClaimExisting(t.commands[k]))
    else
      (t.(commands := t.commands[k := Row(kind, CommandHash(id), Claimed, [Claimed])]), ClaimCreated)
  }

  // ---------------------------------------------------------------- transition

  const ERROR_MAX_BYTES := 16_384

  /** The size in bytes of an error text, when one is given. */
  type ErrorText = Option<nat>

  predicate ErrorFits(error: ErrorText) {
    error.Some? ==> 0 < error.value <= ERROR_MAX_BYTES
  }

  function MoveTo(row: Row, next: Status): Row {
    row.(status := next, history := row.history + [next])
  }

  /** `transitionCommand`: the new tables, and whether the request was accepted. */
  function Transition(t: Tables, k: Key, next: Status, error: ErrorText): (Tables, bool) {
    if !ErrorFits(error) || k.sid !in t.sessions || k !in t.commands then (t, false)
    else
      var row := t.commands[k];
      if row.status == next then (t, true)
      else if IsTerminal(row.status) || !IsAllowed(row.status, next) then (t, false)
      else if next.Failed? && error.None? then (t, false)
      else (t.(commands := t.commands[k := MoveTo(row, next)]), true)
  }

  function WithStatus(t: Tables, sid: SessionId, status: SessionStatus): Tables {
    if sid in t.sessions then t.(sessions := t.sessions[sid := t.sessions[sid].(status := status)]) else t
  }

  // ------------------------------------------------------- pending and recovery

  predicate IsPending(row: Row) { row.status.Claimed? || row.status.Acknowledged? }

  function MarkUnknown(row: Row): Row {
    if IsPending(row) then MoveTo(row, OutcomeUnknown) else row
  }

  /** Every pending command of one session moved to `outcome_unknown`. */
  function UnknownIn(t: Tables, sid: SessionId): Tables {
    t.(commands := map k | k in t.commands :: if k.sid == sid then MarkUnknown(t.commands[k]) else t.commands[k])
  }

  predicate HasPending(t: Tables, sid: SessionId) {
    exists k | k in t.commands :: k.sid == sid && IsPending(t.commands[k])
  }

  /** `recoverPending`. */
  function Recover(t: Tables): Tables {
    Tables(
      map sid | sid in t.sessions ::
        if t.sessions[sid].status.Running? || HasPending(t, sid)
        then t.sessions[sid].(status := RecoveryRequired) else t.sessions[sid],
      map k | k in t.commands :: MarkUnknown(t.commands[k]))
  }

  /** A session that was running, was in recovery, or has a command that may have had an effect. */
  ghost predicate MustRecover(t: Tables, sid: SessionId)
    requires sid in t.sessions
  {
    || t.sessions[sid].status.Running? || t.sessions[sid].status.RecoveryRequired?
    || exists k :: k in t.commands && k.sid == sid && (t.commands[k].status.Claimed? || t.commands[k].status.Acknowledged?)
  }

  /**
    What startup recovery makes of the store: exactly those sessions require recovery, exactly the
    unfinished commands become unknown, and nothing else changes.
  */
  ghost predicate Recovers(a: Tables, b: Tables) {
    && a.sessions.Keys == b.sessions.Keys && a.commands.Keys == b.commands.Keys
    && (forall k :: k in a.commands ==>
          b.commands[k] == if a.commands[k].status.Claimed? || a.commands[k].status.Acknowledged?
                           then a.commands[k].(status := OutcomeUnknown, history := a.commands[k].history + [OutcomeUnknown])
                           else a.commands[k])
    && (forall sid :: sid in a.sessions ==> (MustRecover(a, sid) <==> b.sessions[sid].status.RecoveryRequired?))
    && (forall sid :: sid in a.sessions ==> b.sessions[sid] == a.sessions[sid].(status := b.sessions[sid].status))
    && (forall sid :: sid in a.sessions && !MustRecover(a, sid) ==> b.sessions[sid] == a.sessions[sid])
  }

  lemma RecoverRecovers(t: Tables)
    ensures Recovers(t, Recover(t))
  {
    forall sid | sid in t.sessions ensures MustRecover(t, sid) <==> Recover(t).sessions[sid].status.RecoveryRequired? {
      assert HasPending(t, sid) <==> exists k :: k in t.commands && k.sid == sid && IsPending(t.commands[k]);
    }
  }

  /** The single-owner store; every method is one transaction. */
  class DurableStore {
    var sessions: map<SessionId, Session>
    var commands: map<Key, Row>

    constructor ()
      ensures Value() == Tables(map[], map[])
    {
      sessions := map[];
      commands := map[];
    }

    function Value(): Tables
      reads this
    {
      Tables(sessions, commands)
    }

    method CreateSession(sid: SessionId, incarnation: J.Text)
      modifies this
      ensures commands == old(commands)
      ensures sessions == if sid in old(sessions) then old(sessions) else old(sessions)[sid := Session(Idle, incarnation)]
    {
      if sid !in sessions {
        sessions := sessions[sid := Session(Idle, incarnation)];
      }
    }

    method UpdateStatus(sid: SessionId, status: SessionStatus)
      modifies this`sessions
      ensures Value() == WithStatus(old(Value()), sid, status)
    {
      if sid in sessions {
        sessions := sessions[sid := sessions[sid].(status := status)];
      }
    }

    method RotateIncarnation(sid: SessionId, incarnation: J.Text)
      modifies this`sessions
      ensures sessions == if sid in old(sessions) then old(sessions)[sid := old(sessions)[sid].(incarnation := incarnation)] else old(sessions)
    {
      if sid in sessions {
        sessions := sessions[sid := sessions[sid].(incarnation := incarnation)];
      }
    }

    method ClaimCommand(k: Key, kind: Kind, id: Identity) returns (r: ClaimResult)
      modifies this`commands
      ensures (Value(), r) == Claim(old(Value()), k, kind, id)
    {
      if !J.Supported(id.payload) { return ClaimBadPayload; }
      var hash := CommandHash(id);
      if k.sid !in sessions { return ClaimNoSession; }
      if k in commands {
        if commands[k].hash != hash { return ClaimConflict; }
        return ClaimExisting(commands[k]);
      }
      commands := commands[k := Row(kind, hash, Claimed, [Claimed])];
      return ClaimCreated;
    }

    method TransitionCommand(k: Key, next: Status, error: ErrorText) returns (accepted: bool)
      modifies this`commands
      ensures (Value(), accepted) == Transition(old(Value()), k, next, error)
    {
      if !ErrorFits(error) || k.sid !in sessions || k !in commands { return false; }
      var row := commands[k];
      if row.status == next { return true; }
      if IsTerminal(row.status) || !IsAllowed(row.status, next) { return false; }
      if next.Failed? && error.None? { return false; }
      commands := commands[k := MoveTo(row, next)];
      return true;
    }

    /** `listPendingCommands`. */
    method ListPending(sid: SessionId) returns (pending: set<Key>)
      ensures pending == set k | k in commands && k.sid == sid && IsPending(commands[k])
    {
      pending := set k | k in commands && k.sid == sid && IsPending(commands[k]);
    }

    method RequireRecovery(unfinished: set<SessionId>)
      modifies this`sessions
      ensures sessions.Keys == old(sessions).Keys
      ensures forall sid :: sid in sessions ==>
        sessions[sid] == if sid in unfinished then old(sessions)[sid].(status := RecoveryRequired) else old(sessions)[sid]
    {
      var rest := unfinished;
      while rest != {}
        invariant rest <= unfinished
        invariant sessions.Keys == old(sessions).Keys
        invariant forall sid :: sid in sessions ==>
          sessions[sid] == if sid in unfinished - rest then old(sessions)[sid].(status := RecoveryRequired) else old(sessions)[sid]
        decreases |rest|
      {
        var sid :| sid in rest;
        if sid in sessions {
          sessions := sessions[sid := sessions[sid].(status := RecoveryRequired)];
        }
        rest := rest - {sid};
      }
    }

    method RecoverPending()
      modifies this
      ensures Value() == Recover(old(Value()))
      ensures Recovers(old(Value()), Value())
    {
      var unfinished := set k | k in commands && IsPending(commands[k]) :: k.sid;
      forall sid ensures sid in unfinished <==> HasPending(old(Value()), sid) {
      }
      commands := map k | k in commands :: MarkUnknown(commands[k]);
      sessions := map sid | sid in sessions ::
        if sessions[sid].status.Running? then sessions[sid].(status := RecoveryRequired) else sessions[sid];
      RequireRecovery(unfinished);
      assert sessions == Recover(old(Value())).sessions;
      RecoverRecovers(old(Value()));
    }
  }
}
