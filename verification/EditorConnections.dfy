/** `EditorConnections` (apps/host/src/editors.ts) as an object, proved to be the channel of `Editors`. */
module EditorConnections {
  import opened Basics
  import opened NativeDisk
  import opened Editors
  import EditorOutcomes

  class Connections {
    var clients: seq<Client>
    var pending: seq<Pending>
    var registeredRoots: set<Path>
    var nextId: RequestId
    ghost var owner: map<RequestId, ClientId>
    ghost var deliveries: multiset<Delivery>
    ghost var settled: map<RequestId, Settlement>

    ghost function Value(): State
      reads this
    {
      State(clients, pending, registeredRoots, nextId, owner, deliveries, settled)
    }

    constructor ()
      ensures Value() == EMPTY
    {
      clients, pending, registeredRoots, nextId := [], [], {}, 0;
      owner, deliveries, settled := map[], multiset{}, map[];
    }

    /** `hasConnection`. */
    method HasConnection(cwd: Path, now: int) returns (connected: bool)
      ensures connected == Editors.HasConnection(clients, cwd, now)
      ensures connected <==> exists c :: c in clients && now - c.lastSeen < 5000 && exists r :: r in c.roots && r <= cwd
    {
      EditorOutcomes.ConnectionTold(clients, cwd, now);
      for i := 0 to |clients|
        invariant forall j :: 0 <= j < i ==> !Serves(clients[j], cwd, now)
      {
        if Serves(clients[i], cwd, now) { return true; }
      }
      return false;
    }

    /** `hasRegisteredWorkspace`. */
    method HasRegisteredWorkspace(cwd: Option<Path>) returns (registered: bool)
      ensures registered == Editors.HasRegisteredWorkspace(registeredRoots, cwd)
      ensures registered <==> cwd.Some? && exists r :: r in registeredRoots && (r <= cwd.value || cwd.value <= r)
    {
      EditorOutcomes.WorkspaceTold(registeredRoots, cwd);
      if cwd.None? { return false; }
      var rest := registeredRoots;
      while rest != {}
        invariant rest <= registeredRoots
        invariant forall r :: r in registeredRoots - rest ==> !Overlaps(r, cwd.value)
        decreases |rest|
      {
        var r :| r in rest;
        if Overlaps(r, cwd.value) { return true; }
        rest := rest - {r};
      }
      return false;
    }

    method PruneClients(now: int)
      modifies this`clients
      ensures clients == Prune(old(clients), pending, now)
    {
      var all := clients;
      var kept: seq<Client> := [];
      for i := 0 to |all|
        invariant kept + Prune(all[i..], pending, now) == Prune(all, pending, now)
      {
        PruneStep(all, pending, now, i);
        if !(Expired(all[i], now) && !Busy(pending, all[i].id)) {
          kept := kept + [all[i]];
        }
      }
      clients := kept;
    }

    method Store(c: Client)
      modifies this`clients
      ensures clients == SetClient(old(clients), c)
    {
      for i := 0 to |clients|
        invariant forall j :: 0 <= j < i ==> clients[j].id != c.id
      {
        if clients[i].id == c.id {
          SetKnown(clients, c, i);
          clients := clients[i := c];
          return;
        }
      }
      SetUnknown(clients, c);
      clients := clients + [c];
    }

    /** `register`. */
    method Register(id: ClientId, validId: bool, paths: seq<Option<Path>>, now: int) returns (r: Result<(), Problem>)
      modifies this`clients, this`registeredRoots
      ensures (Value(), r) == Editors.Register(old(Value()), id, validId, paths, now)
    {
      if !validId || |paths| > MAX_ROOTS_PER_CALL { return Failure(InvalidRegistration); }
      if !AllResolve(paths) { return Failure(Unresolvable); }
      var canonical := Resolved(paths);
      var newRoots := (set root | root in canonical) - registeredRoots;
      assert registeredRoots + (set root | root in canonical) == registeredRoots + newRoots;
      if |registeredRoots| + |newRoots| > MAX_ROOTS { return Failure(TooManyRoots); }
      PruneClients(now);
      if !HasClient(clients, id) && |clients| >= MAX_WINDOWS { return Failure(TooManyWindows); }
      registeredRoots := registeredRoots + newRoots;
      Store(Client(id, canonical, now));
      return Success(());
    }

    /** `poll`. */
    method Poll(id: ClientId, now: int) returns (r: Result<seq<RequestId>, Problem>)
      modifies this`clients, this`pending, this`deliveries
      ensures (Value(), r) == Editors.Poll(old(Value()), id, now)
    {
      if !HasClient(clients, id) { return Failure(Unregistered); }
      clients := Touch(clients, id, now);
      var requests: seq<RequestId> := [];
      ghost var before := pending;
      for i := 0 to |pending|
        invariant |pending| == |before| && clients == Touch(old(clients), id, now) && deliveries == old(deliveries)
        invariant forall j :: 0 <= j < i ==> pending[j] == MarkSent(before, id)[j]
        invariant forall j :: i <= j < |pending| ==> pending[j] == before[j]
        invariant requests + Undelivered(before[i..], id) == Undelivered(before, id)
      {
        assert before[i..][1..] == before[i + 1..];
        if pending[i].clientId == id && !pending[i].sent {
          assert requests + ([before[i].id] + Undelivered(before[i + 1..], id)) == (requests + [before[i].id]) + Undelivered(before[i + 1..], id);
          requests := requests + [pending[i].id];
          pending := pending[i := pending[i].(sent := true)];
        }
      }
      assert pending == MarkSent(before, id);
      assert requests == Undelivered(before, id);
      deliveries := deliveries + Deliveries(requests, id);
      return Success(requests);
    }

    method Find(request: RequestId) returns (at: Option<nat>)
      ensures at == Place(pending, request)
    {
      for i := 0 to |pending|
        invariant forall j :: 0 <= j < i ==> pending[j].id != request
      {
        if pending[i].id == request {
          FirstPlace(pending, request, i);
          return Some(i);
        }
      }
      return None;
    }

    /** `cleanup` and then `resolve` or `reject`. */
    method Settle(i: nat, ghost how: Settlement)
      requires i < |pending|
      modifies this`pending, this`settled
      ensures Value() == Editors.Settle(old(Value()), i, how)
    {
      settled := settled[pending[i].id := how];
      pending := pending[..i] + pending[i + 1..];
    }

    /** `respond`. */
    method Respond(id: ClientId, request: RequestId, clock: int) returns (r: Result<(), Problem>)
      modifies this`pending, this`settled
      ensures (Value(), r) == Editors.Respond(old(Value()), id, request, clock)
    {
      var at := Find(request);
      if at.None? || !Answerable(pending[at.value], id, clock) { return Failure(Stale); }
      Settle(at.value, Responded);
      return Success(());
    }

    /** The abort listener and the timer of a request. */
    method Cancel(request: RequestId, ghost how: Settlement)
      modifies this`pending, this`settled
      ensures Value() == Editors.Cancel(old(Value()), request, how)
    {
      var at := Find(request);
      if at.Some? {
        Settle(at.value, how);
      }
    }

    method FindServing(root: Path, now: int) returns (client: Option<Client>)
      ensures client == FirstServing(clients, root, now)
    {
      for i := 0 to |clients|
        invariant FirstServing(clients[i..], root, now) == FirstServing(clients, root, now)
      {
        assert clients[i..][1..] == clients[i + 1..];
        if Serves(clients[i], root, now) { return Some(clients[i]); }
      }
      return None;
    }

    /** `request` up to the promise it returns. */
    method Request(cwd: Option<Path>, wellFormed: bool, aborted: bool, now: int, clock: int) returns (r: Result<RequestId, Problem>)
      modifies this`pending, this`nextId, this`owner
      ensures (Value(), r) == Ask(old(Value()), cwd, wellFormed, aborted, now, clock)
    {
      if aborted { return Failure(Cancelled); }
      if |pending| >= MAX_PENDING { return Failure(TooManyRequests); }
      if cwd.None? { return Failure(Unresolvable); }
      var client := FindServing(cwd.value, now);
      if client.None? { return Failure(NoEditor); }
      if !wellFormed { return Failure(BadRequest); }
      r := Success(nextId);
      pending := pending + [Pending(nextId, client.value.id, false, clock + DEADLINE_MS)];
      owner := owner[nextId := client.value.id];
      nextId := nextId + 1;
    }

    /** `close`. */
    method Close()
      requires forall i :: 0 <= i < |pending| ==> pending[i].id !in settled
      modifies this`clients, this`pending, this`settled
      ensures Value() == Editors.Close(old(Value()))
    {
      ghost var before := pending;
      ghost var n := 0;
      while |pending| > 0
        invariant n <= |before| && pending == before[n..]
        invariant settled.Keys == old(settled).Keys + PendingIds(before[..n])
        invariant forall r :: r in settled ==> settled[r] == if r in PendingIds(before[..n]) then Closed else old(settled)[r]
        decreases |pending|
      {
        assert before[..n + 1] == before[..n] + [before[n]];
        AddedIds(before[..n], before[n]);
        Settle(0, Closed);
        n := n + 1;
      }
      assert before[..n] == before;
      clients := [];
    }
  }

  lemma PruneStep(clients: seq<Client>, pending: seq<Pending>, now: int, i: nat)
    requires i < |clients|
    ensures Prune(clients[i..], pending, now) ==
      (if Expired(clients[i], now) && !Busy(pending, clients[i].id) then [] else [clients[i]]) + Prune(clients[i + 1..], pending, now)
  {
    assert clients[i..][1..] == clients[i + 1..];
  }

  lemma {:induction false} SetKnown(clients: seq<Client>, c: Client, i: nat)
    requires i < |clients| && clients[i].id == c.id && forall j :: 0 <= j < i ==> clients[j].id != c.id
    ensures SetClient(clients, c) == clients[i := c]
  {
    if i > 0 {
      SetKnown(clients[1..], c, i - 1);
    }
  }

  lemma {:induction false} SetUnknown(clients: seq<Client>, c: Client)
    requires forall j :: 0 <= j < |clients| ==> clients[j].id != c.id
    ensures SetClient(clients, c) == clients + [c]
  {
    if clients != [] {
      SetUnknown(clients[1..], c);
    }
  }

  lemma {:induction false} FirstPlace(pending: seq<Pending>, request: RequestId, i: nat)
    requires i < |pending| && pending[i].id == request && forall j :: 0 <= j < i ==> pending[j].id != request
    ensures Place(pending, request) == Some(i)
  {
    if i > 0 {
      FirstPlace(pending[1..], request, i - 1);
    }
  }
}
