/**
  The native editor channel (apps/host/src/editors.ts): windows register their roots, poll for requests
  and answer them; roots are never forgotten.  Paths are canonical; `None` stands for one that cannot be
  resolved.
*/
module Editors {
  import opened Basics
  import opened NativeDisk

  type ClientId = string
  type RequestId = nat

  const MAX_ROOTS := 10_000
  const MAX_WINDOWS := 100
  const MAX_PENDING := 100
  const MAX_ROOTS_PER_CALL := 100
  const LIVE_MS := 5000
  const DEADLINE_MS := 30_000

  datatype Client = Client(id: ClientId, roots: seq<Path>, lastSeen: int)
  datatype Pending = Pending(id: RequestId, clientId: ClientId, sent: bool, deadline: int)

  datatype Settlement = Responded | Aborted | TimedOut | Closed
  datatype Delivery = Delivery(id: RequestId, clientId: ClientId)

  /** `owner`, `deliveries` and `settled` record what happened to every request so far. */
  datatype State = State(
    clients: seq<Client>,
    pending: seq<Pending>,
    roots: set<Path>,
    nextId: RequestId,
    owner: map<RequestId, ClientId>,
    deliveries: multiset<Delivery>,
    settled: map<RequestId, Settlement>)

  const EMPTY := State([], [], {}, 0, map[], multiset{}, map[])

  datatype Problem =
    | InvalidRegistration | Unresolvable | TooManyRoots | TooManyWindows
    | Unregistered | Stale | Cancelled | TooManyRequests | NoEditor | BadRequest

  // ------------------------------------------------------------------- questions

  predicate Expired(c: Client, now: int) { now - c.lastSeen >= LIVE_MS }

  predicate Busy(pending: seq<Pending>, id: ClientId) {
    exists i | 0 <= i < |pending| :: pending[i].clientId == id
  }

  predicate HasClient(clients: seq<Client>, id: ClientId) {
    exists i | 0 <= i < |clients| :: clients[i].id == id
  }

  /** A live window with a root that contains the directory. */
  predicate Serves(c: Client, root: Path, now: int) {
    !Expired(c, now) && exists i | 0 <= i < |c.roots| :: Within(c.roots[i], root)
  }

  /** `hasConnection`. */
  predicate HasConnection(clients: seq<Client>, root: Path, now: int) {
    exists i | 0 <= i < |clients| :: Serves(clients[i], root, now)
  }

  predicate Overlaps(a: Path, b: Path) { Within(a, b) || Within(b, a) }

  /** `hasRegisteredWorkspace`; a directory that cannot be resolved has none. */
  predicate HasRegisteredWorkspace(roots: set<Path>, cwd: Option<Path>) {
    cwd.Some? && exists r | r in roots :: Overlaps(r, cwd.value)
  }

  // ------------------------------------------------------------------ operations

  /** The clients that survive pruning: live ones and those with a pending request. */
  function Prune(clients: seq<Client>, pending: seq<Pending>, now: int): (r: seq<Client>)
    ensures forall c :: c in r <==> c in clients && (!Expired(c, now) || Busy(pending, c.id))
    ensures |r| <= |clients| && (|r| == |clients| ==> r == clients)
  {
    if clients == [] then []
    else if Expired(clients[0], now) && !Busy(pending, clients[0].id) then Prune(clients[1..], pending, now)
    else [clients[0]] + Prune(clients[1..], pending, now)
  }

  /** `Map.set`: a known key keeps its place. */
  function SetClient(clients: seq<Client>, c: Client): (r: seq<Client>) {
    if clients == [] then [c]
    else if clients[0].id == c.id then [c] + clients[1..]
    else [clients[0]] + SetClient(clients[1..], c)
  }

  function Touch(clients: seq<Client>, id: ClientId, now: int): (r: seq<Client>)
    ensures |r| == |clients|
    ensures forall i :: 0 <= i < |r| ==> r[i] == if clients[i].id == id then clients[i].(lastSeen := now) else clients[i]
  {
    seq(|clients|, i requires 0 <= i < |clients| => if clients[i].id == id then clients[i].(lastSeen := now) else clients[i])
  }

  predicate AllResolve(paths: seq<Option<Path>>) { forall i | 0 <= i < |paths| :: paths[i].Some? }

  function Resolved(paths: seq<Option<Path>>): (r: seq<Path>)
    requires AllResolve(paths)
  {
    seq(|paths|, i requires 0 <= i < |paths| => paths[i].value)
  }

  function Register(s: State, id: ClientId, validId: bool, paths: seq<Option<Path>>, now: int): (State, Result<(), Problem>) {
    if !validId || |paths| > MAX_ROOTS_PER_CALL then (s, Failure(InvalidRegistration))
    else if !AllResolve(paths) then (s, Failure(Unresolvable))
    else
      var canonical := Resolved(paths);
      var roots := s.roots + set r | r in canonical;
      if |roots| > MAX_ROOTS then (s, Failure(TooManyRoots))
      else
        var clients := Prune(s.clients, s.pending, now);
        if !HasClient(clients, id) && |clients| >= MAX_WINDOWS then (s.(clients := clients), Failure(TooManyWindows))
        else (s.(clients := SetClient(clients, Client(id, canonical, now)), roots := roots), Success(()))
  }

  /** The requests a poll of this client takes along, in the order they were made. */
  function Undelivered(pending: seq<Pending>, id: ClientId): (r: seq<RequestId>) {
    if pending == [] then []
    else if pending[0].clientId == id && !pending[0].sent then [pending[0].id] + Undelivered(pending[1..], id)
    else Undelivered(pending[1..], id)
  }

  function MarkSent(pending: seq<Pending>, id: ClientId): (r: seq<Pending>)
    ensures |r| == |pending|
    ensures forall i :: 0 <= i < |r| ==> r[i] == if pending[i].clientId == id then pending[i].(sent := true) else pending[i]
  {
    seq(|pending|, i requires 0 <= i < |pending| => if pending[i].clientId == id then pending[i].(sent := true) else pending[i])
  }

  function Deliveries(ids: seq<RequestId>, id: ClientId): multiset<Delivery> {
    if ids == [] then multiset{} else multiset{Delivery(ids[0], id)} + Deliveries(ids[1..], id)
  }

  function Poll(s: State, id: ClientId, now: int): (State, Result<seq<RequestId>, Problem>) {
    if !HasClient(s.clients, id) then (s, Failure(Unregistered))
    else
      var taken := Undelivered(s.pending, id);
      (s.(clients := Touch(s.clients, id, now), pending := MarkSent(s.pending, id), deliveries := s.deliveries + Deliveries(taken, id)),
       Success(taken))
  }

  /** The place of a pending request. */
  function Place(pending: seq<Pending>, id: RequestId): (r: Option<nat>)
    ensures r.Some? ==> r.value < |pending| && pending[r.value].id == id
    ensures r.None? ==> forall i :: 0 <= i < |pending| ==> pending[i].id != id
  {
    if pending == [] then None
    else if pending[0].id == id then Some(0)
    else
      var rest := Place(pending[1..], id);
      if rest.Some? then Some(rest.value + 1) else None
  }

  function RemoveAt(pending: seq<Pending>, i: nat): seq<Pending>
    requires i < |pending|
  {
    pending[..i] + pending[i + 1..]
  }

  /** A pending request leaves the table with this outcome. */
  function Settle(s: State, i: nat, how: Settlement): State
    requires i < |s.pending|
  {
    s.(pending := RemoveAt(s.pending, i), settled := s.settled[s.pending[i].id := how])
  }

  predicate Answerable(p: Pending, id: ClientId, clock: int) { p.clientId == id && p.sent && clock < p.deadline }

  function Respond(s: State, id: ClientId, request: RequestId, clock: int): (State, Result<(), Problem>) {
    var at := Place(s.pending, request);
    if at.None? || !Answerable(s.pending[at.value], id, clock) then (s, Failure(Stale))
    else (Settle(s, at.value, Responded), Success(()))
  }

  /** An abort signal or the timer of a request: neither fires once it is settled. */
  function Cancel(s: State, request: RequestId, how: Settlement): State {
    var at := Place(s.pending, request);
    if at.None? then s else Settle(s, at.value, how)
  }

  function FirstServing(clients: seq<Client>, root: Path, now: int): (r: Option<Client>)
    ensures r.Some? ==> r.value in clients && Serves(r.value, root, now)
    ensures r.None? ==> !HasConnection(clients, root, now)
  {
    if clients == [] then None
    else if Serves(clients[0], root, now) then Some(clients[0])
    else FirstServing(clients[1..], root, now)
  }

  function Ask(s: State, cwd: Option<Path>, wellFormed: bool, aborted: bool, now: int, clock: int): (State, Result<RequestId, Problem>) {
    if aborted then (s, Failure(Cancelled))
    else if |s.pending| >= MAX_PENDING then (s, Failure(TooManyRequests))
    else if cwd.None? then (s, Failure(Unresolvable))
    else
      var client := FirstServing(s.clients, cwd.value, now);
      if client.None? then (s, Failure(NoEditor))
      else if !wellFormed then (s, Failure(BadRequest))
      else
        (s.(pending := s.pending + [Pending(s.nextId, client.value.id, false, clock + DEADLINE_MS)],
            owner := s.owner[s.nextId := client.value.id],
            nextId := s.nextId + 1),
         Success(s.nextId))
  }

  function PendingIds(pending: seq<Pending>): set<RequestId> {
    set i | 0 <= i < |pending| :: pending[i].id
  }

  function Close(s: State): State {
    s.(clients := [], pending := [],
       settled := map r | r in s.settled.Keys + PendingIds(s.pending) :: if r in PendingIds(s.pending) then Closed else s.settled[r])
  }

  // ------------------------------------------------------------------------ runs

  datatype Event =
    | Registers(id: ClientId, validId: bool, paths: seq<Option<Path>>, now: int)
    | Polls(id: ClientId, now: int)
    | Responds(id: ClientId, request: RequestId, clock: int)
    | Asks(cwd: Option<Path>, wellFormed: bool, aborted: bool, now: int, clock: int)
    | Aborts(request: RequestId)
    | TimesOut(request: RequestId)
    | Closes

  function Step(s: State, e: Event): State {
    match e
    case Registers(id, validId, paths, now) => Register(s, id, validId, paths, now).0
    case Polls(id, now) => Poll(s, id, now).0
    case Responds(id, request, clock) => Respond(s, id, request, clock).0
    case Asks(cwd, wellFormed, aborted, now, clock) => Ask(s, cwd, wellFormed, aborted, now, clock).0
    case Aborts(request) => Cancel(s, request, Aborted)
    case TimesOut(request) => Cancel(s, request, TimedOut)
    case Closes => Close(s)
  }

  function Run(events: seq<Event>): State {
    if events == [] then EMPTY else Step(Run(events[..|events| - 1]), events[|events| - 1])
  }

  // ------------------------------------------------------------------- invariant

  ghost predicate DistinctWindows(clients: seq<Client>) {
    forall i, j :: 0 <= i < j < |clients| ==> clients[i].id != clients[j].id
  }

  ghost predicate DistinctRequests(pending: seq<Pending>) {
    forall i, j :: 0 <= i < j < |pending| ==> pending[i].id != pending[j].id
  }

  /** Windows have distinct ids and remember only registered roots; the capacities hold. */
  ghost predicate ClientsOk(clients: seq<Client>, roots: set<Path>) {
    && |clients| <= MAX_WINDOWS && |roots| <= MAX_ROOTS
    && DistinctWindows(clients)
    && (forall c, r :: c in clients && r in c.roots ==> r in roots)
  }

  /** Every pending request is fresh, owned by a registered window and recorded once. */
  ghost predicate PendingOk(clients: seq<Client>, pending: seq<Pending>, owner: map<RequestId, ClientId>) {
    && |pending| <= MAX_PENDING
    && DistinctRequests(pending)
    && (forall p :: p in pending ==> HasClient(clients, p.clientId) && p.id in owner && owner[p.id] == p.clientId)
  }

  /** Each issued request is pending or settled, never both. */
  ghost predicate SettledOk(pending: seq<Pending>, nextId: RequestId, owner: map<RequestId, ClientId>, settled: map<RequestId, Settlement>) {
    && (forall r: nat :: r in owner <==> r < nextId)
    && (forall r :: r in settled ==> r < nextId)
    && (forall p :: p in pending ==> p.id !in settled)
    && (forall r :: r in owner && r !in settled ==> r in PendingIds(pending))
  }

  /** A request is delivered at most once, to its owner; exactly the delivered pending ones are marked sent. */
  ghost predicate DeliveriesOk(pending: seq<Pending>, owner: map<RequestId, ClientId>, deliveries: multiset<Delivery>, settled: map<RequestId, Settlement>) {
    && (forall d :: deliveries[d] <= 1)
    && (forall d :: d in deliveries ==> d.id in owner && owner[d.id] == d.clientId)
    && (forall p :: p in pending ==> (p.sent <==> Delivery(p.id, p.clientId) in deliveries))
    && (forall r :: r in settled && settled[r].Responded? ==> r in owner && Delivery(r, owner[r]) in deliveries)
  }

  ghost predicate Inv(s: State) {
    && ClientsOk(s.clients, s.roots)
    && PendingOk(s.clients, s.pending, s.owner)
    && SettledOk(s.pending, s.nextId, s.owner, s.settled)
    && DeliveriesOk(s.pending, s.owner, s.deliveries, s.settled)
  }

  // ---------------------------------------------------------------- registration

  lemma {:induction false} PruneKeepsClients(clients: seq<Client>, pending: seq<Pending>, now: int)
    requires DistinctWindows(clients)
    ensures DistinctWindows(Prune(clients, pending, now))
  {
    if clients != [] {
      PruneKeepsClients(clients[1..], pending, now);
      PushWindow(clients[0], Prune(clients[1..], pending, now), clients);
    }
  }

  lemma PushWindow(c: Client, rest: seq<Client>, clients: seq<Client>)
    requires DistinctWindows(rest) && DistinctWindows(clients) && clients != [] && c == clients[0]
    requires forall d :: d in rest ==> d in clients[1..]
    ensures DistinctWindows([c] + rest)
  {
    forall j | 0 <= j < |rest| ensures rest[j].id != c.id {
      assert rest[j] in clients[1..];
    }
  }

  lemma HasClientTail(clients: seq<Client>, id: ClientId)
    requires clients != []
    ensures HasClient(clients, id) <==> clients[0].id == id || HasClient(clients[1..], id)
  {
    if HasClient(clients[1..], id) {
      var i :| 0 <= i < |clients[1..]| && clients[1..][i].id == id;
      assert clients[i + 1].id == id;
    }
    if HasClient(clients, id) && clients[0].id != id {
      var i :| 0 <= i < |clients| && clients[i].id == id;
      assert clients[1..][i - 1].id == id;
    }
  }

  /** Replacing a window keeps all others; a new one is added. */
  lemma {:induction false} SetClientKeeps(clients: seq<Client>, c: Client)
    requires DistinctWindows(clients)
    ensures var r := SetClient(clients, c);
            && |r| == |clients| + (if HasClient(clients, c.id) then 0 else 1)
            && DistinctWindows(r)
            && (forall d :: d in r <==> d == c || (d in clients && d.id != c.id))
  {
    if clients != [] {
      HasClientTail(clients, c.id);
      assert clients == [clients[0]] + clients[1..];
      if clients[0].id != c.id {
        SetClientKeeps(clients[1..], c);
        var rest := SetClient(clients[1..], c);
        forall j | 0 <= j < |rest| ensures rest[j].id != clients[0].id {
          assert rest[j] in rest;
        }
      } else {
        forall d | d in clients[1..] ensures d.id != c.id {
          var i :| 0 <= i < |clients[1..]| && clients[1..][i] == d;
          assert clients[i + 1] == d;
        }
      }
    }
  }

  lemma HasClientBy(clients: seq<Client>, c: Client)
    requires c in clients
    ensures HasClient(clients, c.id)
  {
    var i :| 0 <= i < |clients| && clients[i] == c;
    assert clients[i].id == c.id;
  }

  /** Pruning and replacing keep the window of every pending request. */
  lemma RegisteredKeepsOwners(clients: seq<Client>, pending: seq<Pending>, now: int, c: Client, id: ClientId)
    requires DistinctWindows(clients)
    requires HasClient(clients, id) && Busy(pending, id)
    ensures HasClient(Prune(clients, pending, now), id)
    ensures HasClient(SetClient(Prune(clients, pending, now), c), id)
  {
    var i :| 0 <= i < |clients| && clients[i].id == id;
    var pruned := Prune(clients, pending, now);
    assert clients[i] in pruned;
    HasClientBy(pruned, clients[i]);
    PruneKeepsClients(clients, pending, now);
    SetClientKeeps(pruned, c);
    HasClientBy(SetClient(pruned, c), if id == c.id then c else clients[i]);
  }

  /** A registration that fails changes nothing: pruning never leaves a full table. */
  lemma FailedRegisterChangesNothing(s: State, id: ClientId, validId: bool, paths: seq<Option<Path>>, now: int)
    requires Inv(s) && Register(s, id, validId, paths, now).1.Failure?
    ensures Register(s, id, validId, paths, now).0 == s
  {
    var clients := Prune(s.clients, s.pending, now);
    if |clients| >= MAX_WINDOWS {
      assert clients == s.clients;
    }
  }

  lemma RegisterKeepsClients(s: State, id: ClientId, paths: seq<Option<Path>>, now: int)
    requires Inv(s) && AllResolve(paths)
    requires Register(s, id, true, paths, now).1.Success?
    ensures var g := Register(s, id, true, paths, now).0; ClientsOk(g.clients, g.roots)
  {
    var c := Client(id, Resolved(paths), now);
    PruneKeepsClients(s.clients, s.pending, now);
    SetClientKeeps(Prune(s.clients, s.pending, now), c);
  }

  lemma RegisterKeepsInv(s: State, id: ClientId, validId: bool, paths: seq<Option<Path>>, now: int)
    requires Inv(s)
    ensures Inv(Register(s, id, validId, paths, now).0)
    ensures s.roots <= Register(s, id, validId, paths, now).0.roots
  {
    var (g, r) := Register(s, id, validId, paths, now);
    if r.Failure? {
      FailedRegisterChangesNothing(s, id, validId, paths, now);
    } else {
      RegisterKeepsClients(s, id, paths, now);
      forall p | p in s.pending ensures HasClient(g.clients, p.clientId) {
        var i :| 0 <= i < |s.pending| && s.pending[i] == p;
        assert Busy(s.pending, p.clientId);
        RegisteredKeepsOwners(s.clients, s.pending, now, Client(id, Resolved(paths), now), p.clientId);
      }
    }
  }

  // -------------------------------------------------------------------- delivery

  lemma {:induction false} UndeliveredAre(pending: seq<Pending>, id: ClientId, r: RequestId)
    ensures r in Undelivered(pending, id) <==> exists i :: 0 <= i < |pending| && pending[i].id == r && pending[i].clientId == id && !pending[i].sent
  {
    if pending != [] {
      UndeliveredAre(pending[1..], id, r);
      if r in Undelivered(pending[1..], id) {
        var i :| 0 <= i < |pending[1..]| && pending[1..][i].id == r && pending[1..][i].clientId == id && !pending[1..][i].sent;
        assert pending[i + 1].id == r;
      }
      if exists i :: 0 <= i < |pending| && pending[i].id == r && pending[i].clientId == id && !pending[i].sent {
        var i :| 0 <= i < |pending| && pending[i].id == r && pending[i].clientId == id && !pending[i].sent;
        if i > 0 {
          assert pending[1..][i - 1].id == r;
        }
      }
    }
  }

  lemma {:induction false} DeliveriesCount(pending: seq<Pending>, id: ClientId, d: Delivery)
    requires DistinctRequests(pending)
    ensures var taken := Deliveries(Undelivered(pending, id), id);
            taken[d] == if d.clientId == id && d.id in Undelivered(pending, id) then 1 else 0
  {
    if pending != [] {
      DeliveriesCount(pending[1..], id, d);
      if pending[0].clientId == id && !pending[0].sent {
        assert Undelivered(pending, id)[1..] == Undelivered(pending[1..], id);
        if d.id == pending[0].id && d.id in Undelivered(pending[1..], id) {
          UndeliveredAre(pending[1..], id, d.id);
          assert false;
        }
      }
    }
  }

  /** What a poll takes along was not delivered before, and belongs to this client. */
  lemma TakenAreNew(s: State, id: ClientId, d: Delivery)
    requires Inv(s)
    ensures Deliveries(Undelivered(s.pending, id), id)[d] <= 1
    ensures d in Deliveries(Undelivered(s.pending, id), id) ==> d !in s.deliveries && d.id in s.owner && s.owner[d.id] == d.clientId
  {
    DeliveriesCount(s.pending, id, d);
    UndeliveredAre(s.pending, id, d.id);
    if d in Deliveries(Undelivered(s.pending, id), id) {
      var i :| 0 <= i < |s.pending| && s.pending[i].id == d.id && s.pending[i].clientId == id && !s.pending[i].sent;
      assert s.pending[i] in s.pending;
    }
  }

  lemma MarkedAreDelivered(s: State, id: ClientId, i: nat)
    requires Inv(s) && i < |s.pending|
    ensures var p := MarkSent(s.pending, id)[i];
            p.sent <==> Delivery(p.id, p.clientId) in s.deliveries + Deliveries(Undelivered(s.pending, id), id)
  {
    var p := s.pending[i];
    assert p in s.pending;
    DeliveriesCount(s.pending, id, Delivery(p.id, p.clientId));
    UndeliveredAre(s.pending, id, p.id);
    if p.clientId == id && p.id in Undelivered(s.pending, id) {
      var j :| 0 <= j < |s.pending| && s.pending[j].id == p.id && s.pending[j].clientId == id && !s.pending[j].sent;
      assert i == j;
    }
  }

  lemma PollKeepsDeliveries(s: State, id: ClientId)
    requires Inv(s)
    ensures DeliveriesOk(MarkSent(s.pending, id), s.owner, s.deliveries + Deliveries(Undelivered(s.pending, id), id), s.settled)
  {
    var taken := Deliveries(Undelivered(s.pending, id), id);
    forall d ensures taken[d] <= 1 && (d in taken ==> d !in s.deliveries && d.id in s.owner && s.owner[d.id] == d.clientId) {
      TakenAreNew(s, id, d);
    }
    var marked := MarkSent(s.pending, id);
    forall p | p in marked ensures p.sent <==> Delivery(p.id, p.clientId) in s.deliveries + taken {
      var i :| 0 <= i < |marked| && marked[i] == p;
      MarkedAreDelivered(s, id, i);
    }
  }

  lemma SameIds(a: seq<Pending>, b: seq<Pending>)
    requires |a| == |b| && forall i :: 0 <= i < |a| ==> a[i].id == b[i].id
    ensures PendingIds(a) == PendingIds(b)
  {
  }

  lemma TouchKeepsClients(clients: seq<Client>, roots: set<Path>, id: ClientId, now: int)
    requires ClientsOk(clients, roots)
    ensures ClientsOk(Touch(clients, id, now), roots)
  {
    var touched := Touch(clients, id, now);
    forall c, r | c in touched && r in c.roots ensures r in roots {
      var i :| 0 <= i < |touched| && touched[i] == c;
      assert clients[i] in clients;
    }
  }

  lemma PollKeepsPending(s: State, id: ClientId, now: int)
    requires Inv(s)
    ensures PendingOk(Touch(s.clients, id, now), MarkSent(s.pending, id), s.owner)
  {
    var clients, pending := Touch(s.clients, id, now), MarkSent(s.pending, id);
    forall p | p in pending ensures HasClient(clients, p.clientId) && p.id in s.owner && s.owner[p.id] == p.clientId {
      var i :| 0 <= i < |pending| && pending[i] == p;
      assert s.pending[i] in s.pending;
      var j :| 0 <= j < |s.clients| && s.clients[j].id == p.clientId;
      assert clients[j].id == p.clientId;
    }
  }

  lemma PollKeepsSettled(s: State, id: ClientId)
    requires Inv(s)
    ensures SettledOk(MarkSent(s.pending, id), s.nextId, s.owner, s.settled)
  {
    var pending := MarkSent(s.pending, id);
    SameIds(s.pending, pending);
    forall p | p in pending ensures p.id !in s.settled {
      var i :| 0 <= i < |pending| && pending[i] == p;
      assert s.pending[i] in s.pending;
    }
  }

  lemma PollKeepsInv(s: State, id: ClientId, now: int)
    requires Inv(s)
    ensures Inv(Poll(s, id, now).0)
  {
    if HasClient(s.clients, id) {
      PollKeepsDeliveries(s, id);
      PollKeepsSettled(s, id);
      PollKeepsPending(s, id, now);
      TouchKeepsClients(s.clients, s.roots, id, now);
    }
  }

  // ------------------------------------------------------------------ settlement

  lemma RemoveIds(pending: seq<Pending>, i: nat)
    requires i < |pending|
    requires DistinctRequests(pending)
    ensures var rest := RemoveAt(pending, i);
            && PendingIds(rest) == PendingIds(pending) - {pending[i].id}
            && (forall p :: p in rest ==> p in pending && p.id != pending[i].id)
            && DistinctRequests(rest)
  {
    var rest := RemoveAt(pending, i);
    forall r | r in PendingIds(pending) - {pending[i].id} ensures r in PendingIds(rest) {
      var j :| 0 <= j < |pending| && pending[j].id == r;
      assert rest[if j < i then j else j - 1].id == r;
    }
    forall p | p in rest ensures p in pending && p.id != pending[i].id {
      var j :| 0 <= j < |rest| && rest[j] == p;
      assert pending[if j < i then j else j + 1] == p;
    }
  }

  lemma SettleKeepsInv(s: State, i: nat, how: Settlement)
    requires Inv(s) && i < |s.pending| && (how.Responded? ==> s.pending[i].sent)
    ensures Inv(Settle(s, i, how))
  {
    RemoveIds(s.pending, i);
    assert s.pending[i] in s.pending;
  }

  lemma AddedKeepsPending(s: State, p: Pending)
    requires Inv(s) && |s.pending| < MAX_PENDING && p.id == s.nextId && HasClient(s.clients, p.clientId)
    ensures PendingOk(s.clients, s.pending + [p], s.owner[p.id := p.clientId])
  {
    forall q | q in s.pending ensures q.id != p.id {
      assert q.id in s.owner;
    }
  }

  lemma AddedKeepsSettled(s: State, p: Pending)
    requires Inv(s) && p.id == s.nextId
    ensures SettledOk(s.pending + [p], s.nextId + 1, s.owner[p.id := p.clientId], s.settled)
  {
    AddedIds(s.pending, p);
  }

  lemma AddedKeepsDeliveries(s: State, p: Pending)
    requires Inv(s) && p.id == s.nextId && !p.sent
    ensures DeliveriesOk(s.pending + [p], s.owner[p.id := p.clientId], s.deliveries, s.settled)
  {
    assert s.nextId !in s.owner;
    assert Delivery(p.id, p.clientId) !in s.deliveries;
  }

  lemma AskKeepsInv(s: State, cwd: Option<Path>, wellFormed: bool, aborted: bool, now: int, clock: int)
    requires Inv(s)
    ensures Inv(Ask(s, cwd, wellFormed, aborted, now, clock).0)
  {
    var (g, r) := Ask(s, cwd, wellFormed, aborted, now, clock);
    if r.Success? {
      var client := FirstServing(s.clients, cwd.value, now).value;
      var p := Pending(s.nextId, client.id, false, clock + DEADLINE_MS);
      HasClientBy(s.clients, client);
      AddedKeepsPending(s, p);
      AddedKeepsSettled(s, p);
      AddedKeepsDeliveries(s, p);
    }
  }

  lemma AddedIds(pending: seq<Pending>, p: Pending)
    ensures PendingIds(pending + [p]) == PendingIds(pending) + {p.id}
  {
    var more := pending + [p];
    forall r | r in PendingIds(pending) ensures r in PendingIds(more) {
      var i :| 0 <= i < |pending| && pending[i].id == r;
      assert more[i].id == r;
    }
    assert more[|pending|].id == p.id;
  }

  lemma CloseKeepsInv(s: State)
    requires Inv(s)
    ensures Inv(Close(s))
  {
    forall r | r in PendingIds(s.pending) ensures r in s.owner && r !in s.settled {
      var i :| 0 <= i < |s.pending| && s.pending[i].id == r;
      assert s.pending[i] in s.pending;
    }
    assert PendingIds([]) == {};
  }

  lemma StepKeepsInv(s: State, e: Event)
    requires Inv(s)
    ensures Inv(Step(s, e))
  {
    match e
    case Registers(id, validId, paths, now) => RegisterKeepsInv(s, id, validId, paths, now);
    case Polls(id, now) => PollKeepsInv(s, id, now);
    case Responds(id, request, clock) =>
      var at := Place(s.pending, request);
      if at.Some? && Answerable(s.pending[at.value], id, clock) { SettleKeepsInv(s, at.value, Responded); }
    case Asks(cwd, wellFormed, aborted, now, clock) => AskKeepsInv(s, cwd, wellFormed, aborted, now, clock);
    case Aborts(request) => if Place(s.pending, request).Some? { SettleKeepsInv(s, Place(s.pending, request).value, Aborted); }
    case TimesOut(request) => if Place(s.pending, request).Some? { SettleKeepsInv(s, Place(s.pending, request).value, TimedOut); }
    case Closes => CloseKeepsInv(s);
  }

  lemma EmptyInv()
    ensures Inv(EMPTY)
  {
    assert |EMPTY.roots| == 0;
  }

  /** In every run: capacities, owners, one delivery, one settlement. */
  lemma {:induction false} RunKeepsInv(events: seq<Event>)
    ensures Inv(Run(events))
  {
    if events == [] {
      EmptyInv();
    } else {
      RunKeepsInv(events[..|events| - 1]);
      StepKeepsInv(Run(events[..|events| - 1]), events[|events| - 1]);
    }
  }

  /** A request is delivered by one poll at most, to the one window it was made for. */
  lemma DeliveredOnceToItsWindow(events: seq<Event>, d: Delivery, e: Delivery)
    requires d in Run(events).deliveries && e in Run(events).deliveries && d.id == e.id
    ensures d == e && Run(events).deliveries[d] == 1
    ensures d.id in Run(events).owner && Run(events).owner[d.id] == d.clientId
  {
    RunKeepsInv(events);
  }

  /** What a poll hands out goes to this window for the first time. */
  lemma PollDeliversNewRequests(events: seq<Event>, id: ClientId, now: int, r: RequestId)
    requires var polled := Poll(Run(events), id, now).1; polled.Success? && r in polled.value
    ensures Delivery(r, id) !in Run(events).deliveries
    ensures Delivery(r, id) in Poll(Run(events), id, now).0.deliveries
    ensures r in PendingIds(Run(events).pending)
  {
    var s := Run(events);
    RunKeepsInv(events);
    UndeliveredAre(s.pending, id, r);
    DeliveriesCount(s.pending, id, Delivery(r, id));
    TakenAreNew(s, id, Delivery(r, id));
  }

  /** Every request made is pending or settled, and not both; its window stays registered while it is pending. */
  lemma PendingOrSettled(events: seq<Event>, r: RequestId)
    ensures var s := Run(events);
            && (r in s.owner <==> r < s.nextId)
            && (r in s.owner <==> (r in PendingIds(s.pending) || r in s.settled))
            && !(r in PendingIds(s.pending) && r in s.settled)
            && (r in PendingIds(s.pending) ==> r in s.owner && HasClient(s.clients, s.owner[r]))
  {
    var s := Run(events);
    RunKeepsInv(events);
    if r in PendingIds(s.pending) {
      var i :| 0 <= i < |s.pending| && s.pending[i].id == r;
      assert s.pending[i] in s.pending;
    }
  }

  lemma StepSettlesOnce(s: State, e: Event, r: RequestId)
    requires Inv(s) && r in s.settled
    ensures r in Step(s, e).settled && Step(s, e).settled[r] == s.settled[r]
  {
    forall i | 0 <= i < |s.pending| ensures s.pending[i].id != r {
      assert s.pending[i] in s.pending;
    }
  }

  /** A settled request keeps its outcome for ever. */
  lemma {:induction false} SettledOnce(events: seq<Event>, more: seq<Event>, r: RequestId)
    requires r in Run(events).settled
    ensures r in Run(events + more).settled && Run(events + more).settled[r] == Run(events).settled[r]
    decreases |more|
  {
    if more == [] {
      assert events + more == events;
    } else {
      var n := |more| - 1;
      SettledOnce(events, more[..n], r);
      RunKeepsInv(events + more[..n]);
      assert (events + more)[..|events + more| - 1] == events + more[..n];
      StepSettlesOnce(Run(events + more[..n]), more[n], r);
    }
  }

  /** A response settles its request exactly when it was delivered to this window and the deadline has not passed. */
  lemma ResponseNeedsDelivery(events: seq<Event>, id: ClientId, r: RequestId, clock: int)
    ensures Respond(Run(events), id, r, clock).1.Success? <==> AwaitsAnswer(Run(events), id, r, clock)
  {
    RunKeepsInv(events);
    AnswerNeedsDelivery(Run(events), id, r, clock);
  }

  /** The request was delivered to this window, is not settled, and its deadline has not passed. */
  ghost predicate AwaitsAnswer(s: State, id: ClientId, r: RequestId, clock: int) {
    Delivery(r, id) in s.deliveries && exists p :: p in s.pending && p.id == r && p.clientId == id && clock < p.deadline
  }

  lemma AnswerNeedsDelivery(s: State, id: ClientId, r: RequestId, clock: int)
    requires PendingOk(s.clients, s.pending, s.owner) && DeliveriesOk(s.pending, s.owner, s.deliveries, s.settled)
    ensures Respond(s, id, r, clock).1.Success? <==> AwaitsAnswer(s, id, r, clock)
  {
    var at := Place(s.pending, r);
    if at.Some? {
      assert s.pending[at.value] in s.pending;
    }
    if AwaitsAnswer(s, id, r, clock) {
      var p :| p in s.pending && p.id == r && p.clientId == id && clock < p.deadline;
      var i :| 0 <= i < |s.pending| && s.pending[i] == p;
      assert i == at.value;
    }
  }

  /** Registered roots are never forgotten. */
  lemma {:induction false} RootsOnlyGrow(events: seq<Event>, more: seq<Event>)
    ensures Run(events).roots <= Run(events + more).roots
    decreases |more|
  {
    if more == [] {
      assert events + more == events;
    } else {
      var n := |more| - 1;
      RootsOnlyGrow(events, more[..n]);
      assert (events + more)[..|events + more| - 1] == events + more[..n];
      StepKeepsRoots(Run(events + more[..n]), more[n]);
    }
  }

  lemma StepKeepsRoots(s: State, e: Event)
    ensures s.roots <= Step(s, e).roots
  {
  }
}
