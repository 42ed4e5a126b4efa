/** What each operation of the editor channel decides and changes, told from clients, requests and roots. */
module EditorOutcomes {
  import opened Basics
  import opened NativeDisk
  import opened Editors

  // ------------------------------------------------------------------ registration

  /** A window survives a registration while it was seen in the last five seconds or owes an answer. */
  predicate IsLive(s: State, c: Client, now: int) {
    now - c.lastSeen < 5000 || exists p | p in s.pending :: p.clientId == c.id
  }

  function Values(paths: seq<Option<Path>>): set<Path> {
    set p | p in paths && p.Some? :: p.value
  }

  function LiveClients(s: State, now: int): set<Client> {
    set c | c in s.clients && IsLive(s, c, now)
  }

  lemma LiveIsKept(s: State, c: Client, now: int)
    ensures IsLive(s, c, now) <==> !Expired(c, now) || Busy(s.pending, c.id)
  {
    if p :| p in s.pending && p.clientId == c.id {
      var i :| 0 <= i < |s.pending| && s.pending[i] == p;
      assert s.pending[i].clientId == c.id;
    }
    if Busy(s.pending, c.id) {
      var i :| 0 <= i < |s.pending| && s.pending[i].clientId == c.id;
      assert s.pending[i] in s.pending;
    }
  }

  lemma {:induction false} DistinctCount(clients: seq<Client>)
    requires DistinctWindows(clients)
    ensures |set c | c in clients| == |clients|
  {
    if clients != [] {
      var rest := clients[1..];
      DistinctCount(rest);
      assert (set c | c in clients) == {clients[0]} + (set c | c in rest);
      assert clients[0] !in rest;
    }
  }

  lemma PrunedAreLive(s: State, now: int)
    requires DistinctWindows(s.clients)
    ensures (set c | c in Prune(s.clients, s.pending, now)) == LiveClients(s, now)
    ensures |Prune(s.clients, s.pending, now)| == |LiveClients(s, now)|
  {
    forall c ensures c in Prune(s.clients, s.pending, now) <==> c in LiveClients(s, now) {
      LiveIsKept(s, c, now);
    }
    PruneKeepsClients(s.clients, s.pending, now);
    DistinctCount(Prune(s.clients, s.pending, now));
  }

  lemma HasClientTold(clients: seq<Client>, id: ClientId)
    ensures HasClient(clients, id) <==> exists c :: c in clients && c.id == id
  {
    if c :| c in clients && c.id == id {
      HasClientBy(clients, c);
    }
  }

  /** A registration is accepted with a valid id, at most 100 paths that all resolve, and room for its roots and window. */
  predicate MayRegister(s: State, id: ClientId, validId: bool, paths: seq<Option<Path>>, now: int) {
    && validId && |paths| <= 100 && (forall p | p in paths :: p.Some?)
    && |s.roots + Values(paths)| <= 10_000
    && ((exists c | c in LiveClients(s, now) :: c.id == id) || |LiveClients(s, now)| < 100)
  }

  lemma ValuesAreResolved(paths: seq<Option<Path>>)
    ensures AllResolve(paths) <==> forall p :: p in paths ==> p.Some?
    ensures AllResolve(paths) ==> (set r | r in Resolved(paths)) == Values(paths)
  {
    if AllResolve(paths) {
      forall r | r in Values(paths) ensures r in Resolved(paths) {
        var p :| p in paths && p.Some? && p.value == r;
        var i :| 0 <= i < |paths| && paths[i] == p;
        assert Resolved(paths)[i] == r;
      }
    }
  }

  lemma RegisterDecision(s: State, id: ClientId, validId: bool, paths: seq<Option<Path>>, now: int)
    requires DistinctWindows(s.clients)
    ensures Register(s, id, validId, paths, now).1.Success? <==> MayRegister(s, id, validId, paths, now)
  {
    ValuesAreResolved(paths);
    PrunedAreLive(s, now);
    HasClientTold(Prune(s.clients, s.pending, now), id);
    forall c ensures c in Prune(s.clients, s.pending, now) <==> c in LiveClients(s, now) {
      LiveIsKept(s, c, now);
    }
  }

  /** It adds its roots, replaces its window, drops the windows that are not live, and changes nothing else; a refused one changes nothing. */
  lemma RegisterOutcome(s: State, id: ClientId, validId: bool, paths: seq<Option<Path>>, now: int)
    requires Inv(s)
    ensures Register(s, id, validId, paths, now).1.Success? <==> MayRegister(s, id, validId, paths, now)
    ensures var g := Register(s, id, validId, paths, now).0;
            if !MayRegister(s, id, validId, paths, now) then g == s
            else
              && g == s.(clients := g.clients, roots := s.roots + Values(paths))
              && forall c :: c in g.clients <==>
                   if c.id == id then |c.roots| == |paths| && c.lastSeen == now && (forall i | 0 <= i < |paths| :: paths[i] == Some(c.roots[i]))
                   else c in s.clients && IsLive(s, c, now)
  {
    RegisterDecision(s, id, validId, paths, now);
    if !MayRegister(s, id, validId, paths, now) {
      FailedRegisterChangesNothing(s, id, validId, paths, now);
    } else {
      ValuesAreResolved(paths);
      PruneKeepsClients(s.clients, s.pending, now);
      SetClientKeeps(Prune(s.clients, s.pending, now), Client(id, Resolved(paths), now));
      var g := Register(s, id, validId, paths, now).0;
      forall c ensures c in g.clients <==>
        if c.id == id then |c.roots| == |paths| && c.lastSeen == now && (forall i | 0 <= i < |paths| :: paths[i] == Some(c.roots[i]))
        else c in s.clients && IsLive(s, c, now)
      {
        LiveIsKept(s, c, now);
        if c.id == id && |c.roots| == |paths| && (forall i | 0 <= i < |paths| :: paths[i] == Some(c.roots[i])) {
          assert c.roots == Resolved(paths);
        }
      }
    }
  }

  // ---------------------------------------------------------------------- questions

  /** A live window with a root at or above the directory. */
  predicate ServesAt(c: Client, root: Path, now: int) {
    now - c.lastSeen < 5000 && exists r | r in c.roots :: r <= root
  }

  lemma ServesTold(c: Client, root: Path, now: int)
    ensures Serves(c, root, now) <==> ServesAt(c, root, now)
  {
    if r :| r in c.roots && r <= root {
      var i :| 0 <= i < |c.roots| && c.roots[i] == r;
      assert Within(c.roots[i], root);
    }
    if i :| 0 <= i < |c.roots| && Within(c.roots[i], root) {
      assert c.roots[i] in c.roots;
    }
  }

  lemma ConnectionTold(clients: seq<Client>, root: Path, now: int)
    ensures HasConnection(clients, root, now) <==> exists c :: c in clients && ServesAt(c, root, now)
  {
    forall c ensures Serves(c, root, now) <==> ServesAt(c, root, now) {
      ServesTold(c, root, now);
    }
    if c :| c in clients && ServesAt(c, root, now) {
      var i :| 0 <= i < |clients| && clients[i] == c;
      assert Serves(clients[i], root, now);
    }
  }

  /** A registered root above the directory, at it, or below it. */
  lemma WorkspaceTold(roots: set<Path>, cwd: Option<Path>)
    ensures HasRegisteredWorkspace(roots, cwd) <==> cwd.Some? && exists r :: r in roots && (r <= cwd.value || cwd.value <= r)
  {
    if cwd.Some? {
      if r :| r in roots && (r <= cwd.value || cwd.value <= r) {
        assert Overlaps(r, cwd.value);
      }
    }
  }

  // ------------------------------------------------------------------ the protocol

  /** Positions in order, and what stands there. */
  ghost predicate TakenAt(pending: seq<Pending>, id: ClientId, taken: seq<RequestId>, at: seq<nat>) {
    && |at| == |taken|
    && (forall a, b :: 0 <= a < b < |at| ==> at[a] < at[b])
    && (forall a :: 0 <= a < |at| ==> at[a] < |pending| && pending[at[a]].id == taken[a])
    && (forall i :: 0 <= i < |pending| ==> (i in at <==> pending[i].clientId == id && !pending[i].sent))
  }

  lemma {:induction false} UndeliveredInOrder(pending: seq<Pending>, id: ClientId) returns (at: seq<nat>)
    ensures TakenAt(pending, id, Undelivered(pending, id), at)
  {
    if pending == [] {
      at := [];
    } else {
      var rest := UndeliveredInOrder(pending[1..], id);
      var moved := Shifted(rest);
      MovedOn(pending, id, Undelivered(pending[1..], id), rest);
      if pending[0].clientId == id && !pending[0].sent {
        at := [0] + moved;
        PutFirst(pending, id, Undelivered(pending[1..], id), moved);
      } else {
        at := moved;
      }
    }
  }

  function Shifted(at: seq<nat>): (r: seq<nat>)
    ensures |r| == |at| && forall a :: 0 <= a < |at| ==> r[a] == at[a] + 1
  {
    seq(|at|, a requires 0 <= a < |at| => at[a] + 1)
  }

  lemma PutFirst(pending: seq<Pending>, id: ClientId, taken: seq<RequestId>, moved: seq<nat>)
    requires pending != [] && pending[0].clientId == id && !pending[0].sent && |moved| == |taken|
    requires forall a, b :: 0 <= a < b < |moved| ==> moved[a] < moved[b]
    requires forall a :: 0 <= a < |moved| ==> 0 < moved[a] < |pending| && pending[moved[a]].id == taken[a]
    requires forall i :: 0 < i < |pending| ==> (i in moved <==> pending[i].clientId == id && !pending[i].sent)
    ensures TakenAt(pending, id, [pending[0].id] + taken, [0] + moved)
  {
  }

  lemma MovedOn(pending: seq<Pending>, id: ClientId, taken: seq<RequestId>, at: seq<nat>)
    requires pending != [] && TakenAt(pending[1..], id, taken, at)
    ensures forall a, b :: 0 <= a < b < |at| ==> Shifted(at)[a] < Shifted(at)[b]
    ensures forall a :: 0 <= a < |at| ==> 0 < Shifted(at)[a] < |pending| && pending[Shifted(at)[a]].id == taken[a]
    ensures forall i :: 0 < i < |pending| ==> (i in Shifted(at) <==> pending[i].clientId == id && !pending[i].sent)
  {
    forall i | 0 < i < |pending| ensures i in Shifted(at) <==> pending[i].clientId == id && !pending[i].sent {
      assert pending[i] == pending[1..][i - 1];
      if i - 1 in at {
        var a :| 0 <= a < |at| && at[a] == i - 1;
        assert Shifted(at)[a] == i;
      }
    }
  }

  /** A poll of a registered window hands out its undelivered requests in the order they were made, each once, and marks them. */
  lemma PollOutcome(s: State, id: ClientId, now: int)
    ensures var (g, r) := Poll(s, id, now);
            if !(exists c :: c in s.clients && c.id == id) then g == s && r.Failure?
            else
              && r.Success? && (exists at :: TakenAt(s.pending, id, r.value, at))
              && g == s.(clients := g.clients, pending := g.pending, deliveries := g.deliveries)
              && |g.clients| == |s.clients| && |g.pending| == |s.pending|
              && (forall i :: 0 <= i < |s.clients| ==>
                    g.clients[i] == if s.clients[i].id == id then s.clients[i].(lastSeen := now) else s.clients[i])
              && (forall i :: 0 <= i < |s.pending| ==>
                    g.pending[i] == if s.pending[i].clientId == id then s.pending[i].(sent := true) else s.pending[i])
  {
    HasClientTold(s.clients, id);
    var at := UndeliveredInOrder(s.pending, id);
  }

  /** A request that leaves the table, with its outcome. */
  ghost predicate Leaves(s: State, g: State, r: RequestId, how: Settlement) {
    && g == s.(pending := g.pending, settled := s.settled[r := how])
    && exists i :: 0 <= i < |s.pending| && s.pending[i].id == r && g.pending == s.pending[..i] + s.pending[i + 1..]
  }

  lemma {:induction false} PlaceTold(pending: seq<Pending>, r: RequestId)
    ensures Place(pending, r).None? <==> forall p :: p in pending ==> p.id != r
  {
    if pending != [] {
      PlaceTold(pending[1..], r);
      assert pending == [pending[0]] + pending[1..];
    }
  }

  /** A response is accepted for a delivered request of this window before its deadline, and changes nothing otherwise. */
  lemma RespondOutcome(s: State, id: ClientId, r: RequestId, clock: int)
    requires DistinctRequests(s.pending)
    ensures var (g, answer) := Respond(s, id, r, clock);
            if exists p :: p in s.pending && p.id == r && p.clientId == id && p.sent && clock < p.deadline
            then answer.Success? && Leaves(s, g, r, Responded)
            else answer == Failure(Stale) && g == s
  {
    PlaceTold(s.pending, r);
    var at := Place(s.pending, r);
    if p :| p in s.pending && p.id == r && p.clientId == id && p.sent && clock < p.deadline {
      var i :| 0 <= i < |s.pending| && s.pending[i] == p;
      assert !(i < at.value) && !(at.value < i);
    } else if at.Some? {
      assert s.pending[at.value] in s.pending;
    }
  }

  lemma CancelOutcome(s: State, r: RequestId)
    ensures var a, t := Step(s, Aborts(r)), Step(s, TimesOut(r));
            if exists p :: p in s.pending && p.id == r then Leaves(s, a, r, Aborted) && Leaves(s, t, r, TimedOut)
            else a == s && t == s
  {
    PlaceTold(s.pending, r);
  }

  /** The first window that serves the directory. */
  ghost predicate IsFirstServing(clients: seq<Client>, root: Path, now: int, i: nat) {
    i < |clients| && ServesAt(clients[i], root, now) && forall j :: 0 <= j < i ==> !ServesAt(clients[j], root, now)
  }

  lemma {:induction false} FirstServingTold(clients: seq<Client>, root: Path, now: int, i: nat)
    requires IsFirstServing(clients, root, now, i)
    ensures FirstServing(clients, root, now) == Some(clients[i])
  {
    ServesTold(clients[0], root, now);
    if i > 0 {
      forall j | 0 <= j < i - 1 ensures !ServesAt(clients[1..][j], root, now) {
        assert clients[1..][j] == clients[j + 1];
      }
      FirstServingTold(clients[1..], root, now, i - 1);
    }
  }

  /** A request goes to the first live window that serves the directory, with a deadline of 30 seconds; the refusals come in this order. */
  lemma RequestOutcome(s: State, cwd: Option<Path>, wellFormed: bool, aborted: bool, now: int, clock: int)
    ensures var (g, r) := Ask(s, cwd, wellFormed, aborted, now, clock);
            && (r.Failure? ==> g == s)
            && (if aborted then r == Failure(Cancelled)
                else if |s.pending| >= 100 then r == Failure(TooManyRequests)
                else if cwd.None? then r == Failure(Unresolvable)
                else if !(exists c :: c in s.clients && ServesAt(c, cwd.value, now)) then r == Failure(NoEditor)
                else if !wellFormed then r == Failure(BadRequest)
                else r == Success(s.nextId))
    ensures var (g, r) := Ask(s, cwd, wellFormed, aborted, now, clock);
            r.Success? ==> forall i: nat :: IsFirstServing(s.clients, cwd.value, now, i) ==>
              g == s.(pending := s.pending + [Pending(s.nextId, s.clients[i].id, false, clock + 30_000)],
                      owner := s.owner[s.nextId := s.clients[i].id], nextId := s.nextId + 1)
  {
    if cwd.Some? {
      ConnectionTold(s.clients, cwd.value, now);
      var first := FirstServing(s.clients, cwd.value, now);
      if first.Some? {
        ServesTold(first.value, cwd.value, now);
      }
      forall i: nat | IsFirstServing(s.clients, cwd.value, now, i) ensures first == Some(s.clients[i]) {
        FirstServingTold(s.clients, cwd.value, now, i);
      }
    }
  }

  /** Closing settles what is pending, forgets the windows, and keeps the roots. */
  lemma CloseOutcome(s: State)
    ensures var g := Close(s);
            && g == s.(clients := [], pending := [], settled := g.settled)
            && forall r :: if exists p :: p in s.pending && p.id == r then r in g.settled && g.settled[r] == Closed
                           else (r in g.settled <==> r in s.settled) && (r in s.settled ==> g.settled[r] == s.settled[r])
  {
    forall r ensures r in PendingIds(s.pending) <==> exists p :: p in s.pending && p.id == r {
      if p :| p in s.pending && p.id == r {
        var i :| 0 <= i < |s.pending| && s.pending[i] == p;
        assert s.pending[i].id == r;
      }
    }
  }
}
