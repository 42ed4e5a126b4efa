/** Replay or conflict over whole runs, whatever happened to the command in between. */
module HostReplays {
  import opened Basics
  import opened Journal
  import opened HostSteps
  import opened HostInvariant
  import opened HostEffects
  import opened HostTheorems
  import opened JournalTheorems
  import J = CanonicalJson

  lemma CreatedRow(h: Host, e: Event)
    requires Enabled(h, e) && (e.Command? || e.Respond?) && Accepts(h, e)
    ensures var k, g := Key(e.sid, e.cid), Step(h, e);
            && k in g.tables.commands && g.tables.commands[k].hash == CommandHash(e.request.Identity())
            && g.tables.commands[k].kind == e.request.kind
  {
    if e.Command? {
      CommandEffect(h, e);
    } else {
      RespondEffect(h, e);
    }
  }

  lemma CreatedRowAt(trace: seq<Host>, events: seq<Event>, i: nat, k: Key)
    requires IsRun(trace, events) && i < |events|
    requires (events[i].Command? || events[i].Respond?) && Key(events[i].sid, events[i].cid) == k && Accepts(trace[i], events[i])
    ensures k in trace[i + 1].tables.commands
    ensures trace[i + 1].tables.commands[k].hash == CommandHash(events[i].request.Identity())
    ensures trace[i + 1].tables.commands[k].kind == events[i].request.kind
  {
    NextStep(trace, events, i);
    CreatedRow(trace[i], events[i]);
  }

  lemma KindTextIsInjective(a: Kind, b: Kind)
    requires KindText(a) == KindText(b)
    ensures a == b
  {
    assert |PROMPT| == |BRANCH| == 6 && |NEW_SESSION| == |UI_RESPONSE| == 11;
    assert PROMPT[0] != BRANCH[0] && NEW_SESSION[0] != UI_RESPONSE[0];
  }

  /**
    Once a call has created a row, claiming its id again at any later point of the run changes nothing.
    It answers with the row as it then is, which has the kind of the request, exactly when the request
    equals the creating one as JSON, and with a conflict otherwise.
  */
  lemma ReclaimsAreDecidedByTheCreatingRequest(trace: seq<Host>, events: seq<Event>, i: nat, j: nat, k: Key, request: Request)
    requires IsRun(trace, events) && i < j < |trace|
    requires (events[i].Command? || events[i].Respond?) && Key(events[i].sid, events[i].cid) == k && Accepts(trace[i], events[i])
    requires J.WellFormed(request.payload) && J.Supported(request.payload) && J.WellFormed(events[i].request.payload)
    ensures k in trace[j].tables.commands
    ensures Claim(trace[j].tables, k, request.kind, request.Identity()) ==
      (trace[j].tables,
       if SameRequest(request.Identity(), events[i].request.Identity())
       then ClaimExisting(trace[j].tables.commands[k]) else ClaimConflict)
    ensures SameRequest(request.Identity(), events[i].request.Identity()) ==> trace[j].tables.commands[k].kind == request.kind
  {
    CreatedRowAt(trace, events, i, k);
    HistoriesAreLegal(trace, events, i + 1, j, k);
    RunKeepsInv(trace, events, j);
    PendingRowIsOk(trace[j], k);
    ClaimDecision(trace[j].tables, k, request.kind, request.Identity(), events[i].request.Identity());
    if SameRequest(request.Identity(), events[i].request.Identity()) {
      KindTextIsInjective(request.kind, events[i].request.kind);
    }
  }
}
