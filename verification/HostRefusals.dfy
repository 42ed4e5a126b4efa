/**
  Concrete runs in which the store refuses status changes that the host requests.

  They share the start of one session.  In the first a stop marks an answer unknown while the question
  broker still sends it, and the store then takes neither that it was sent nor that it was not; in the
  second OMP fails a prompt with an error text that is empty or over the limit; in the third a rejected
  request has a text over the limit.  Device and payload are arbitrary.
*/
module HostRefusals {
  import opened Basics
  import opened Journal
  import opened HostSteps
  import opened HostTheorems
  import opened HostLateFrame
  import J = CanonicalJson

  const KEY := Key(SID, "c")

  /** A started session, without anything sent: the beginning of the other concrete run, and the end of its start. */
  const STARTING: seq<Event> := EVENTS[..4] + [Started(SID)]
  const STARTED: seq<Host> := TRACE[..5] + [LIVE]
  const LIVE: Host := Live(Rt(Ready, false, true), false)

  lemma Starts()
    ensures IsStep(TRACE[4], Started(SID), LIVE)
  {
    assert {SID} - {SID} == {};
  }

  lemma StartedStep(i: nat)
    requires i < 5
    ensures IsStep(STARTED[i], STARTING[i], STARTED[i + 1])
  {
    if i < 4 {
      StepAt(i);
    } else {
      Starts();
    }
  }

  /** A request of the running session, from any device and with any payload. */
  predicate Sendable(r: Request) { r.incarnation == [2] && J.Supported(r.payload) }

  function RowOf(r: Request, history: seq<Status>): Row
    requires |history| > 0 && Sendable(r)
  {
    Row(r.kind, CommandHash(r.Identity()), history[|history| - 1], history)
  }

  function OneRow(status: SessionStatus, row: Row): Tables {
    Tables(map[SID := Session(status, [2])], map[KEY := row])
  }

  lemma StartedThen(events: seq<Event>, trace: seq<Host>)
    requires |trace| == |events| + 1 && trace[0] == LIVE
    requires forall i :: 0 <= i < |events| ==> IsStep(trace[i], events[i], trace[i + 1])
    ensures IsRun(STARTED + trace[1..], STARTING + events)
  {
    var t, es := STARTED + trace[1..], STARTING + events;
    forall i | 0 <= i < |es| ensures IsStep(t[i], es[i], t[i + 1]) {
      if i < 5 {
        StartedStep(i);
      } else {
        assert IsStep(trace[i - 5], events[i - 5], trace[i - 4]);
      }
    }
  }

  // --------------------------------------------------- a stop overtakes an answer

  function Answering(r: Request): seq<Event> {
    [Respond(SID, "c", r), Stop(SID), StopFinished(SID, true), Answered(KEY, AnswerSent, 1)]
  }

  function Asked(row: Row): Host {
    LIVE.(tables := OneRow(Idle, row), responses := {KEY}, sends := multiset{KEY}, handed := map[KEY := 0])
  }

  function Stopping(row: Row): Host {
    Asked(row).(runtimes := map[0 := Rt(Closing, true, true)], stopping := map[SID := WaitingForClose])
  }

  function Stopped(row: Row): Host {
    Asked(row).(tables := OneRow(SessionStatus.Stopped, row), registered := map[], runtimes := map[0 := Rt(Closed, true, true)])
  }

  /** The store neither takes that the answer was sent nor that it was not. */
  const BOTH: seq<Refused> :=
    [Refused(KEY, Some(OutcomeUnknown), Completed, None), Refused(KEY, Some(OutcomeUnknown), NotDispatched, OWN_TEXT)]

  function AnsweredRun(r: Request): seq<Host>
    requires Sendable(r)
  {
    var row, unknown := RowOf(r, [Claimed]), RowOf(r, [Claimed, OutcomeUnknown]);
    [LIVE, Asked(row), Stopping(row), Stopped(unknown), Stopped(unknown).(responses := {}, refusals := BOTH)]
  }

  lemma Asks(r: Request)
    requires Sendable(r) && r.kind.UiResponse?
    ensures IsStep(LIVE, Respond(SID, "c", r), Asked(RowOf(r, [Claimed])))
  {
    var row := RowOf(r, [Claimed]);
    assert Claim(LIVE.tables, KEY, UiResponse, r.Identity()) == (OneRow(Idle, row), ClaimCreated) by {
      assert map[][KEY := row] == map[KEY := row];
    }
  }

  lemma Stops(row: Row)
    ensures IsStep(Asked(row), Stop(SID), Stopping(row))
  {
  }

  lemma StopEnds(r: Request)
    requires Sendable(r)
    ensures IsStep(Stopping(RowOf(r, [Claimed])), StopFinished(SID, true), Stopped(RowOf(r, [Claimed, OutcomeUnknown])))
  {
    var row, unknown := RowOf(r, [Claimed]), RowOf(r, [Claimed, OutcomeUnknown]);
    assert MarkUnknown(row) == unknown;
    assert UnknownIn(OneRow(Idle, row), SID).commands == map[KEY := unknown];
  }

  lemma Answers(row: Row)
    requires row.status.OutcomeUnknown?
    ensures IsStep(Stopped(row), Answered(KEY, AnswerSent, 1), Stopped(row).(responses := {}, refusals := BOTH))
  {
  }

  /** The answer was sent, but the store refuses to say so, and refuses to say the contrary. */
  lemma StopOvertakesAnAnswer(r: Request)
    requires Sendable(r) && r.kind.UiResponse?
    ensures var trace, events := STARTED + AnsweredRun(r)[1..], STARTING + Answering(r);
            && |events| == 9 && IsRun(trace, events) && Enabled(trace[8], events[8]) && Refuses(trace[8], events[8])
            && trace[8].refusals == [] && trace[9].refusals == BOTH
  {
    var row, unknown := RowOf(r, [Claimed]), RowOf(r, [Claimed, OutcomeUnknown]);
    Asks(r);
    Stops(row);
    StopEnds(r);
    Answers(unknown);
    var trace, events := AnsweredRun(r), Answering(r);
    forall i | 0 <= i < |events| ensures IsStep(trace[i], events[i], trace[i + 1]) {
      assert i == 0 || i == 1 || i == 2 || i == 3;
    }
    StartedThen(events, trace);
  }

  // ------------------------------------------------- failures that cannot be stored

  function Prompted(row: Row): Host {
    LIVE.(tables := OneRow(Idle, row),
          runtimes := map[0 := Rt(Ready, false, true).(active := Some("c"), wires := map[7 := "c"])],
          dispatches := map[Dispatch(0, "c") := ForAck], sends := multiset{KEY}, handed := map[KEY := 0])
  }

  function Refusal(bytes: nat): seq<Refused> { [Refused(KEY, Some(Claimed), Status.Failed, Some(bytes))] }

  lemma Prompts(r: Request)
    requires Sendable(r) && r.kind.Prompt?
    ensures IsStep(LIVE, Command(SID, "c", r, true, Some(7)), Prompted(RowOf(r, [Claimed])))
  {
    var row := RowOf(r, [Claimed]);
    assert Claim(LIVE.tables, KEY, Prompt, r.Identity()) == (OneRow(Idle, row), ClaimCreated) by {
      assert map[][KEY := row] == map[KEY := row];
    }
    assert map[][7 := "c"] == map[7 := "c"] && map[][Dispatch(0, "c") := ForAck] == map[Dispatch(0, "c") := ForAck];
  }

  function Failing(r: Request, e: Event): seq<Event> { [Command(SID, "c", r, true, Some(7)), e] }

  lemma PromptedThen(r: Request, e: Event, g: Host)
    requires Sendable(r) && r.kind.Prompt?
    requires IsStep(Prompted(RowOf(r, [Claimed])), e, g)
    ensures IsRun(STARTED + [Prompted(RowOf(r, [Claimed])), g], STARTING + Failing(r, e))
  {
    Prompts(r);
    var trace := [LIVE, Prompted(RowOf(r, [Claimed])), g];
    forall i | 0 <= i < 2 ensures IsStep(trace[i], Failing(r, e)[i], trace[i + 1]) {
      assert i == 0 || i == 1;
    }
    StartedThen(Failing(r, e), trace);
    assert trace[1..] == [Prompted(RowOf(r, [Claimed])), g];
  }

  /** The runtime after a frame whose failure could not be stored. */
  function Faulted(row: Row, bytes: nat): Host {
    var h := Prompted(row);
    h.(runtimes := map[0 := h.runtimes[0].(faulted := true, phase := Closing)], refusals := Refusal(bytes))
  }

  lemma Faults(row: Row, bytes: nat)
    requires row.status.Claimed? && !ErrorFits(Some(bytes))
    ensures var e := Received(0, ResponseFailed(Some(7), bytes));
            IsStep(Prompted(row), e, Faulted(row, bytes)) && Refuses(Prompted(row), e)
  {
  }

  /** A response that fails with an empty or too long text: the command stays claimed and the runtime is faulted. */
  lemma UnfitErrorIsRefused(r: Request, bytes: nat)
    requires Sendable(r) && r.kind.Prompt? && (bytes == 0 || bytes > ERROR_MAX_BYTES)
    ensures var row, e := RowOf(r, [Claimed]), Received(0, ResponseFailed(Some(7), bytes));
            && IsRun(STARTED + [Prompted(row), Faulted(row, bytes)], STARTING + Failing(r, e))
            && Enabled(Prompted(row), e) && Refuses(Prompted(row), e) && |Faulted(row, bytes).refusals| == 1
  {
    var row, e := RowOf(r, [Claimed]), Received(0, ResponseFailed(Some(7), bytes));
    Faults(row, bytes);
    PromptedThen(r, e, Faulted(row, bytes));
  }

  lemma Escapes(row: Row, bytes: nat)
    requires row.status.Claimed? && bytes > ERROR_MAX_BYTES
    ensures var e := Fail(0, "c", CommandRejected, bytes);
            IsStep(Prompted(row), e, Prompted(row).(dispatches := map[], refusals := Refusal(bytes))) && Refuses(Prompted(row), e)
  {
  }

  /** A rejection with a text over the limit: the command stays claimed and active. */
  lemma LongErrorIsRefused(r: Request, bytes: nat)
    requires Sendable(r) && r.kind.Prompt? && bytes > ERROR_MAX_BYTES
    ensures var row, e := RowOf(r, [Claimed]), Fail(0, "c", CommandRejected, bytes);
            && IsRun(STARTED + [Prompted(row), Prompted(row).(dispatches := map[], refusals := Refusal(bytes))], STARTING + Failing(r, e))
            && Enabled(Prompted(row), e) && Refuses(Prompted(row), e)
  {
    var row, e := RowOf(r, [Claimed]), Fail(0, "c", CommandRejected, bytes);
    Escapes(row, bytes);
    PromptedThen(r, e, Prompted(row).(dispatches := map[], refusals := Refusal(bytes)));
  }
}
