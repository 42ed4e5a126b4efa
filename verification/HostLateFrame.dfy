/**
  A concrete run in which a session leaves `recovery_required` although nobody reconciled it.

  The session is started and live on its first runtime, whose client begins to close.  A second start
  finds a registered runtime that is not ready, gives it up and leaves the session in recovery; then a
  frame that the client still delivers says that an agent started, and the host writes that status over
  the one that asks for a reconciliation.
*/
module HostLateFrame {
  import opened Basics
  import opened Journal
  import opened HostSteps
  import opened HostTheorems
  import opened HostRecovery
  import J = CanonicalJson

  const SID: SessionId := "s"

  const EVENTS: seq<Event> :=
    [CreateSession(SID, [1]), Start(SID), Spawn(SID, [2]), Connected(SID), MarkIdle(SID), Started(SID),
     ClientDown(0, Closing), Start(SID), Received(0, AgentStart)]

  /** The host with one session in this state, nothing registered, and these runtimes. */
  function Apart(status: SessionStatus, incarnation: J.Text, runtimes: map<RuntimeId, Runtime>, next: RuntimeId): Host {
    INITIAL.(tables := Tables(map[SID := Session(status, incarnation)], map[]), runtimes := runtimes, nextRid := next)
  }

  function Rt(phase: Phase, closing: bool, timer: bool): Runtime {
    Runtime(SID, phase, closing, false, None, map[], timer)
  }

  /** The host whose session is live on the runtime 0. */
  function Live(rt: Runtime, starting: bool): Host {
    Apart(Idle, [2], map[0 := rt], 1).(registered := map[SID := 0], starting := if starting then {SID} else {})
  }

  const TRACE: seq<Host> :=
    [INITIAL,
     Apart(Idle, [1], map[], 0),
     Apart(Idle, [1], map[], 0).(starting := {SID}),
     Live(Rt(Connecting, false, false), true),
     Live(Rt(Ready, false, false), true),
     Live(Rt(Ready, false, false), true),
     Live(Rt(Ready, false, true), false),
     Live(Rt(Closing, false, true), false),
     Apart(RecoveryRequired, [2], map[0 := Rt(Closing, true, true)], 1),
     Apart(Running, [2], map[0 := Rt(Closing, true, true)], 1)]

  lemma Step0()
    ensures IsStep(TRACE[0], EVENTS[0], TRACE[1])
  {
  }

  lemma Step1()
    ensures IsStep(TRACE[1], EVENTS[1], TRACE[2])
  {
    assert {} + {SID} == {SID};
  }

  lemma Step2()
    ensures IsStep(TRACE[2], EVENTS[2], TRACE[3])
  {
    assert TRACE[2].tables.sessions[SID := Session(Idle, [2])] == map[SID := Session(Idle, [2])];
    assert TRACE[2].runtimes[0 := Rt(Connecting, false, false)] == map[0 := Rt(Connecting, false, false)];
    assert TRACE[2].registered[SID := 0] == map[SID := 0];
  }

  lemma Step3()
    ensures IsStep(TRACE[3], EVENTS[3], TRACE[4])
  {
  }

  lemma Step4()
    ensures IsStep(TRACE[4], EVENTS[4], TRACE[5])
  {
  }

  lemma Step5()
    ensures IsStep(TRACE[5], EVENTS[5], TRACE[6])
  {
    assert {SID} - {SID} == {};
  }

  lemma Step6()
    ensures IsStep(TRACE[6], EVENTS[6], TRACE[7])
  {
  }

  lemma Step7()
    ensures IsStep(TRACE[7], EVENTS[7], TRACE[8])
  {
  }

  lemma Step8()
    ensures IsStep(TRACE[8], EVENTS[8], TRACE[9])
  {
  }

  lemma StepAt(i: nat)
    requires i < |EVENTS|
    ensures IsStep(TRACE[i], EVENTS[i], TRACE[i + 1])
  {
    match i
    case 0 => Step0();
    case 1 => Step1();
    case 2 => Step2();
    case 3 => Step3();
    case 4 => Step4();
    case 5 => Step5();
    case 6 => Step6();
    case 7 => Step7();
    case 8 => Step8();
  }

  /** The run: recovery is required after the second start, and a late `agent_start` ends it. */
  lemma LateFrameEndsRecovery()
    ensures IsRun(TRACE, EVENTS)
    ensures InRecovery(TRACE[8], SID) && !InRecovery(TRACE[9], SID)
    ensures Reconcile(SID) !in EVENTS && DetachesOpenClient(TRACE[7], EVENTS[7])
  {
    forall i | 0 <= i < |EVENTS| ensures IsStep(TRACE[i], EVENTS[i], TRACE[i + 1]) {
      StepAt(i);
    }
  }
}
