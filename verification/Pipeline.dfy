/**
 End to end: the agent's reports are written to the queue, drained, posted, and heard by the control
 plane's mirror. Several rollouts share the queue and number their reports independently.
 */
module Pipeline {
  import opened Wrappers
  import opened EventFiles
  import opened Drain
  import opened HostMachine
  import opened HostRuns
  import opened Mirror

  /** The pending events of `rollout` are exactly its reports, one file each. */
  ghost predicate Holds(pending: set<QueuedEvent>, rollout: string, reports: seq<OutboundAgentEvent>) {
    && (forall e :: e in pending && e.rolloutId == rollout ==> e.payload in reports && e.seqNo == e.payload.seqNo)
    && (forall r :: r in reports ==> exists e :: e in pending && e.rolloutId == rollout && e.payload == r)
  }

  /** What the control plane hears about one rollout when events are posted in this order. */
  function Received(delivery: seq<QueuedEvent>, rollout: string): seq<OutboundAgentEvent> {
    if delivery == [] then []
    else (if delivery[0].rolloutId == rollout then [delivery[0].payload] else []) + Received(delivery[1..], rollout)
  }

  predicate AscendingReports(reports: seq<OutboundAgentEvent>) {
    forall i, j :: 0 <= i < j < |reports| ==> reports[i].seqNo < reports[j].seqNo
  }

  lemma {:induction false} ReceivedElements(delivery: seq<QueuedEvent>, rollout: string)
    ensures forall r :: r in Received(delivery, rollout) <==>
              exists e :: e in delivery && e.rolloutId == rollout && e.payload == r
  {
    if delivery != [] {
      ReceivedElements(delivery[1..], rollout);
      assert delivery == [delivery[0]] + delivery[1..];
    }
  }

  lemma {:induction false} ReceivedAscends(delivery: seq<QueuedEvent>, rollout: string)
    requires InOrder(delivery)
    requires forall e :: e in delivery && e.rolloutId == rollout ==> e.seqNo == e.payload.seqNo
    ensures AscendingReports(Received(delivery, rollout))
  {
    if delivery != [] {
      ReceivedAscends(delivery[1..], rollout);
      if delivery[0].rolloutId == rollout {
        var first, rest := delivery[0], Received(delivery[1..], rollout);
        ReceivedElements(delivery[1..], rollout);
        forall k | 0 <= k < |rest| ensures first.payload.seqNo < rest[k].seqNo {
          assert rest[k] in rest;
          var e :| e in delivery[1..] && e.rolloutId == rollout && e.payload == rest[k];
          var j :| 0 <= j < |delivery[1..]| && delivery[1..][j] == e;
          assert delivery[j + 1] == e;
        }
      }
    }
  }

  lemma FirstIsLeast(a: seq<OutboundAgentEvent>, b: seq<OutboundAgentEvent>)
    requires AscendingReports(a) && AscendingReports(b) && a != [] && b != []
    requires forall r :: r in a <==> r in b
    ensures a[0] == b[0]
  {
    assert a[0] in b && b[0] in a;
    var i :| 0 <= i < |b| && b[i] == a[0];
    var j :| 0 <= j < |a| && a[j] == b[0];
  }

  lemma AscendingRest(a: seq<OutboundAgentEvent>)
    requires AscendingReports(a) && a != []
    ensures AscendingReports(a[1..]) && forall r :: r in a[1..] <==> r in a && r != a[0]
  {
    assert forall k :: 0 < k < |a| ==> a[k] == a[1..][k - 1] && a[k].seqNo > a[0].seqNo;
  }

  /** Two ascending lists with the same elements are the same list. */
  lemma {:induction false} AscendingIsCanonical(a: seq<OutboundAgentEvent>, b: seq<OutboundAgentEvent>)
    requires AscendingReports(a) && AscendingReports(b)
    requires forall r :: r in a <==> r in b
    ensures a == b
  {
    assert b != [] ==> b[0] in b && b[0] in a;
    if a != [] {
      assert a[0] in b;
      FirstIsLeast(a, b);
      AscendingRest(a);
      AscendingRest(b);
      AscendingIsCanonical(a[1..], b[1..]);
      assert a == [a[0]] + a[1..] && b == [b[0]] + b[1..];
    }
  }

  /** An unshared queue is heard rollout by rollout exactly as it was reported. */
  lemma UnsharedIsHeardInOrder(pending: set<QueuedEvent>, rounds: seq<seq<QueuedEvent>>, rollout: string,
                               reports: seq<OutboundAgentEvent>)
    requires IsDrain(pending, rounds) && Unshared(pending)
    requires Holds(pending, rollout, reports) && AscendingReports(reports)
    ensures Received(Flatten(rounds), rollout) == reports
  {
    var delivery := Flatten(rounds);
    UnsharedDrainsInOrder(pending, rounds);
    DrainDeliversOnce(pending, rounds);
    assert forall e :: e in delivery <==> e in multiset(delivery);
    assert forall e :: e in multiset(pending) <==> e in pending;
    ReceivedElements(delivery, rollout);
    ReceivedAscends(delivery, rollout);
    AscendingIsCanonical(Received(delivery, rollout), reports);
  }

  /**
   The whole pipeline: run the agent's machine over any events, queue its reports beside those of any
   other rollouts, drain in as many rounds as it takes. If the queue is unshared, every report is accepted,
   and the mirror ends in the agent's state exactly when the policies agreed at each failed activation.
   */
  lemma EndToEnd(agent: HostRolloutState, cp: HostRolloutState, inputs: seq<Input>, heard: seq<Heard>,
                 pending: set<QueuedEvent>, rounds: seq<seq<QueuedEvent>>)
    requires MirrorOf(agent, cp) && AllLocal(inputs)
    requires Holds(pending, agent.rolloutId, RunReports(agent, inputs))
    requires IsDrain(pending, rounds) && Unshared(pending)
    requires Payloads(heard) == Received(Flatten(rounds), agent.rolloutId)
    ensures AllHeard(cp, heard)
    ensures MirrorOf(RunState(agent, inputs), Hear(cp, heard)) <==> PoliciesAgree(agent, inputs, heard)
  {
    ReportsAscend(agent, inputs);
    UnsharedIsHeardInOrder(pending, rounds, agent.rolloutId, RunReports(agent, inputs));
    RunIsHeard(agent, cp, inputs, heard);
    RunLockstepIff(agent, cp, inputs, heard);
  }

  // ----- Without the condition a report can be lost for good

  const RA := "a@1"
  const RB := "a@2"

  const AGENT := NewPending(RA, "self", "a", "new", 0, 0)
  const EVENTS := [LocalActivate("old", "new", 1, 0, 1), LocalActivationCompleted("new", 0, 2, 2)]
  const ACK := DispatchAck("old", 1, 1)
  const DONE := ActivationCompleted("new", 0, 2, 2)

  function Queued(rollout: string, report: OutboundAgentEvent): QueuedEvent {
    QueuedEvent(report.seqNo, "h", rollout, OutboundEventKind(report), 0, report)
  }

  const A1 := Queued(RA, ACK)
  const A2 := Queued(RA, DONE)
  const B1 := Queued(RB, ACK)

  /** The two events of rollout a, each under whatever policy the agent holds then. */
  predicate IsRunOfA(inputs: seq<Input>) {
    |inputs| == 2 && inputs[0].event == EVENTS[0] && inputs[1].event == EVENTS[1]
  }

  lemma RunOfA(inputs: seq<Input>)
    requires IsRunOfA(inputs)
    ensures RunReports(AGENT, inputs) == [ACK, DONE]
    ensures RunState(AGENT, inputs).state.Soaking?
  {
    var next := Advance(AGENT, inputs[0]);
    FirstReport(AGENT, inputs);
    FirstReport(next, inputs[1..]);
    var last := Advance(next, inputs[1]);
    assert RunState(AGENT, inputs) == RunState(next, inputs[1..]) == last;
  }

  lemma DrainOfBoth()
    ensures IsDrain({A1, A2, B1}, [[B1, A2], [A1]])
    ensures Flatten([[B1, A2], [A1]]) == [B1, A2, A1]
  {
    assert RA[2] != RB[2];
    assert [B1, A2][0] == B1 && [B1, A2][1] == A2 && [A1][0] == A1;
    assert Represented([B1, A2], 1) && Represented([B1, A2], 2) && Represented([A1], 1);
    assert Elements([B1, A2]) == {B1, A2} && Elements([A1]) == {A1};
    assert {A1, A2, B1} - {B1, A2} == {A1};
    assert [[B1, A2], [A1]][1..] == [[A1]];
    assert IsDrain({A1}, [[A1]]) by { assert {A1} - Elements([A1]) == {}; }
    assert Flatten([[A1]]) == [A1];
  }

  lemma ReceivedFirst(e: QueuedEvent, rest: seq<QueuedEvent>, rollout: string)
    ensures Received([e] + rest, rollout) ==
              (if e.rolloutId == rollout then [e.payload] else []) + Received(rest, rollout)
  {
    assert ([e] + rest)[1..] == rest;
  }

  lemma ReceivedOfA()
    ensures Received([B1, A2, A1], RA) == [DONE, ACK]
  {
    assert RA[2] != RB[2];
    ReceivedFirst(B1, [A2, A1], RA);
    ReceivedFirst(A2, [A1], RA);
    ReceivedFirst(A1, [], RA);
    assert [B1] + [A2, A1] == [B1, A2, A1] && [A2] + [A1] == [A2, A1] && [A1] + [] == [A1];
  }

  lemma HeardOfA(heard: seq<Heard>)
    requires Payloads(heard) == [DONE, ACK]
    ensures Hear(AGENT, heard).state.Activating?
  {
    assert |heard| == 2 && Payloads(heard)[0] == DONE && Payloads(heard)[1] == ACK;
    var next := Advance(AGENT, AsInput(heard[0]));
    assert Hear(AGENT, heard) == Hear(next, heard[1..]) == Advance(next, AsInput(heard[1]));
  }

  lemma HoldsBoth()
    ensures Holds({A1, A2, B1}, RA, [ACK, DONE]) && Holds({A1, A2, B1}, RB, [ACK])
  {
    assert RA[2] != RB[2];
    var reports := [ACK, DONE];
    assert reports[0] == ACK && reports[1] == DONE && [ACK][0] == ACK;
  }

  /**
   Two rollouts of one channel, each with a report numbered 1. A scan may keep the newer rollout's, so the
   completion (numbered 2) is posted before the acknowledgement it depends on. The mirror rejects the completion,
   and it stays in Activating while the agent is Soaking, whatever policies either side holds.
   */
  lemma CollapseLosesReport(inputs: seq<Input>)
    returns (pending: set<QueuedEvent>, rounds: seq<seq<QueuedEvent>>)
    requires IsRunOfA(inputs)
    ensures RunReports(AGENT, inputs) == [ACK, DONE]
    ensures Holds(pending, RA, [ACK, DONE]) && Holds(pending, RB, [ACK])
    ensures IsDrain(pending, rounds)
    ensures RunState(AGENT, inputs).state.Soaking?
    ensures forall heard :: Payloads(heard) == Received(Flatten(rounds), RA) ==> Hear(AGENT, heard).state.Activating?
  {
    pending, rounds := {A1, A2, B1}, [[B1, A2], [A1]];
    HoldsBoth();
    RunOfA(inputs);
    DrainOfBoth();
    ReceivedOfA();
    forall heard | Payloads(heard) == Received(Flatten(rounds), RA) ensures Hear(AGENT, heard).state.Activating? {
      HeardOfA(heard);
    }
  }
}
