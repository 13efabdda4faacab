/**
 * The client side of a connection to one simulation server. It counts the task
 * requests the server has made for the current session (its credit), numbers the tasks
 * it sends with a process-wide counter, and accepts task requests and results only
 * when they carry the current session's ID.
 *
 * Socket writes are abstract: each send either succeeds (the message is appended to
 * `outbox`) or fails (nothing is written). Events raised for the UI are logged in
 * `events`.
 */
module SimulatorProxy {
  import opened Wrappers
  import opened BenchmarkStatistics
  import opened SimulationSessionModel
  import opened Protocol

  datatype ProxyEvent =
    | TaskRequestReceived
    | ResultsReceived(simulation: SimulationInfo, result: BenchmarkResult)

  /** The static `nextTransmissionID` shared by every proxy of the process. */
  class TransmissionCounter {
    var nextTransmissionID: nat

    ghost predicate Valid()
      reads this
    {
      nextTransmissionID <= UINT_MAX
    }

    constructor ()
      ensures Valid() && nextTransmissionID == 1
    {
      nextTransmissionID := 1;
    }
  }

  /** The part of the proxy's state the receive loop changes. */
  datatype ReceiveState = ReceiveState(taskRequests: int, events: seq<ProxyEvent>)

  /**
   * One pass of the receive loop: the new state, or None when the loop ends. A task
   * request or result for the current session is taken; one for another session is
   * ignored; with no session at all, reading the session ID throws. A result whose task
   * ID was never recorded makes the dictionary lookup throw. Every other tag stops the
   * loop, as does a value that does not deserialize.
   */
  function ClientStep(session: Option<nat>, sent: map<nat, SimulationInfo>,
                      st: ReceiveState, m: Message): (next: Option<ReceiveState>)
    ensures next.Some? && next.value != st ==>
      session.Some? && (m.TaskRequest? || m.Result?)
    ensures next.Some? && m.TaskRequest? ==>
      session.Some? && (m.sessionID == session.value <==> next.value.taskRequests == st.taskRequests + 1)
  {
    match m
    case TaskRequest(id) =>
      if session.None? then None
      else if id == session.value then
        Some(ReceiveState(st.taskRequests + 1, st.events + [TaskRequestReceived]))
      else Some(st)
    case Result(p) =>
      if session.None? then None
      else if p.sessionID != session.value then Some(st)
      else if p.taskID !in sent then None
      else Some(st.(events := st.events + [ResultsReceived(sent[p.taskID], p.result)]))
    case _ => None
  }

  /** The receive loop over what the stream yields, up to its end or the first stop. */
  function ClientLoop(session: Option<nat>, sent: map<nat, SimulationInfo>,
                      st: ReceiveState, incoming: seq<Message>): ReceiveState
    decreases |incoming|
  {
    if |incoming| == 0 then st
    else
      match ClientStep(session, sent, st, incoming[0])
      case None => st
      case Some(next) => ClientLoop(session, sent, next, incoming[1..])
  }

  function TaskRequestEvents(events: seq<ProxyEvent>): nat {
    if |events| == 0 then 0
    else TaskRequestEvents(events[..|events| - 1]) + (if events[|events| - 1].TaskRequestReceived? then 1 else 0)
  }

  lemma TaskRequestEventsAppend(events: seq<ProxyEvent>, e: ProxyEvent)
    ensures TaskRequestEvents(events + [e]) == TaskRequestEvents(events) + (if e.TaskRequestReceived? then 1 else 0)
  {
    assert (events + [e])[..|events|] == events;
  }

  /**
   * The credit gained while receiving equals the number of task-request events raised:
   * every accepted request raises the event and adds one, nothing else does either.
   */
  lemma {:induction false} CreditMatchesEvents(session: Option<nat>, sent: map<nat, SimulationInfo>,
                                               st: ReceiveState, incoming: seq<Message>)
    ensures var end := ClientLoop(session, sent, st, incoming);
      end.taskRequests - st.taskRequests == TaskRequestEvents(end.events) - TaskRequestEvents(st.events)
      && |st.events| <= |end.events| && end.events[..|st.events|] == st.events
    decreases |incoming|
  {
    if |incoming| > 0 {
      var next := ClientStep(session, sent, st, incoming[0]);
      if next.Some? {
        StepCredit(session, sent, st, incoming[0]);
        CreditMatchesEvents(session, sent, next.value, incoming[1..]);
        var end := ClientLoop(session, sent, next.value, incoming[1..]);
        assert end.events[..|st.events|] == end.events[..|next.value.events|][..|st.events|];
      }
    }
  }

  /** One accepted message: the credit and the task-request events grow together. */
  lemma StepCredit(session: Option<nat>, sent: map<nat, SimulationInfo>, st: ReceiveState, m: Message)
    requires ClientStep(session, sent, st, m).Some?
    ensures var next := ClientStep(session, sent, st, m).value;
      next.taskRequests - st.taskRequests == TaskRequestEvents(next.events) - TaskRequestEvents(st.events)
      && |st.events| <= |next.events| && next.events[..|st.events|] == st.events
  {
    var next := ClientStep(session, sent, st, m).value;
    if next != st {
      var e := next.events[|next.events| - 1];
      assert next.events == st.events + [e];
      TaskRequestEventsAppend(st.events, e);
    }
  }

  /** Messages for other sessions leave the state exactly as it was. */
  lemma {:induction false} ForeignMessagesIgnored(id: nat, sent: map<nat, SimulationInfo>,
                                                  st: ReceiveState, incoming: seq<Message>)
    requires forall k :: 0 <= k < |incoming| ==>
      (incoming[k].TaskRequest? && incoming[k].sessionID != id)
      || (incoming[k].Result? && incoming[k].package.sessionID != id)
    ensures ClientLoop(Some(id), sent, st, incoming) == st
  {
    if |incoming| > 0 {
      assert forall k :: 0 <= k < |incoming[1..]| ==> incoming[1..][k] == incoming[k + 1];
      ForeignMessagesIgnored(id, sent, st, incoming[1..]);
    }
  }

  class TCPSimulatorProxy {
    const hostname: string
    const port: int
    var connected: bool
    var taskRequests: int
    var session: SimulationSession?
    var sentSimulations: map<nat, SimulationInfo>
    var outbox: seq<Message>
    var events: seq<ProxyEvent>

    function SessionId(): Option<nat>
      reads this
    {
      if session == null then None else Some(session.sessionID)
    }

    function Receiving(): ReceiveState
      reads this
    {
      ReceiveState(taskRequests, events)
    }

    /** A new proxy is disconnected, has no session and no credit. */
    constructor (hostname: string, port: int)
      ensures this.hostname == hostname && this.port == port
      ensures !connected && taskRequests == 0 && session == null
      ensures sentSimulations == map[] && outbox == [] && events == []
    {
      this.hostname := hostname;
      this.port := port;
      connected := false;
      taskRequests := 0;
      session := null;
      sentSimulations := map[];
      outbox := [];
      events := [];
    }

    /**
     * Connects and introduces the client by its machine name. The flag is set once the
     * socket is open and cleared again if the introduction cannot be written.
     */
    method TryConnect(machineName: string, connectOk: bool, sendOk: bool)
      modifies this`connected, this`outbox
      ensures connected == (connectOk && sendOk)
      ensures outbox == old(outbox) + (if connectOk && sendOk then [ClientName(machineName)] else [])
    {
      if !connectOk {
        connected := false;
        return;
      }
      connected := true;
      if sendOk {
        outbox := outbox + [ClientName(machineName)];
      } else {
        connected := false;
      }
    }

    method Disconnect()
      modifies this`connected
      ensures !connected
    {
      connected := false;
    }

    /**
     * Adopts a session: the credit drops to 0 and the session is installed before the
     * announcement is attempted, so both happen even when the write fails. A null
     * session throws before anything changes.
     */
    method StartNewSession(newSession: SimulationSession?, sendOk: bool) returns (r: Result<(), string>)
      modifies this`taskRequests, this`session, this`outbox
      ensures newSession == null ==>
        r.Failure? && taskRequests == old(taskRequests) && session == old(session) && outbox == old(outbox)
      ensures newSession != null ==>
        r.Success? && taskRequests == 0 && session == newSession
        && outbox == old(outbox) + (if sendOk then [NewSession(newSession.GetObjectData())] else [])
    {
      if newSession == null {
        return Failure("ArgumentNullException");
      }
      taskRequests := 0;
      session := newSession;
      if sendOk {
        outbox := outbox + [NewSession(newSession.GetObjectData())];
      }
      r := Success(());
    }

    /**
     * Sends one job. Without a session nothing happens. Otherwise the credit drops by
     * one and the next task ID is consumed whether or not the write succeeds; only a
     * written task is recorded (a task ID already recorded makes `Add` throw after the
     * write, and the record stays as it was).
     */
    method SendSimulationTask(simulation: SimulationInfo, ids: TransmissionCounter, sendOk: bool)
      requires ids.Valid()
      modifies this`taskRequests, this`sentSimulations, this`outbox, ids
      ensures ids.Valid()
      ensures session == null ==>
        taskRequests == old(taskRequests) && sentSimulations == old(sentSimulations)
        && outbox == old(outbox) && ids.nextTransmissionID == old(ids.nextTransmissionID)
      ensures session != null ==>
        var id := old(ids.nextTransmissionID);
        taskRequests == old(taskRequests) - 1
        && ids.nextTransmissionID == NextId(id)
        && outbox == old(outbox) + (if sendOk then [Task(TaskPackage(id, session.sessionID, simulation))] else [])
        && sentSimulations == (if sendOk && id !in old(sentSimulations)
                               then old(sentSimulations)[id := simulation] else old(sentSimulations))
    {
      if session == null {
        return;
      }
      taskRequests := taskRequests - 1;
      var id := ids.nextTransmissionID;
      ids.nextTransmissionID := NextId(ids.nextTransmissionID);
      if sendOk {
        outbox := outbox + [Task(TaskPackage(id, session.sessionID, simulation))];
        if id !in sentSimulations {
          sentSimulations := sentSimulations[id := simulation];
        }
      }
    }

    /**
     * Asks the server to abort the current session; the credit is cleared only after
     * the request was written. With no session the tag byte goes out and reading the
     * session ID then throws.
     */
    method SendAbortSessionRequest(sendOk: bool)
      modifies this`taskRequests, this`outbox
      ensures sendOk && session != null ==>
        taskRequests == 0 && outbox == old(outbox) + [AbortSession(session.sessionID)]
      ensures sendOk && session == null ==>
        taskRequests == old(taskRequests) && outbox == old(outbox) + [TagOnly(AbortSessionTag)]
      ensures !sendOk ==> taskRequests == old(taskRequests) && outbox == old(outbox)
    {
      if !sendOk {
        return;
      }
      if session == null {
        outbox := outbox + [TagOnly(AbortSessionTag)];
        return;
      }
      outbox := outbox + [AbortSession(session.sessionID)];
      taskRequests := 0;
    }

    /**
     * The receive loop over the messages the stream yields (its end is the end of
     * `incoming`). Whatever ends the loop, the proxy is disconnected afterwards.
     */
    method HandleConnection(incoming: seq<Message>)
      modifies this`taskRequests, this`events, this`connected
      ensures Receiving() == ClientLoop(SessionId(), sentSimulations, old(Receiving()), incoming)
      ensures !connected
    {
      var i := 0;
      var running := true;
      while running && i < |incoming|
        invariant 0 <= i <= |incoming|
        invariant running ==>
          ClientLoop(SessionId(), sentSimulations, old(Receiving()), incoming)
          == ClientLoop(SessionId(), sentSimulations, Receiving(), incoming[i..])
        invariant !running ==>
          ClientLoop(SessionId(), sentSimulations, old(Receiving()), incoming) == Receiving()
        decreases |incoming| - i, running
      {
        var m := incoming[i];
        match m {
          case TaskRequest(id) =>
            if session == null {
              running := false;
            } else if id == session.sessionID {
              events := events + [TaskRequestReceived];
              taskRequests := taskRequests + 1;
            }
          case Result(p) =>
            if session == null {
              running := false;
            } else if p.sessionID == session.sessionID {
              if p.taskID in sentSimulations {
                events := events + [ResultsReceived(sentSimulations[p.taskID], p.result)];
              } else {
                running := false;
              }
            }
          case _ =>
            running := false;
        }
        if running {
          i := i + 1;
        }
      }
      connected := false;
    }
  }
}
