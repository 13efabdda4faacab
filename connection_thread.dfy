/**
 * The server side of one client connection. After the client has introduced itself,
 * the connection thread reads tagged messages: a new session replaces the current one,
 * asks every worker for a fresh task and purges buffered tasks of older sessions; a task
 * is buffered only when it belongs to the current session; an abort is honoured only
 * for the current session. Unknown tags are skipped.
 *
 * Socket writes are abstract (`writable` tells whether they succeed; written messages
 * are appended to `outbox`); the requests to workers to abort their task are counted
 * in `workerAborts`.
 */
module ServerConnection {
  import opened Wrappers
  import opened BenchmarkStatistics
  import opened SimulationSessionModel
  import opened Protocol

  /** The buffered tasks of session `id`, in their order. */
  function KeepSession(buffer: seq<TaskPackage>, id: nat): (kept: seq<TaskPackage>)
    ensures |kept| <= |buffer|
    ensures forall t :: t in kept <==> t in buffer && t.sessionID == id
  {
    if |buffer| == 0 then []
    else
      var last := buffer[|buffer| - 1];
      KeepSession(buffer[..|buffer| - 1], id) + (if last.sessionID == id then [last] else [])
  }

  /** One dequeue and conditional re-enqueue of the purge loop. */
  lemma PurgeStep(buffer: seq<TaskPackage>, i: nat, id: nat, current: seq<TaskPackage>)
    requires i < |buffer| && current == buffer[i..] + KeepSession(buffer[..i], id)
    ensures current[0] == buffer[i]
    ensures current[1..] + (if buffer[i].sessionID == id then [buffer[i]] else [])
         == buffer[i + 1..] + KeepSession(buffer[..i + 1], id)
  {
    assert buffer[..i + 1][..i] == buffer[..i];
    assert current[1..] == buffer[i + 1..] + KeepSession(buffer[..i], id);
  }

  /** Purging keeps relative order: the kept tasks are the buffer minus the dropped ones. */
  lemma {:induction false} KeepSessionAllMatching(buffer: seq<TaskPackage>, id: nat)
    requires forall k :: 0 <= k < |buffer| ==> buffer[k].sessionID == id
    ensures KeepSession(buffer, id) == buffer
  {
    if |buffer| > 0 {
      KeepSessionAllMatching(buffer[..|buffer| - 1], id);
    }
  }

  lemma {:induction false} KeepSessionIdempotent(buffer: seq<TaskPackage>, id: nat)
    ensures KeepSession(KeepSession(buffer, id), id) == KeepSession(buffer, id)
  {
    var kept := KeepSession(buffer, id);
    forall k | 0 <= k < |kept|
      ensures kept[k].sessionID == id
    {
      assert kept[k] in kept;
    }
    KeepSessionAllMatching(kept, id);
  }

  /** `n` copies of a message. */
  function Repeat(m: Message, n: nat): (r: seq<Message>)
    ensures |r| == n && forall k :: 0 <= k < n ==> r[k] == m
  {
    if n == 0 then [] else Repeat(m, n - 1) + [m]
  }

  /** The part of the connection's state the receive loop changes. */
  datatype ServerState = ServerState(
    session: Option<SerializedSession>,
    taskBuffer: seq<TaskPackage>,
    outbox: seq<Message>,
    workerAborts: nat)

  predicate IsCurrent(session: Option<SerializedSession>, id: nat) {
    session.Some? && session.value.sessionID == id
  }

  /**
   * One pass of the receive loop: the new state, or None when an exception ends it (a
   * value of a handled tag that does not deserialize). Tags the loop does not handle
   * are skipped.
   */
  function ServerStep(workers: nat, writable: bool, st: ServerState, m: Message): (next: Option<ServerState>)
    ensures next.Some? && (m.Task? || m.AbortSession?) ==> next.value.session == st.session
    ensures next.Some? && m.Task? ==>
      next.value.taskBuffer == st.taskBuffer + (if IsCurrent(st.session, m.task.sessionID) then [m.task] else [])
    ensures next.Some? && m.AbortSession? ==>
      next.value.workerAborts == st.workerAborts + (if IsCurrent(st.session, m.sessionID) then workers else 0)
    // A new session replaces the old one, purges the old session's tasks, asks every
    // worker for a task when the stream is writable and aborts every worker's work.
    ensures m.NewSession? ==>
      next.Some? && IsCurrent(next.value.session, m.session.sessionID) &&
      next.value.session == Some(m.session) &&
      (forall t :: t in next.value.taskBuffer <==> t in st.taskBuffer && t.sessionID == m.session.sessionID) &&
      |next.value.outbox| == |st.outbox| + (if writable then workers else 0) &&
      next.value.outbox[..|st.outbox|] == st.outbox &&
      (forall k :: |st.outbox| <= k < |next.value.outbox| ==> next.value.outbox[k] == TaskRequest(m.session.sessionID)) &&
      next.value.workerAborts == st.workerAborts + workers
    ensures next.None? <==>
      (m.Malformed? || m.TagOnly?) && m.tag in {NewSessionTag, TaskTag, AbortSessionTag}
  {
    match m
    case NewSession(s) =>
      var requests := if writable then Repeat(TaskRequest(s.sessionID), workers) else [];
      Some(ServerState(Some(s), KeepSession(st.taskBuffer, s.sessionID), st.outbox + requests,
                       st.workerAborts + workers))
    case Task(t) =>
      if IsCurrent(st.session, t.sessionID) then Some(st.(taskBuffer := st.taskBuffer + [t]))
      else Some(st)
    case AbortSession(id) =>
      if IsCurrent(st.session, id) then Some(st.(workerAborts := st.workerAborts + workers))
      else Some(st)
    case Malformed(tag) =>
      if tag == NewSessionTag || tag == TaskTag || tag == AbortSessionTag then None else Some(st)
    case TagOnly(tag) =>
      if tag == NewSessionTag || tag == TaskTag || tag == AbortSessionTag then None else Some(st)
    case _ => Some(st)
  }

  /** The receive loop over what the stream yields, up to its end or the first exception. */
  function ServerLoop(workers: nat, writable: bool, st: ServerState, incoming: seq<Message>): ServerState
    decreases |incoming|
  {
    if |incoming| == 0 then st
    else
      match ServerStep(workers, writable, st, incoming[0])
      case None => st
      case Some(next) => ServerLoop(workers, writable, next, incoming[1..])
  }

  /** The messages the loop gets to see when a close request lands before message `k`. */
  function UntilClose(incoming: seq<Message>, closeAt: Option<nat>): (seen: seq<Message>)
    ensures seen <= incoming
    ensures closeAt.Some? && closeAt.value <= |incoming| ==> |seen| == closeAt.value
  {
    if closeAt.Some? && closeAt.value < |incoming| then incoming[..closeAt.value] else incoming
  }

  /** The buffer only ever holds tasks of the session current when they arrived or later. */
  lemma {:induction false} BufferBelongsToSession(workers: nat, writable: bool, st: ServerState,
                                                  incoming: seq<Message>)
    requires st.session.Some?
    requires forall k :: 0 <= k < |st.taskBuffer| ==> st.taskBuffer[k].sessionID == st.session.value.sessionID
    ensures var end := ServerLoop(workers, writable, st, incoming);
      end.session.Some?
      && forall k :: 0 <= k < |end.taskBuffer| ==> end.taskBuffer[k].sessionID == end.session.value.sessionID
    decreases |incoming|
  {
    if |incoming| > 0 {
      var next := ServerStep(workers, writable, st, incoming[0]);
      if next.Some? {
        var n := next.value;
        forall k | 0 <= k < |n.taskBuffer|
          ensures n.taskBuffer[k].sessionID == n.session.value.sessionID
        {
          if incoming[0].NewSession? {
            assert n.taskBuffer[k] in KeepSession(st.taskBuffer, incoming[0].session.sessionID);
          }
        }
        BufferBelongsToSession(workers, writable, n, incoming[1..]);
      }
    }
  }

  class ConnectionThread {
    const port: int
    const numberOfWorkerThreads: nat
    var simulationSession: Option<SerializedSession>
    var requestClose: bool
    var clientName: Option<string>
    var taskBuffer: seq<TaskPackage>
    var outbox: seq<Message>
    var workerAborts: nat

    function State(): ServerState
      reads this
    {
      ServerState(simulationSession, taskBuffer, outbox, workerAborts)
    }

    /** `processorCount` workers, no session, an empty buffer. */
    constructor (port: int, processorCount: nat)
      ensures this.port == port && numberOfWorkerThreads == processorCount
      ensures simulationSession == None && !requestClose && clientName == None
      ensures taskBuffer == [] && outbox == [] && workerAborts == 0
    {
      this.port := port;
      numberOfWorkerThreads := processorCount;
      simulationSession := None;
      requestClose := false;
      clientName := None;
      taskBuffer := [];
      outbox := [];
      workerAborts := 0;
    }

    method RequestClosing()
      modifies this`requestClose
      ensures requestClose
    {
      requestClose := true;
    }

    /** Without a session nothing is sent; otherwise a request for the current session. */
    method SendTaskRequest(sendOk: bool)
      modifies this`outbox
      ensures simulationSession.None? || !sendOk ==> outbox == old(outbox)
      ensures simulationSession.Some? && sendOk ==>
        outbox == old(outbox) + [TaskRequest(simulationSession.value.sessionID)]
    {
      if simulationSession.None? {
        return;
      }
      if sendOk {
        outbox := outbox + [TaskRequest(simulationSession.value.sessionID)];
      }
    }

    /**
     * Without a session nothing is sent. The result is stamped with the session that is
     * current when it is sent, whichever session the task came from.
     */
    method SendResult(taskId: nat, result: BenchmarkResult, sendOk: bool)
      modifies this`outbox
      ensures simulationSession.None? || !sendOk ==> outbox == old(outbox)
      ensures simulationSession.Some? && sendOk ==>
        outbox == old(outbox) + [Result(ResultPackage(taskId, simulationSession.value.sessionID, result))]
    {
      if simulationSession.None? {
        return;
      }
      if sendOk {
        outbox := outbox + [Result(ResultPackage(taskId, simulationSession.value.sessionID, result))];
      }
    }

    /** Dequeues every buffered task once and enqueues it again if it belongs to `id`. */
    method PurgeTaskBuffer(id: nat)
      modifies this`taskBuffer
      ensures taskBuffer == KeepSession(old(taskBuffer), id)
    {
      var taskBufferCount := |taskBuffer|;
      var i := 0;
      ghost var buffer := taskBuffer;
      while i < taskBufferCount
        invariant 0 <= i <= taskBufferCount == |buffer|
        invariant taskBuffer == buffer[i..] + KeepSession(buffer[..i], id)
      {
        PurgeStep(buffer, i, id, taskBuffer);
        var t := taskBuffer[0];
        taskBuffer := taskBuffer[1..];
        if t.sessionID == id {
          taskBuffer := taskBuffer + [t];
        }
        i := i + 1;
      }
      assert buffer[..i] == buffer;
    }

    /** One pass of the loop body; `running` is false when an exception ends the loop. */
    method HandleMessage(m: Message, writable: bool) returns (running: bool)
      modifies this`simulationSession, this`taskBuffer, this`outbox, this`workerAborts
      ensures var next := ServerStep(numberOfWorkerThreads, writable, old(State()), m);
        (running <==> next.Some?) && (running ==> State() == next.value)
      ensures !running ==> State() == old(State())
    {
      running := true;
      match m {
        case NewSession(s) =>
          simulationSession := Some(s);
          var i := 0;
          while i < numberOfWorkerThreads
            invariant 0 <= i <= numberOfWorkerThreads
            invariant simulationSession == Some(s) && taskBuffer == old(taskBuffer)
            invariant workerAborts == old(workerAborts) + i
            invariant outbox == old(outbox) + (if writable then Repeat(TaskRequest(s.sessionID), i) else [])
          {
            workerAborts := workerAborts + 1;
            SendTaskRequest(writable);
            i := i + 1;
          }
          PurgeTaskBuffer(s.sessionID);
        case Task(t) =>
          if simulationSession.Some? && t.sessionID == simulationSession.value.sessionID {
            taskBuffer := taskBuffer + [t];
          }
        case AbortSession(id) =>
          if simulationSession.Some? && id == simulationSession.value.sessionID {
            workerAborts := workerAborts + numberOfWorkerThreads;
          }
        case Malformed(tag) =>
          running := !(tag == NewSessionTag || tag == TaskTag || tag == AbortSessionTag);
        case TagOnly(tag) =>
          running := !(tag == NewSessionTag || tag == TaskTag || tag == AbortSessionTag);
        case _ =>
      }
    }

    /**
     * The connection: the first message must be a client name that deserializes (None
     * is the end of the stream); otherwise the connection is closed before the loop.
     * `closeAt` is the number of messages handled before another thread calls
     * `RequestClosing`, which the loop notices at its next check; a close requested
     * before the connection was accepted stops the loop before its first message.
     */
    method HandleConnection(first: Option<Message>, incoming: seq<Message>,
                            closeAt: Option<nat>, writable: bool) returns (accepted: bool)
      modifies this`simulationSession, this`taskBuffer, this`outbox, this`workerAborts,
               this`clientName, this`requestClose
      ensures accepted <==> first.Some? && first.value.ClientName?
      ensures !accepted ==> State() == old(State()) && clientName == old(clientName)
      ensures accepted ==>
        clientName == Some(first.value.name)
        && State() == ServerLoop(numberOfWorkerThreads, writable, old(State()),
                                 if old(requestClose) then [] else UntilClose(incoming, closeAt))
    {
      if first.None? || !first.value.ClientName? {
        return false;
      }
      accepted := true;
      clientName := Some(first.value.name);
      if requestClose {
        return;
      }
      var seen := UntilClose(incoming, closeAt);
      var i := 0;
      while i < |incoming|
        invariant 0 <= i <= |incoming|
        invariant !requestClose && clientName == Some(first.value.name)
        invariant closeAt.None? || closeAt.value >= i
        invariant i <= |seen| && seen[..i] == incoming[..i]
        invariant ServerLoop(numberOfWorkerThreads, writable, old(State()), seen)
          == ServerLoop(numberOfWorkerThreads, writable, State(), seen[i..])
      {
        if closeAt == Some(i) {
          RequestClosing();
          assert seen == incoming[..i] && seen[i..] == [];
          return;
        }
        assert seen[i] == incoming[i];
        var running := HandleMessage(incoming[i], writable);
        if !running {
          return;
        }
        assert seen[i..][1..] == seen[i + 1..];
        i := i + 1;
      }
      assert seen == incoming;
    }
  }
}
