/**
 * The client/server wire protocol: every message is a one-byte tag followed by one
 * serialized value. The serialized byte format is not modelled; a message is the tag
 * together with the value it carries.
 */
module Protocol {
  import opened BenchmarkStatistics
  import opened PredictorInfoPool
  import opened SimulationSessionModel

  const ClientNameTag := 1
  const TaskRequestTag := 2
  const TaskTag := 3
  const ResultTag := 4
  const NewSessionTag := 5
  const AbortSessionTag := 6

  /** One job: a predictor configuration and the name of the benchmark to run it on. */
  datatype SimulationInfo = SimulationInfo(predictor: SerializedPredictorInfo, benchmarkName: string)

  datatype TaskPackage = TaskPackage(taskID: nat, sessionID: nat, simulationTask: SimulationInfo)

  /** The result of one task; the predictor field is not serialized and is left out. */
  datatype ResultPackage = ResultPackage(taskID: nat, sessionID: nat, result: BenchmarkResult)

  /**
   * What one read of the stream yields. `TagOnly` is a tag byte whose value was never
   * written (the sender failed after the tag), `Malformed` a known tag whose value does
   * not deserialize, `Unknown` any other tag byte.
   */
  datatype Message =
    | ClientName(name: string)
    | TaskRequest(sessionID: nat)
    | Task(task: TaskPackage)
    | Result(package: ResultPackage)
    | NewSession(session: SerializedSession)
    | AbortSession(sessionID: nat)
    | TagOnly(tag: int)
    | Malformed(tag: int)
    | Unknown(tag: int)

  /** The tag byte a message starts with. */
  function Tag(m: Message): (t: int)
    ensures !m.TagOnly? && !m.Malformed? && !m.Unknown? ==> 1 <= t <= 6
  {
    match m
    case ClientName(_) => ClientNameTag
    case TaskRequest(_) => TaskRequestTag
    case Task(_) => TaskTag
    case Result(_) => ResultTag
    case NewSession(_) => NewSessionTag
    case AbortSession(_) => AbortSessionTag
    case TagOnly(t) => t
    case Malformed(t) => t
    case Unknown(t) => t
  }
}
