/**
 * Simulation sessions. Every session created in a process takes the next value of a
 * process-wide `uint` counter as its ID; a session received from the other side of a
 * connection keeps the ID it was sent with.
 */
module SimulationSessionModel {
  import opened SimulationOptionsModel

  const UINT_MAX := 0xFFFF_FFFF

  /** `++lastId` on a `uint`: wraps to 0 after the largest value. */
  function NextId(lastId: nat): (n: nat)
    requires lastId <= UINT_MAX
    ensures n <= UINT_MAX
    ensures lastId < UINT_MAX ==> n == lastId + 1 && n > lastId
    ensures lastId == UINT_MAX ==> n == 0
  {
    (lastId + 1) % (UINT_MAX + 1)
  }

  /** The static counter `lastId`, held by one object per process. */
  class SessionCounter {
    var lastId: nat

    ghost predicate Valid()
      reads this
    {
      lastId <= UINT_MAX
    }

    constructor ()
      ensures Valid() && lastId == 0
    {
      lastId := 0;
    }
  }

  /** What a session serializes: its ID and its options, in their own serialized form. */
  datatype SerializedSession = SerializedSession(sessionID: nat, options: SerializedOptions)

  class SimulationSession {
    const sessionID: nat
    const sessionOptions: SimulationOptions
    /** Nothing ever assigns `aborted`, so it keeps its initial value. */
    const aborted: bool := false

    /** A new session takes `++lastId` and keeps the options object it was given. */
    constructor (counter: SessionCounter, options: SimulationOptions)
      requires counter.Valid()
      modifies counter
      ensures counter.Valid()
      ensures counter.lastId == NextId(old(counter.lastId))
      ensures sessionID == counter.lastId && sessionOptions == options
      ensures !aborted
    {
      counter.lastId := NextId(counter.lastId);
      sessionID := counter.lastId;
      sessionOptions := options;
    }

    /** The serialization constructor: restores ID and options, leaves the counter alone. */
    constructor FromSerialized(d: SerializedSession)
      requires d.sessionID <= UINT_MAX
      ensures sessionID == d.sessionID && fresh(sessionOptions)
      ensures sessionOptions.Value() == Deserialize(d.options)
      ensures !aborted
    {
      sessionID := d.sessionID;
      sessionOptions := new SimulationOptions.FromSerialized(d.options);
    }

    function GetObjectData(): (d: SerializedSession)
      reads sessionOptions
      ensures d.sessionID == sessionID && d.options == Serialize(sessionOptions.Value())
    {
      SerializedSession(sessionID, sessionOptions.GetObjectData())
    }
  }

  /**
   * Sessions created one after another receive 1, 2, 3, ...: after `n` creations from
   * a fresh counter (and while no wrap-around happened) the last ID is `n`.
   */
  lemma {:induction false} IdsCountCreations(n: nat)
    requires n <= UINT_MAX
    ensures IdAfter(n) == n
  {
    if n > 0 {
      IdsCountCreations(n - 1);
    }
  }

  /** The value of `lastId` after `n` sessions were created in a fresh process. */
  function IdAfter(n: nat): (id: nat)
    ensures id <= UINT_MAX
  {
    if n == 0 then 0 else NextId(IdAfter(n - 1))
  }

  /** Session IDs strictly increase until the counter wraps. */
  lemma IdsIncrease(m: nat, n: nat)
    requires m < n <= UINT_MAX
    ensures IdAfter(m) < IdAfter(n)
  {
    IdsCountCreations(m);
    IdsCountCreations(n);
  }
}
