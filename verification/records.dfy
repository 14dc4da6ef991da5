/** The records the game loop keeps and exchanges: entities, sessions,
    queued input samples, snapshot states and outbound messages. */
module Records {
  import opened Int8

  /** An opaque `*webtransport.Session`. `Nil` is Go's nil pointer, which is
      what a zero-valued Entity carries. */
  datatype Handle = Nil | Conn(id: nat)

  /** A simulated participant; positions are reals (float32 rounding is not
      modelled). */
  datatype Entity = Entity(uid: int8, x: real, y: real, session: Handle)

  /** Go's zero value of Entity, which a map lookup of a missing key yields. */
  const ZeroEntity: Entity := Entity(0, 0.0, 0.0, Nil)

  /** A registered connection. */
  datatype Session = Session(session: Handle)

  /** The direction keys of an input sample; a key counts as pressed only
      when its value is exactly 1. */
  datatype Keys = Keys(left: int, up: int, right: int, down: int)

  /** One decoded DATA input sample. */
  datatype Data = Data(uid: int8, keys: Keys)

  /** One entry of a snapshot. */
  datatype State = State(uid: int8, x: real, y: real)

  /** Messages the loop sends: the OFFER after a connect and the per-tick
      snapshot whose tag is "DATA". */
  datatype Msg = Offer(uid: int8) | Snapshot(mtype: string, states: seq<State>)

  /** A message handed to a session's SendMessage. */
  datatype Send = Send(to: Handle, msg: Msg)

  /** The snapshot entry of an entity: its own uid field and position. */
  function StateOf(e: Entity): State
  {
    State(e.uid, e.x, e.y)
  }
}
