/** The packets exchanged by the roles of a libpaxos replica. */
module PaxosMessages {
  import opened Options

  /** Host and port of a replica, as carried in a packet. */
  type Addr = string

  /** A command after ProposeCommand has tagged it. */
  type Value = string

  datatype MsgType =
    | NOP | PREPARE | PREPARE_OK | PREPARE_REJECT | ACCEPT | ACCEPT_OK | ACCEPT_REJECT | COMMIT
      // the next three are never broadcast
    | PROPOSE | LEARN | EPOCH

  datatype Msg = Msg(typ: MsgType, proposal: int, value: Value, instance: int)

  datatype Packet = Packet(msg: Msg, from: Addr)

  function ToSeq<T>(o: Option<T>): seq<T> {
    if o.Some? then [o.value] else []
  }
}
