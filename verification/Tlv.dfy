/** The protocol values shared by the server, the devices and both vote algorithms. */
module Tlv {

  /** A corosync ring id: the representative of the ring and its sequence number. */
  datatype RingId = RingId(nodeId: nat, seqNo: nat)

  datatype Vote = Ack | Nack | AskLater | WaitForReply | NoChange

  datatype Heuristics = HeuristicsUndefined | Pass | Fail

  datatype TieBreaker = Lowest | Highest | Nominated(nodeId: nat)

  datatype ErrorCode =
    | NoError
    | InvalidConfigNodeList
    | InvalidMembershipNodeList
    | DuplicateNodeId
    | TieBreakerDiffersFromOtherNodes
    | InitRequired
    | RequiredOptionMissing

  datatype Option<+T> = None | Some(value: T)
}
