/** Names shared by the relay modules: identifiers, options and the capabilities a peer announces on join. */
module RelayTypes {
  datatype Option<+T> = None | Some(value: T)

  type RoomId = string
  type PeerId = string
  type InstanceId = string

  datatype Codec = Json | MsgPack

  /** The optional `protocol` field of a join. Every announced minimum version is 1, so it is not stored. */
  datatype Capabilities = Capabilities(maxVersion: int, codecs: seq<Codec>, preferred: Codec)

  /** A peer as a join answer lists it. */
  datatype JoinPeer = JoinPeer(peerId: PeerId, protocol: Option<Capabilities>)
}
