/** Names that the tracker and the nodes only ever compare for equality. */
module Identifiers {
  type NodeId(==, !new)
  type StreamKey(==, !new)
  type TrackerId(==, !new)
}
