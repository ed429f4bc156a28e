/** Stream messages, as far as nodes look at them. */
module Messages {
  import opened Identifiers
  import opened Numbers
  import opened Options

  /** A publisher and its message chain: the key of a duplicate detector within a stream. */
  type ChainKey(==, !new)

  datatype MessageId = MessageId(streamKey: StreamKey, chain: ChainKey, timestamp: int, sequenceNumber: int) {
    function Number(): NumberPair {
      NumberPair(timestamp, sequenceNumber)
    }
  }

  datatype StreamMessage = StreamMessage(id: MessageId, previous: Option<NumberPair>)

  /** A message with the node it came from; there is none for a message published here. */
  datatype Copy = Copy(message: StreamMessage, source: Option<NodeId>)
}
