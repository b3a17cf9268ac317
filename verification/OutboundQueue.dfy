/** The per-node queues both secure transports keep: only busy nodes have an entry. */
module OutboundQueue {
  import opened Bytes

  type Node = Byte

  datatype Pending = Pending(payload: seq<Byte>, callbackId: Byte)

  type Queues = map<Node, seq<Pending>>

  function QueueOf(queues: Queues, n: Node): seq<Pending> {
    if n in queues then queues[n] else []
  }

  function WithQueue(queues: Queues, n: Node, queue: seq<Pending>): Queues {
    if queue == [] then queues - {n} else queues[n := queue]
  }

  /** A busy node waits for exactly one nonce. */
  function Waiting(queue: seq<Pending>): int {
    if queue == [] then 0 else 1
  }
}
