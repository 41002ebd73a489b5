/** The events on the topic and the queues subscribed to it. */
module Events {

  datatype Kind = OrderPlaced | OrderConfirmed | PaymentFailed | FraudFlagged

  datatype Event = Event(kind: Kind, user: string, order: string)

  datatype Queue = PaymentWorker | FraudDetector | NotificationWorker | OrderService

  /** The filter policies: a queue gets an event exactly when this holds. */
  predicate Subscribed(queue: Queue, kind: Kind) {
    match queue
    case FraudDetector => true
    case PaymentWorker => kind == OrderPlaced
    case NotificationWorker => kind == OrderConfirmed || kind == FraudFlagged || kind == PaymentFailed
    case OrderService => kind == OrderConfirmed || kind == PaymentFailed
  }

  predicate IsOutcome(kind: Kind) {
    kind == OrderConfirmed || kind == PaymentFailed
  }

  /** How long a queue keeps a message, and a dedup claim lives. */
  const RETENTION_MS: nat := 86_400_000
  const CLAIM_MS: nat := 86_400_000

  /** How often a message is received before it goes to the dead-letter queue. */
  const MAX_RECEIVES: nat := 5
}
