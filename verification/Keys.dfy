/** Idempotency keys, which become the ids of what a request creates. */
module Keys {

  /** The string form of a UUID. */
  type Uuid = s: string | s != "" witness "0"
}
