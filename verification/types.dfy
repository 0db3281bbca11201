/**
 Values shared by every part of the cluster connection model: raw keys and
 values, hash slots, the connection's call mode, and the errors the cluster
 connection raises or relays from the store.
 */
module ClusterTypes {

  /** Number of hash slots of a Redis Cluster keyspace. */
  const SLOT_COUNT: nat := 16384

  /** A hash slot, as computed by the connection manager's calcSlot. */
  type Slot = s: int | 0 <= s < SLOT_COUNT

  newtype byte = b: int | 0 <= b < 256

  /** Keys and values cross the connection as raw byte arrays. */
  type Key = seq<byte>
  type Value = seq<byte>

  /** A Java reference that may be null. */
  datatype Option<+T> = None | Some(value: T)

  datatype Error =
    | MasterNotFound(host: string, port: int) // IllegalStateException of clusterGetSlaves
    | RenameInPipeline                        // rename/renameNX called while pipelined
    | ScanInPipeline                          // scan called while queueing or pipelined
    | NoSuchKey                               // error reply of the native RENAME/RENAMENX
    | BusyKey                                 // error reply of RESTORE onto an existing key
    | InvalidCursor                           // parseUnsignedLong refused the cursor token

  /** Either a value or the exception the call throws. */
  datatype Result<+T> = Success(value: T) | Failure(error: Error) {
    predicate IsFailure() {
      Failure?
    }

    function PropagateFailure<U>(): Result<U>
      requires Failure?
    {
      Failure(error)
    }

    function Extract(): T
      requires Success?
    {
      value
    }
  }

  /** The connection's call mode: inside MULTI (queueing) and/or inside an open pipeline. */
  datatype Mode = Mode(queueing: bool, pipelined: bool) {
    /** Commands are enqueued rather than answered immediately. */
    predicate Deferred() {
      queueing || pipelined
    }
  }
}
