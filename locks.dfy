/** The entities of the Web Locks broker: a lock request and what a client learns about it. */
module Locks {

  /** Mode of a lock, like a reader-writer lock: shared locks can be held together. */
  datatype Mode = Shared | Exclusive

  /** What to do when a lock cannot be granted at once: queue, fail, or steal it. */
  datatype WaitMode = Wait | NoWait | Preempt

  /** A lock is pending until a handle is minted for it; from then on it is granted. */
  datatype Status = Pending | Granted

  /** A requested or held lock of one resource name. */
  datatype Lock = Lock(name: string, mode: Mode, id: int, clientId: string, status: Status)

  /** What a snapshot reports of a lock: its name, its mode and the client that asked for it. */
  datatype LockInfo = LockInfo(name: string, mode: Mode, clientId: string)

  /** What the requesting client observes: a handle now, a handle later, a failure,
      or its connection closed for breaking the protocol. */
  datatype Outcome = Acquired | Queued | Failed | BadMessage(reason: string)

  /** Smaller than every lock id the broker hands out. */
  const PreemptiveLockId: int := 0

  const InvalidOptionCombination: string := "Invalid option combination"
  const ReservedName: string := "Reserved name"

  function Info(l: Lock): LockInfo
  {
    LockInfo(l.name, l.mode, l.clientId)
  }
}
