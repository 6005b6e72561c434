/** The message vocabulary of the GPU-lock protocol, and the types both sides share. */
module Messages {

  datatype Option<+T> = None | Some(value: T)

  /** A connection is identified by its server-side file descriptor. */
  type Fd = nat

  /** A 64-bit client id. */
  type Id = nat

  const UNREGISTERED_ID: Id := 0xF00D_F00D_F00D_F00D

  /**
    What a peer may send to the scheduler. `SetTq` carries what the scheduler's
    parser makes of the data field. `LockReleased` carries the scheduling round
    of the grant that it gives back; the tag exists for the proofs only, nothing
    in the protocol looks at it. `Unknown` is every other type byte.
   */
  datatype ToScheduler =
    | Register
    | SchedOn
    | SchedOff
    | SetTq(parsed: Option<int>)
    | ReqLock
    | LockReleased(round: nat)
    | Unknown

  /** What the scheduler sends. The round tags exist for the proofs only. */
  datatype ToClient =
    | StatusOn
    | StatusOff
    | LockOk(round: nat)
    | DropLock(round: nat)

  predicate IsStatus(m: ToClient) {
    m.StatusOn? || m.StatusOff?
  }

  function Status(on: bool): ToClient {
    if on then StatusOn else StatusOff
  }
}
