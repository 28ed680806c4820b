/** Error codes of the library and the types that carry them. */
module Results {

  datatype Option<+T> = None | Some(value: T)

  datatype Error =
    | BadParam | ParseErr | CipherFail | CryptexErr | AuthFail | BufferSmall | BadMki | NoCtx
    | ReplayedOld | Replayed | PacketIndexOld | DirectionMismatch | KeyExpired | CantCheck | AllocFail

  datatype Result<+T> = Success(value: T) | Failure(error: Error) {
    predicate IsFailure() { Failure? }

    function PropagateFailure<U>(): Result<U>
      requires Failure?
    {
      Failure(error)
    }

    function Extract(): T
      requires Success?
    {
      value
    }
  }
}
