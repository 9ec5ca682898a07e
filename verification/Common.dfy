/** Result types and the error taxonomy shared by every part of the model. */
module Common {
  datatype Option<+T> = None | Some(value: T)

  /** The members of `auradefi.errors` that the modelled code raises. */
  datatype Error =
    | ValidationError
    | DecimalsMismatchError
    | CurrencyMismatchError
    | NotFoundError
    | ConflictError
    | CursorError
    | TenantIsolationError
    | SourceError
    | UnknownAssetError
    | UnknownChainError
    | DecodeError
    | CassetteError
    | HostError // anything that is not an AuradefiError, a lost process among them

  /** A returned value, or the exception raised instead of it. */
  datatype Result<+T> = Ok(value: T) | Err(error: Error)

  function Reversed<T>(s: seq<T>): (r: seq<T>)
    ensures |r| == |s|
    ensures forall k | 0 <= k < |s| :: r[k] == s[|s| - 1 - k]
  {
    if s == [] then [] else Reversed(s[1..]) + [s[0]]
  }

  function Min(a: int, b: int): int {
    if a < b then a else b
  }
}
