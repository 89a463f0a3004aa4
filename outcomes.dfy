/** How the operations of `src/world/mod.rs` end: with a value, with an
    error propagated by `?` (the `anyhow::Result` of the source), or at one
    of the slice expressions that panic when their range is out of bounds.
    Panics are outcomes here so that every input has a defined result. */
module Outcomes {

  datatype Option<+T> = None | Some(value: T)

  /** The range expressions that panic when out of bounds. */
  datatype PanicSite =
    | SlotSlice     // `self.locations[meta_offset..meta_offset + 4]`
    | SectorSlice   // `self.data[4096 * offset..4096 * (offset + count)]`
    | LengthSlice   // `data[0..4]`
    | PayloadSlice  // `data[5..5 + length]`
    | SpliceRange   // `self.data.splice(lo..hi, ..)`

  datatype Error =
    | Collaborator(message: string)  // returned by a decoder, an encoder or a serde conversion
    | NotCompound                    // `Level::from_value` applied to a non-compound value

  datatype Fault = Panicked(site: PanicSite) | Failed(error: Error)

  /** What a foreign call (flate2, fastnbt) hands back. */
  datatype Foreign<+T> = Produced(value: T) | Rejected(message: string)

  datatype Result<+T> = Ok(value: T) | Err(fault: Fault) {

    predicate IsFailure() {
      Err?
    }

    function PropagateFailure<U>(): Result<U>
      requires Err?
    {
      Err(fault)
    }

    function Extract(): T
      requires Ok?
    {
      value
    }
  }

  /** The `?` applied to a foreign call's result. */
  function Lift<T>(f: Foreign<T>): Result<T>
  {
    match f
    case Produced(v) => Ok(v)
    case Rejected(m) => Err(Failed(Collaborator(m)))
  }
}
