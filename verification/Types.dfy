/** Small vocabulary shared by every component of the model. */
module Types {

  datatype Option<+T> = None | Some(value: T)

  /** A finite run of a machine: the actions taken so far, oldest innermost. */
  datatype Run<+A> = Start | Then(before: Run<A>, last: A)

  const TWO_TO_THE_32: nat := 0x1_0000_0000
  const UINT32_MAX: nat := 0xFFFF_FFFF

  newtype byte = x: int | 0 <= x < 256

  /** The sequence holding the value of an option, if there is one. */
  function AsSeq<T>(o: Option<T>): seq<T> {
    match o
    case None => []
    case Some(v) => [v]
  }
}
