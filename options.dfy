/** Outcome types shared by the model. */
module Options {
  /** The usual optional value, used where a lookup may find nothing. */
  datatype Option<+T> = None | Some(value: T)

  /** What a grammar rule returns: failure, or its attribute and the position after it. */
  datatype Parsed<+T> = Fail | Ok(value: T, next: nat)
}
