// Small result types shared by the whole model.
module Wrappers {
  datatype Option<+T> = None | Some(value: T)

  // A fold_uuid: the key of a staged row.
  datatype Uuid = Uuid(text: string)

  datatype Result<+T, +E> = Ok(value: T) | Err(error: E)
}
