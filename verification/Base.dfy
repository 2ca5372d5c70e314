/** Vocabulary shared by every module of the model. */
module Base {
  datatype Option<+T> = None | Some(value: T)

  datatype Result<+T, +E> = Success(value: T) | Failure(error: E)

  newtype Byte = b: int | 0 <= b < 256

  type Bytes = seq<Byte>

  type Password = Option<string>
}
