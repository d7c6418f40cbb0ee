/** Result types shared by every component of the model. */
module Common {

  datatype Option<+T> = None | Some(value: T)

  type Byte = x: int | 0 <= x < 256

  type Bytes = seq<Byte>

  datatype Result<+T> = Ok(value: T) | Err(code: string)
}
