/** Machine integers, and optional values. */
module Words {

  datatype Option<T> = None | Some(value: T)

  type Octet = x: int | 0 <= x < 0x100
  type Short = x: int | 0 <= x < 0x1_0000
  type Word = x: int | 0 <= x < 0x1_0000_0000

  const WORD: int := 0x1_0000_0000
}
