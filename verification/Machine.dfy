/** What the modules share: optional values, and the integers of the machine. */
module Machine {

  datatype Option<+T> = None | Some(value: T)

  type Byte = b: int | 0 <= b < 0x100
  type Word = w: int | 0 <= w < 0x1_0000
  type Long = v: int | 0 <= v < 0x1_0000_0000
}
