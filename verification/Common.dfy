/** Small datatypes shared by the models. */
module Common {

  datatype Option<+T> = None | Some(value: T)

  // An int truncated to 32 bits two's complement, as Go's int32(x) conversion does.
  function Int32(x: int): (r: int)
    ensures -0x8000_0000 <= r < 0x8000_0000
    ensures (x - r) % 0x1_0000_0000 == 0
    ensures -0x8000_0000 <= x < 0x8000_0000 ==> r == x
  {
    (x + 0x8000_0000) % 0x1_0000_0000 - 0x8000_0000
  }
}
