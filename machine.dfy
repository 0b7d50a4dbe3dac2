/** The fixed-width unsigned integers the gateway's protocol fields use. */
module Machine {

  newtype u8 = x: int | 0 <= x < 0x100

  newtype u16 = x: int | 0 <= x < 0x1_0000

  const U8Max: u8 := 0xFF
}
