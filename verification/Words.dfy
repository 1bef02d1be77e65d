/** Machine words, and results that may be missing. */
module Words {

  const U16: nat := 0x1_0000
  const U32: nat := 0x1_0000_0000

  datatype Option<T> = None | Some(value: T)

  function Min(x: nat, y: nat): nat { if x < y then x else y }
  function Max(x: nat, y: nat): nat { if x > y then x else y }

  /** x + y in 32 bits, for x and y below 2^32 */
  function Add32(x: nat, y: nat): (r: nat)
    requires x < U32 && y < U32
    ensures r < U32 && (r == x + y || r == x + y - 0x1_0000_0000)
  {
    if x + y >= U32 then x + y - U32 else x + y
  }

  /** x - y in 32 bits, for x and y below 2^32 */
  function Sub32(x: nat, y: nat): (r: nat)
    requires x < U32 && y < U32
    ensures r < U32 && Add32(r, y) == x
  {
    if x >= y then x - y else x + U32 - y
  }

  /** (uint16_t)x */
  function Low16(x: nat): (r: nat)
    ensures r < U16 && (x < U16 ==> r == x)
  {
    if x < U16 then x else x % U16
  }
}
