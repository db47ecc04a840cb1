/** The generation counter, a C# `int` field of the engine. */
module Generation {
  /** The generation counter is a C# `int`. */
  type Int32 = x: int | -0x8000_0000 <= x < 0x8000_0000

  /** `generation++` on a C# `int` in an unchecked context: it counts up and
      wraps from the largest value to the smallest. */
  function Inc32(g: Int32): (r: Int32)
    ensures g < 0x7fff_ffff ==> r == g + 1
    ensures g == 0x7fff_ffff ==> r == -0x8000_0000
  {
    (g + 1 + 0x8000_0000) % 0x1_0000_0000 - 0x8000_0000
  }
}
