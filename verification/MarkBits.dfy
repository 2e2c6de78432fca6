/** Packet and connection marks: a 32-bit mark is the set of the positions of its one bits. */
module MarkBits {
  type Bits = set<nat>

  /** 0xFF000000, the byte the rule compilers work in. */
  const HIGH: Bits := {24, 25, 26, 27, 28, 29, 30, 31}
}
