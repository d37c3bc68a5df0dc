/** Bytes, white space as the Go standard library reads it, and results that may be absent. */
module Text {
  type byte = b: int | 0 <= b < 256 witness 0
  type Bytes = seq<byte>

  datatype Option<+T> = None | Some(value: T)

  const LF: byte := 10
  const CR: byte := 13
  const SPACE: byte := 32
  const COLON: byte := 58

  predicate HasPrefix(s: Bytes, p: Bytes) {
    |p| <= |s| && s[..|p|] == p
  }

  predicate ThreeByteSpace(a: byte, b: byte, c: byte) {
    || (a == 0xE1 && b == 0x9A && c == 0x80)
    || (a == 0xE2 && b == 0x80 && (0x80 <= c <= 0x8A || c == 0xA8 || c == 0xA9 || c == 0xAF))
    || (a == 0xE2 && b == 0x81 && c == 0x9F)
    || (a == 0xE3 && b == 0x80 && c == 0x80)
  }

  /** The width of the UTF-8 white-space rune `s` opens with (the Unicode White_Space set), 0 when it opens with none. */
  function SpaceWidth(s: Bytes): (w: nat)
    ensures w <= |s|
  {
    if |s| >= 1 && (9 <= s[0] <= 13 || s[0] == SPACE) then 1
    else if |s| >= 2 && s[0] == 0xC2 && (s[1] == 0x85 || s[1] == 0xA0) then 2
    else if |s| >= 3 && ThreeByteSpace(s[0], s[1], s[2]) then 3
    else 0
  }

  /** A line that bytes.TrimSpace empties. */
  predicate Blank(s: Bytes) {
    s == [] || (SpaceWidth(s) > 0 && Blank(s[SpaceWidth(s)..]))
  }

  function Concat<T>(parts: seq<seq<T>>): seq<T> {
    if parts == [] then [] else parts[0] + Concat(parts[1..])
  }
}
