/** Types shared by every component: optional values, byte strings and an ideal SHA-256. */
module Foundations {

  datatype Option<+T> = None | Some(value: T)

  newtype byte = x: int | 0 <= x < 256

  type Bytes = seq<byte>

  /** The digest of a byte string. A constructor stands for SHA-256, so equal digests mean
      equal inputs: collisions are assumed away and nothing else about the function is used. A stored
      digest may also be text that is the digest of nothing. */
  datatype Hash = Sha256(preimage: Bytes) | NoDigest(text: Bytes)

  function Digest(b: Bytes): Hash {
    Sha256(b)
  }

  /** How one durable write ended. The error of `LostBefore` came before the rename and left the
      old file; the error of `LostAfter` came after it (opening or syncing the directory). */
  datatype SaveResult = Saved | LostBefore | LostAfter

  predicate Reached(r: SaveResult) {
    !r.LostBefore?
  }

  /** A character with the Unicode property White_Space, which `strings.TrimSpace` removes. */
  predicate White(c: char) {
    var x := c as int;
    || 0x09 <= x <= 0x0D || x == 0x20 || x == 0x85 || x == 0xA0 || x == 0x1680 || 0x2000 <= x <= 0x200A
    || x == 0x2028 || x == 0x2029 || x == 0x202F || x == 0x205F || x == 0x3000
  }

  predicate Blank(s: string) {
    forall c <- s :: White(c)
  }

  /** Octets of a character in UTF-8. */
  function Width(c: char): nat {
    var x := c as int;
    if x < 0x80 then 1 else if x < 0x800 then 2 else if x < 0x10000 then 3 else 4
  }

  /** `len` of a Go string. */
  function ByteLength(s: string): nat {
    if s == [] then 0 else ByteLength(s[..|s| - 1]) + Width(s[|s| - 1])
  }
}
