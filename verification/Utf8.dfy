/** UTF-8 as RFC 3629 defines it (the syntax of section 4), the predicates `utf8.Valid` and
    `utf8.RuneStart` of the Go standard library, and where a valid text may be cut. */
module Utf8 {
  import opened Foundations

  predicate Trailing(b: byte) {
    0x80 <= b <= 0xBF
  }

  predicate RuneStart(b: byte) {
    !Trailing(b)
  }

  /** The first two octets of a three-octet character: no overlong form, no surrogate. */
  predicate ThreeLead(a: byte, b: byte) {
    || (a == 0xE0 && 0xA0 <= b <= 0xBF)
    || (0xE1 <= a <= 0xEC && Trailing(b))
    || (a == 0xED && 0x80 <= b <= 0x9F)
    || (0xEE <= a <= 0xEF && Trailing(b))
  }

  /** The first two octets of a four-octet character: no overlong form, nothing above U+10FFFF. */
  predicate FourLead(a: byte, b: byte) {
    || (a == 0xF0 && 0x90 <= b <= 0xBF)
    || (0xF1 <= a <= 0xF3 && Trailing(b))
    || (a == 0xF4 && 0x80 <= b <= 0x8F)
  }

  /** Octets of the character that `t` begins with; 0 when it begins with none. */
  function RuneLength(t: Bytes): (r: nat)
    ensures r <= 4 && r <= |t|
    ensures r > 0 ==> RuneStart(t[0]) && forall k :: 1 <= k < r ==> Trailing(t[k])
  {
    if t == [] then 0
    else if t[0] <= 0x7F then 1
    else if |t| >= 2 && 0xC2 <= t[0] <= 0xDF && Trailing(t[1]) then 2
    else if |t| >= 3 && ThreeLead(t[0], t[1]) && Trailing(t[2]) then 3
    else if |t| >= 4 && FourLead(t[0], t[1]) && Trailing(t[2]) && Trailing(t[3]) then 4
    else 0
  }

  predicate Valid(t: Bytes)
    decreases |t|
  {
    t == [] || (RuneLength(t) > 0 && Valid(t[RuneLength(t)..]))
  }

  /** A place where a text may be cut. */
  predicate Boundary(t: Bytes, p: nat) {
    p == |t| || (p < |t| && RuneStart(t[p]))
  }

  /** A cut of a valid text is valid on both sides exactly at a boundary; between boundaries even
      the front part alone is invalid. */
  lemma {:induction false} CutValid(t: Bytes, p: nat)
    requires Valid(t) && p <= |t|
    ensures Boundary(t, p) <==> Valid(t[..p])
    ensures Boundary(t, p) ==> Valid(t[p..])
    decreases |t|
  {
    if t != [] {
      var r := RuneLength(t);
      if p >= r {
        CutValid(t[r..], p - r);
        assert t[..p][r..] == t[r..][..p - r] && t[r..][p - r..] == t[p..];
      } else if p == 0 {
        assert t[..p] == [] && t[p..] == t;
      }
    }
  }

  lemma SliceValid(t: Bytes, p: nat, q: nat)
    requires Valid(t) && p <= q <= |t| && Boundary(t, p) && Boundary(t, q)
    ensures Valid(t[p..q])
  {
    hide Valid;
    var rest := t[p..];
    CutValid(t, p);
    CutValid(rest, q - p);
    assert rest[..q - p] == t[p..q];
  }

  /** No character is longer than four octets: the next boundary is at most three octets away, on
      either side. */
  lemma {:induction false} BoundaryNear(t: Bytes, p: nat) returns (before: nat, after: nat)
    requires Valid(t) && p <= |t|
    ensures p - 3 <= before <= p && Boundary(t, before)
    ensures p <= after <= p + 3 && Boundary(t, after)
    decreases |t|
  {
    if t == [] {
      return 0, 0;
    }
    var r := RuneLength(t);
    if p < r {
      assert t[r..] != [] ==> RuneLength(t[r..]) > 0;
      return 0, if p == 0 then 0 else r;
    }
    before, after := BoundaryNear(t[r..], p - r);
    before, after := before + r, after + r;
  }

  // ---------------------------------------------------------------- white space

  /** `t` begins with a white-space character. */
  predicate WhiteRune(t: Bytes) {
    match RuneLength(t)
    case 0 => false
    case 1 => t[0] == 0x20 || 0x09 <= t[0] <= 0x0D
    case 2 => t[0] == 0xC2 && (t[1] == 0x85 || t[1] == 0xA0)
    case 3 =>
      || (t[0] == 0xE1 && t[1] == 0x9A && t[2] == 0x80)
      || (t[0] == 0xE2 && t[1] == 0x80 && (0x80 <= t[2] <= 0x8A || t[2] == 0xA8 || t[2] == 0xA9 || t[2] == 0xAF))
      || (t[0] == 0xE2 && t[1] == 0x81 && t[2] == 0x9F)
      || (t[0] == 0xE3 && t[1] == 0x80 && t[2] == 0x80)
    case _ => false
  }

  /** `len(bytes.TrimSpace(t)) == 0` */
  predicate BlankText(t: Bytes)
    decreases |t|
  {
    t == [] || (WhiteRune(t) && BlankText(t[RuneLength(t)..]))
  }

  /** The octets of one character (section 3 of RFC 3629). */
  function Encode(c: char): Bytes {
    var x := c as int;
    if x < 0x80 then [x as byte]
    else if x < 0x800 then [(0xC0 + x / 0x40) as byte, (0x80 + x % 0x40) as byte]
    else if x < 0x10000 then [(0xE0 + x / 0x1000) as byte, (0x80 + x / 0x40 % 0x40) as byte, (0x80 + x % 0x40) as byte]
    else [(0xF0 + x / 0x40000) as byte, (0x80 + x / 0x1000 % 0x40) as byte, (0x80 + x / 0x40 % 0x40) as byte,
          (0x80 + x % 0x40) as byte]
  }

  lemma EncodeTwo(x: int, t: Bytes)
    requires 0x80 <= x < 0x800 && |t| >= 2 && t[0] as int == 0xC0 + x / 0x40 && t[1] as int == 0x80 + x % 0x40
    ensures RuneLength(t) == 2 && (WhiteRune(t) <==> x == 0x85 || x == 0xA0)
  {
  }

  lemma EncodeThree(x: int, t: Bytes)
    requires 0x800 <= x < 0x10000 && !(0xD800 <= x < 0xE000) && |t| >= 3
    requires t[0] as int == 0xE0 + x / 0x1000 && t[1] as int == 0x80 + x / 0x40 % 0x40 && t[2] as int == 0x80 + x % 0x40
    ensures RuneLength(t) == 3
    ensures WhiteRune(t) <==>
              || x == 0x1680 || 0x2000 <= x <= 0x200A || x == 0x2028 || x == 0x2029 || x == 0x202F || x == 0x205F
              || x == 0x3000
  {
    var a, b, d := x / 0x1000, x / 0x40 % 0x40, x % 0x40;
    assert x == a * 0x1000 + b * 0x40 + d && 0 <= a < 16 && 0 <= b < 64 && 0 <= d < 64;
    assert t[0] as int == 0xE0 + a && t[1] as int == 0x80 + b && t[2] as int == 0x80 + d;
  }

  lemma EncodeFour(x: int, t: Bytes)
    requires 0x10000 <= x < 0x110000 && |t| >= 4
    requires t[0] as int == 0xF0 + x / 0x40000 && t[1] as int == 0x80 + x / 0x1000 % 0x40
    requires t[2] as int == 0x80 + x / 0x40 % 0x40 && t[3] as int == 0x80 + x % 0x40
    ensures RuneLength(t) == 4 && !WhiteRune(t)
  {
  }

  /** Octets and characters agree on length and on white space. */
  lemma EncodeAgrees(c: char, rest: Bytes)
    ensures RuneLength(Encode(c) + rest) == |Encode(c)| == Width(c)
    ensures WhiteRune(Encode(c) + rest) <==> White(c)
  {
    var x, t := c as int, Encode(c) + rest;
    assert forall k :: 0 <= k < |Encode(c)| ==> t[k] == Encode(c)[k];
    if x < 0x80 {
    } else if x < 0x800 {
      EncodeTwo(x, t);
      hide RuneLength, WhiteRune;
    } else if x < 0x10000 {
      EncodeThree(x, t);
      hide RuneLength, WhiteRune;
    } else {
      EncodeFour(x, t);
      hide RuneLength, WhiteRune;
    }
  }

  /** The octets of a text. */
  function EncodeAll(s: string): Bytes {
    if s == "" then [] else Encode(s[0]) + EncodeAll(s[1..])
  }

  lemma {:induction false} LengthFront(s: string)
    requires s != ""
    ensures ByteLength(s) == Width(s[0]) + ByteLength(s[1..])
    decreases |s|
  {
    if |s| > 1 {
      var front := s[..|s| - 1];
      LengthFront(front);
      assert front[1..] == s[1..][..|s| - 2];
    }
  }

  /** A text and its octets agree: these are valid UTF-8, as many as `len` says, and blank exactly if
      the text is. */
  lemma {:induction false} TextAgrees(s: string)
    ensures Valid(EncodeAll(s)) && |EncodeAll(s)| == ByteLength(s)
    ensures BlankText(EncodeAll(s)) <==> Blank(s)
  {
    if s != "" {
      var rest, t := EncodeAll(s[1..]), EncodeAll(s);
      TextAgrees(s[1..]);
      LengthFront(s);
      EncodeAgrees(s[0], rest);
      assert t[|Encode(s[0])|..] == rest;
      assert Blank(s) <==> White(s[0]) && Blank(s[1..]) by {
        assert s == [s[0]] + s[1..];
      }
      hide Encode, RuneLength, WhiteRune, White, Blank, Width, ByteLength;
    }
  }

  lemma FirstOfTwo(a: int, b: int) returns (c: char)
    requires 0xC2 <= a <= 0xDF && 0x80 <= b <= 0xBF
    ensures Encode(c) == [a as byte, b as byte]
  {
    var x := (a - 0xC0) * 0x40 + (b - 0x80);
    assert x / 0x40 == a - 0xC0 && x % 0x40 == b - 0x80;
    c := x as char;
  }

  lemma FirstOfThree(a: int, b: int, d: int) returns (c: char)
    requires 0xE0 <= a <= 0xEF && 0x80 <= b <= 0xBF && 0x80 <= d <= 0xBF && (a == 0xE0 ==> b >= 0xA0)
             && (a == 0xED ==> b <= 0x9F)
    ensures Encode(c) == [a as byte, b as byte, d as byte]
  {
    var x := (a - 0xE0) * 0x1000 + (b - 0x80) * 0x40 + (d - 0x80);
    assert x / 0x1000 == a - 0xE0 && x / 0x40 == (a - 0xE0) * 0x40 + (b - 0x80);
    assert x / 0x40 % 0x40 == b - 0x80 && x % 0x40 == d - 0x80;
    c := x as char;
  }

  lemma FirstOfFour(a: int, b: int, d: int, e: int) returns (c: char)
    requires 0xF0 <= a <= 0xF4 && 0x80 <= b <= 0xBF && 0x80 <= d <= 0xBF && 0x80 <= e <= 0xBF
    requires (a == 0xF0 ==> b >= 0x90) && (a == 0xF4 ==> b <= 0x8F)
    ensures Encode(c) == [a as byte, b as byte, d as byte, e as byte]
  {
    var x := (a - 0xF0) * 0x40000 + (b - 0x80) * 0x1000 + (d - 0x80) * 0x40 + (e - 0x80);
    assert x / 0x40000 == a - 0xF0 && x / 0x1000 == (a - 0xF0) * 0x40 + (b - 0x80);
    assert x / 0x40 == ((a - 0xF0) * 0x40 + (b - 0x80)) * 0x40 + (d - 0x80);
    assert x / 0x1000 % 0x40 == b - 0x80 && x / 0x40 % 0x40 == d - 0x80 && x % 0x40 == e - 0x80;
    c := x as char;
  }

  /** The character that a valid text begins with. */
  lemma FirstCharacter(t: Bytes) returns (c: char)
    requires t != [] && RuneLength(t) > 0
    ensures Encode(c) == t[..RuneLength(t)]
  {
    hide Encode;
    match RuneLength(t)
    case 1 =>
      c := FirstOfOne(t[0] as int);
      assert t[..1] == [t[0]];
    case 2 =>
      c := FirstOfTwo(t[0] as int, t[1] as int);
      assert t[..2] == [t[0], t[1]];
    case 3 =>
      c := FirstOfThree(t[0] as int, t[1] as int, t[2] as int);
      assert t[..3] == [t[0], t[1], t[2]];
    case _ =>
      c := FirstOfFour(t[0] as int, t[1] as int, t[2] as int, t[3] as int);
      assert t[..4] == [t[0], t[1], t[2], t[3]];
  }

  lemma FirstOfOne(a: int) returns (c: char)
    requires 0 <= a <= 0x7F
    ensures Encode(c) == [a as byte]
  {
    c := a as char;
  }

  /** Valid is what some text encodes to: no overlong form, no surrogate, nothing above U+10FFFF. */
  lemma {:induction false} ValidIsText(t: Bytes) returns (s: string)
    requires Valid(t)
    ensures EncodeAll(s) == t
    decreases |t|
  {
    s := "";
    if t != [] {
      var c := FirstCharacter(t);
      var rest := ValidIsText(t[RuneLength(t)..]);
      s := [c] + rest;
      hide Encode, RuneLength;
      assert s[0] == c && s[1..] == rest;
    }
  }
}
