/** Two's-complement integers read out of a Buffer slice, as Node's
    `readInt8`, `readUInt8`, `readInt16BE`, `readUInt32LE`, ... do for the
    reader (index.js names the method and calls it on the slice). */
module Integers {
  import opened Values
  import opened ByteOrder

  /** 256^w, the number of distinct values of a w-byte slice. */
  function Pow256(w: nat): (p: nat)
    ensures p >= 1
  {
    if w == 0 then 1 else 256 * Pow256(w - 1)
  }

  /** The slice read as a base-256 number, most significant byte first. */
  function BigEndian(s: seq<Byte>): (v: nat)
    ensures v < Pow256(|s|)
  {
    if s == [] then 0 else BigEndian(s[..|s| - 1]) * 256 + s[|s| - 1]
  }

  /** The slice read as a base-256 number, least significant byte first. */
  function LittleEndian(s: seq<Byte>): (v: nat)
    ensures v < Pow256(|s|)
  {
    if s == [] then 0 else s[0] + 256 * LittleEndian(s[1..])
  }

  function Reversed(s: seq<Byte>): (r: seq<Byte>)
  {
    if s == [] then [] else Reversed(s[1..]) + [s[0]]
  }

  lemma {:induction false} ReversedAt(s: seq<Byte>)
    ensures |Reversed(s)| == |s|
    ensures forall k :: 0 <= k < |s| ==> Reversed(s)[k] == s[|s| - 1 - k]
  {
    if s != [] {
      ReversedAt(s[1..]);
    }
  }

  /** Reading little-endian is reading big-endian after reversing the bytes. */
  lemma {:induction false} LittleIsReversedBig(s: seq<Byte>)
    ensures LittleEndian(s) == BigEndian(Reversed(s))
  {
    if s != [] {
      LittleIsReversedBig(s[1..]);
      var r := Reversed(s[1..]) + [s[0]];
      assert r[..|r| - 1] == Reversed(s[1..]);
    }
  }

  /** Peeling the most significant byte off a big-endian number. */
  lemma {:induction false} BigEndianHead(s: seq<Byte>)
    requires |s| >= 1
    ensures BigEndian(s) == s[0] * Pow256(|s| - 1) + BigEndian(s[1..])
  {
    if |s| > 1 {
      var init, tail := s[..|s| - 1], s[1..];
      BigEndianHead(init);
      assert init[1..] == tail[..|tail| - 1];
      var p, mid, last := Pow256(|s| - 2), BigEndian(init[1..]), s[|s| - 1];
      assert BigEndian(init) == s[0] * p + mid;
      assert BigEndian(tail) == mid * 256 + last;
      assert BigEndian(s) == (s[0] * p + mid) * 256 + last;
      assert Pow256(|s| - 1) == p * 256;
      Distribute(s[0], p, mid, last);
    } else {
      assert s[..0] == [] && s[1..] == [];
    }
  }

  lemma Distribute(a: int, p: int, m: int, l: int)
    ensures (a * p + m) * 256 + l == a * (p * 256) + (m * 256 + l)
  {
  }

  /** The unsigned value of a slice in the given byte order. */
  function Unsigned(s: seq<Byte>, e: Endian): (v: nat)
    ensures v < Pow256(|s|)
  {
    match e
    case BE => BigEndian(s)
    case LE => LittleEndian(s)
  }

  /** 2^(8w-1): the first unsigned w-byte value whose sign bit is set. */
  function SignBit(w: nat): (h: nat)
    requires w >= 1
    ensures 2 * h == Pow256(w)
  {
    128 * Pow256(w - 1)
  }

  /** Node's `readInt<8w><order>(0)` (signed) or `readUInt<8w><order>(0)`
      (unsigned) on a w-byte slice. */
  function Read(s: seq<Byte>, signed: bool, e: Endian): (v: int)
    requires |s| >= 1
    ensures signed ==> -(SignBit(|s|) as int) <= v < SignBit(|s|)
    ensures !signed ==> 0 <= v < Pow256(|s|)
    ensures v == Unsigned(s, e) || v == Unsigned(s, e) - Pow256(|s|)
  {
    var u := Unsigned(s, e);
    if signed && u >= SignBit(|s|) then u - Pow256(|s|) else u
  }

  /** The byte that carries the sign bit in the given order. */
  function MostSignificant(s: seq<Byte>, e: Endian): Byte
    requires |s| >= 1
  {
    match e
    case BE => s[0]
    case LE => s[|s| - 1]
  }

  /** A big-endian number reaches the sign bit exactly when its first byte
      has its top bit set. */
  lemma BigEndianSignBit(t: seq<Byte>)
    requires |t| >= 1
    ensures BigEndian(t) >= SignBit(|t|) <==> t[0] >= 128
  {
    BigEndianHead(t);
    var p, r := Pow256(|t| - 1), BigEndian(t[1..]);
    assert r < p;
    assert SignBit(|t|) == 128 * p;
    if t[0] >= 128 {
      MulMonotone(128, t[0], p);
    } else {
      MulMonotone(t[0], 127, p);
    }
  }

  lemma MulMonotone(a: nat, b: nat, p: nat)
    requires a <= b
    ensures a * p <= b * p
  {
  }

  /** A signed read is negative exactly when the most significant byte has
      its top bit set, and then it is the unsigned read less 256^w. */
  lemma SignFromTopByte(s: seq<Byte>, e: Endian)
    requires |s| >= 1
    ensures Read(s, true, e) < 0 <==> MostSignificant(s, e) >= 128
    ensures Read(s, true, e) < 0 ==> Read(s, true, e) == Read(s, false, e) - Pow256(|s|)
    ensures Read(s, true, e) >= 0 ==> Read(s, true, e) == Read(s, false, e)
  {
    if e == BE {
      BigEndianSignBit(s);
    } else {
      ReversedAt(s);
      LittleIsReversedBig(s);
      BigEndianSignBit(Reversed(s));
    }
  }

  /** One-byte reads do not depend on the byte order (Node has no BE/LE
      variant of `readInt8`). */
  lemma WidthOneIgnoresOrder(s: seq<Byte>, signed: bool)
    requires |s| == 1
    ensures Read(s, signed, BE) == Read(s, signed, LE)
  {
    assert s[..0] == [] && s[1..] == [];
  }
}
