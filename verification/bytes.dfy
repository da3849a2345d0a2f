/**
 A model of the parts of Python's `struct` module and of `bytes([...])` that the
 device classes use: fixed-width integer fields packed little- or big-endian,
 two's complement for the signed formats, and the range check that makes
 `struct.pack` raise `struct.error` (and `bytes` raise `ValueError`).
 */
module Bytes {
  import opened Options

  type byte = b: int | 0 <= b < 256

  /** 256 to the power n: the number of values an n-byte field can hold. */
  function Pow256(n: nat): (r: int)
    ensures r >= 1
  {
    if n == 0 then 1 else 256 * Pow256(n - 1)
  }

  lemma Pow256Values()
    ensures Pow256(1) == 0x100 && Pow256(2) == 0x1_0000 && Pow256(4) == 0x1_0000_0000
  {
    assert Pow256(3) == 0x100_0000;
  }

  /** Byte order prefix of a struct format string: '<' or '>'. */
  datatype Order = Little | Big

  /** One item of a struct format string together with the value given for it. */
  datatype Field =
    | U8(v: int)   // 'B'
    | I8(v: int)   // 'b'
    | U16(v: int)  // 'H'
    | I16(v: int)  // 'h'
    | U32(v: int)  // 'L'
    | I32(v: int)  // 'l'
  {
    /** Number of bytes the item occupies. */
    function Width(): nat
    {
      match this
      case U8(_) => 1
      case I8(_) => 1
      case U16(_) => 2
      case I16(_) => 2
      case U32(_) => 4
      case I32(_) => 4
    }

    predicate Signed()
    {
      I8? || I16? || I32?
    }

    /** The values struct.pack accepts for this item without raising. */
    predicate InRange()
    {
      if Signed() then -Pow256(Width()) / 2 <= v < Pow256(Width()) / 2
      else 0 <= v < Pow256(Width())
    }

    /** The non-negative number whose bytes are stored: two's complement for signed items. */
    function Stored(): (u: nat)
      requires InRange()
      ensures u < Pow256(Width())
    {
      if v < 0 then v + Pow256(Width()) else v
    }
  }

  /** The n low-order bytes of u, least significant first. */
  function LittleEndian(u: nat, n: nat): (r: seq<byte>)
    ensures |r| == n
  {
    if n == 0 then [] else [u % 256] + LittleEndian(u / 256, n - 1)
  }

  /** The number a little-endian byte sequence denotes. */
  function FromLittleEndian(s: seq<byte>): (u: nat)
    ensures u < Pow256(|s|)
  {
    if s == [] then 0 else s[0] + 256 * FromLittleEndian(s[1..])
  }

  function Reverse(s: seq<byte>): (r: seq<byte>)
    ensures |r| == |s|
    ensures forall i :: 0 <= i < |s| ==> r[i] == s[|s| - 1 - i]
  {
    if s == [] then [] else Reverse(s[1..]) + [s[0]]
  }

  /** Reading bytes as an unsigned integer in the given byte order. */
  function ReadUnsigned(o: Order, s: seq<byte>): nat
  {
    if o == Little then FromLittleEndian(s) else FromLittleEndian(Reverse(s))
  }

  /** Reading bytes as a two's complement signed integer in the given byte order. */
  function ReadSigned(o: Order, s: seq<byte>): (r: int)
    ensures -Pow256(|s|) / 2 <= r < Pow256(|s|) / 2
  {
    var u := ReadUnsigned(o, s);
    if u < Pow256(|s|) / 2 then u else u - Pow256(|s|)
  }

  /** Format 'b' applied to one byte. */
  function Signed8(b: byte): (r: int)
    ensures -128 <= r < 128
    ensures b < 128 ==> r == b
    ensures b >= 128 ==> r < 0
  {
    ReadSigned(Little, [b])
  }

  /** The byte that stores v under format 'b' (negative values) or 'B'. */
  function ByteOf(v: int): (b: byte)
    requires -128 <= v < 256
    ensures b % 256 == (v + 256) % 256
  {
    if v < 0 then v + 256 else v
  }

  /** The bytes struct.pack writes for one in-range item. */
  function PackField(o: Order, f: Field): (r: seq<byte>)
    requires f.InRange()
    ensures |r| == f.Width()
  {
    var le := LittleEndian(f.Stored(), f.Width());
    if o == Little then le else Reverse(le)
  }

  function Widths(fs: seq<Field>): nat
  {
    if fs == [] then 0 else fs[0].Width() + Widths(fs[1..])
  }

  /** struct.pack: None where Python raises struct.error because a value is out of range. */
  function Pack(o: Order, fs: seq<Field>): Option<seq<byte>>
  {
    if fs == [] then Some([])
    else if !fs[0].InRange() then None
    else
      match Pack(o, fs[1..])
      case None => None
      case Some(rest) => Some(PackField(o, fs[0]) + rest)
  }

  /** struct.pack raises exactly when some value is outside its item's range, and
      otherwise writes as many bytes as the items are wide. */
  lemma {:induction false} PackDefined(o: Order, fs: seq<Field>)
    ensures Pack(o, fs).Some? <==> forall i :: 0 <= i < |fs| ==> fs[i].InRange()
    ensures Pack(o, fs).Some? ==> |Pack(o, fs).value| == Widths(fs)
  {
    if fs != [] {
      PackDefined(o, fs[1..]);
      assert forall i :: 1 <= i < |fs| ==> fs[1..][i - 1] == fs[i];
    }
  }

  /** The four bytes of an unsigned 32-bit item in either byte order. */
  lemma FourBytes(v: int)
    requires 0 <= v < 0x1_0000_0000
    ensures U32(v).InRange()
    ensures PackField(Little, U32(v)) == [v % 256, v / 0x100 % 256, v / 0x1_0000 % 256, v / 0x100_0000]
    ensures PackField(Big, U32(v)) == [v / 0x100_0000, v / 0x1_0000 % 256, v / 0x100 % 256, v % 256]
  {
    Pow256Values();
    var v1, v2, v3 := v / 0x100, v / 0x1_0000, v / 0x100_0000;
    assert v1 / 256 == v2 && v2 / 256 == v3 && v3 < 256;
    var le := LittleEndian(v, 4);
    assert le == [v % 256] + LittleEndian(v1, 3);
    assert LittleEndian(v1, 3) == [v1 % 256] + LittleEndian(v2, 2);
    assert LittleEndian(v2, 2) == [v2 % 256] + LittleEndian(v3, 1);
    assert LittleEndian(v3, 1) == [v3];
  }

  /** Packing two lists of items one after the other is packing them together. */
  lemma {:induction false} PackAppend(o: Order, xs: seq<Field>, ys: seq<Field>)
    ensures Pack(o, xs + ys).Some? <==> Pack(o, xs).Some? && Pack(o, ys).Some?
    ensures Pack(o, xs + ys).Some? ==> Pack(o, xs + ys).value == Pack(o, xs).value + Pack(o, ys).value
  {
    if xs != [] {
      PackAppend(o, xs[1..], ys);
      assert (xs + ys)[1..] == xs[1..] + ys;
      assert (xs + ys)[0] == xs[0];
    } else {
      assert xs + ys == ys;
    }
  }

  /** Packing one-byte items gives one byte per item, each its two's complement byte. */
  lemma {:induction false} PackBytes(o: Order, fs: seq<Field>)
    requires forall i :: 0 <= i < |fs| ==> fs[i].Width() == 1 && fs[i].InRange()
    ensures Pack(o, fs).Some? && |Pack(o, fs).value| == |fs|
    ensures forall i :: 0 <= i < |fs| ==> -128 <= fs[i].v < 256 && Pack(o, fs).value[i] == ByteOf(fs[i].v)
  {
    assert Pow256(1) == 256;
    if fs != [] {
      PackBytes(o, fs[1..]);
      OneByteField(o, fs[0]);
      var r := Pack(o, fs).value;
      assert r == [ByteOf(fs[0].v)] + Pack(o, fs[1..]).value;
      forall i | 1 <= i < |fs|
        ensures -128 <= fs[i].v < 256 && r[i] == ByteOf(fs[i].v)
      {
        assert fs[1..][i - 1] == fs[i];
      }
    }
  }

  /** Python's `bytes(xs)`: None where it raises ValueError for an element outside 0..255. */
  function BytesOf(xs: seq<int>): (r: Option<seq<byte>>)
    ensures r.Some? <==> forall i :: 0 <= i < |xs| ==> 0 <= xs[i] < 256
    ensures r.Some? ==> r.value == xs
  {
    if forall i :: 0 <= i < |xs| ==> 0 <= xs[i] < 256 then Some(xs) else None
  }

  // ---------------------------------------------------------------------------
  // Round trips between packing and unpacking
  // ---------------------------------------------------------------------------

  /** Reading back the little-endian bytes of a number that fits gives the number. */
  lemma {:induction false} FromLittleEndianInverse(u: nat, n: nat)
    requires u < Pow256(n)
    ensures FromLittleEndian(LittleEndian(u, n)) == u
  {
    if n > 0 {
      var s := LittleEndian(u, n);
      assert s[1..] == LittleEndian(u / 256, n - 1);
      FromLittleEndianInverse(u / 256, n - 1);
    }
  }

  /** Writing the number some bytes denote gives those bytes back. */
  lemma {:induction false} LittleEndianInverse(s: seq<byte>)
    ensures LittleEndian(FromLittleEndian(s), |s|) == s
  {
    if s != [] {
      var u := FromLittleEndian(s);
      var rest := FromLittleEndian(s[1..]);
      assert u % 256 == s[0] && u / 256 == rest;
      LittleEndianInverse(s[1..]);
    }
  }

  lemma {:induction false} ReverseReverse(s: seq<byte>)
    ensures Reverse(Reverse(s)) == s
  {
    var r := Reverse(Reverse(s));
    assert forall i :: 0 <= i < |s| ==> r[i] == s[i];
  }

  /** Unpacking the bytes of an unsigned item with the same byte order gives its value. */
  lemma UnsignedRoundTrip(o: Order, f: Field)
    requires f.InRange() && !f.Signed()
    ensures ReadUnsigned(o, PackField(o, f)) == f.v
  {
    FromLittleEndianInverse(f.Stored(), f.Width());
    if o == Big {
      ReverseReverse(LittleEndian(f.Stored(), f.Width()));
    }
  }

  /** Unpacking the bytes of a signed item with the same byte order gives its value. */
  lemma SignedRoundTrip(o: Order, f: Field)
    requires f.InRange() && f.Signed()
    ensures ReadSigned(o, PackField(o, f)) == f.v
  {
    FromLittleEndianInverse(f.Stored(), f.Width());
    if o == Big {
      ReverseReverse(LittleEndian(f.Stored(), f.Width()));
    }
  }

  /** A one-byte item is stored as its two's complement byte, whatever the byte order. */
  lemma OneByteField(o: Order, f: Field)
    requires f.InRange() && f.Width() == 1
    ensures PackField(o, f) == [ByteOf(f.v)]
  {
  }

  /** Packing a byte read with format 'b' gives the byte back. */
  lemma Signed8RoundTrip(b: byte)
    ensures I8(Signed8(b)).InRange()
    ensures PackField(Little, I8(Signed8(b))) == [b]
  {
  }
}
