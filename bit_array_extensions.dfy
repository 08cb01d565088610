/**
  The string form of a permission bitmap: BitArray.ToBitArrayString writes one '0'/'1'
  character per bit in index order, and string.ToBitArray reads such a string back into a
  freshly allocated BitArray of a fixed width.
 */
module BitArrayExtensions {
  import opened Common

  /** The width ToBitArray allocates, whatever the length of its input. */
  const ToBitArrayWidth := 100

  /** The width of a role's permission bitmap. */
  const RoleBitmapWidth := 256

  function BitChar(b: bool): char {
    if b then '1' else '0'
  }

  /** The characters written for `bits`, bit 0 first. */
  function BitString(bits: seq<bool>): (s: string)
    ensures |s| == |bits|
    ensures forall i :: 0 <= i < |bits| ==> s[i] == BitChar(bits[i])
  {
    if bits == [] then "" else BitString(bits[..|bits| - 1]) + [BitChar(bits[|bits| - 1])]
  }

  predicate IsBitString(s: string) {
    forall i :: 0 <= i < |s| ==> s[i] == '0' || s[i] == '1'
  }

  function Falses(n: nat): (r: seq<bool>)
    ensures |r| == n && forall i :: 0 <= i < n ==> !r[i]
  {
    seq(n, i => false)
  }

  function Zeros(n: nat): (r: string)
    ensures |r| == n && forall i :: 0 <= i < n ==> r[i] == '0'
  {
    seq(n, i => '0')
  }

  /** The bits read from `s` into `width` cleared bits: bit i is set iff s[i] is '1'. */
  function DecodeBits(s: string, width: nat): seq<bool>
    requires |s| <= width
  {
    seq(width, i requires 0 <= i < width => i < |s| && s[i] == '1')
  }

  /** BitArray.ToBitArrayString: appends one character per bit, in index order. */
  method ToBitArrayString(bitArray: array<bool>) returns (s: string)
    ensures s == BitString(bitArray[..])
  {
    s := "";
    var i := 0;
    while i < bitArray.Length
      invariant 0 <= i <= bitArray.Length
      invariant s == BitString(bitArray[..i])
    {
      assert bitArray[..i + 1][..i] == bitArray[..i];
      s := s + [BitChar(bitArray[i])];
      i := i + 1;
    }
    assert bitArray[..bitArray.Length] == bitArray[..];
  }

  /**
    Allocates `width` cleared bits and sets bit i to (s[i] == '1') for every index of `s`.
    BitArray.Set throws once i reaches the width: that is the None result.
   */
  method DecodeIntoWidth(s: string, width: nat) returns (r: Option<array<bool>>)
    ensures r.None? <==> |s| > width
    ensures r.Some? ==> fresh(r.value) && r.value.Length == width && r.value[..] == DecodeBits(s, width)
  {
    var bitArray := new bool[width](i => false);
    var i := 0;
    while i < |s|
      invariant 0 <= i <= |s| && i <= width
      invariant forall k :: 0 <= k < width ==> bitArray[k] == (k < i && s[k] == '1')
    {
      if i >= width {
        return None;
      }
      bitArray[i] := s[i] == '1';
      i := i + 1;
    }
    return Some(bitArray);
  }

  /** string.ToBitArray as written: always 100 bits wide. */
  method ToBitArray(s: string) returns (r: Option<array<bool>>)
    ensures r.None? <==> |s| > ToBitArrayWidth
    ensures r.Some? ==> fresh(r.value) && r.value[..] == DecodeBits(s, ToBitArrayWidth)
  {
    r := DecodeIntoWidth(s, ToBitArrayWidth);
  }

  /** The decoder a role bitmap needs: as wide as the bitmap itself. */
  method ToRoleBitmap(s: string) returns (r: Option<array<bool>>)
    ensures r.None? <==> |s| > RoleBitmapWidth
    ensures r.Some? ==> fresh(r.value) && r.value[..] == DecodeBits(s, RoleBitmapWidth)
  {
    r := DecodeIntoWidth(s, RoleBitmapWidth);
  }

  /** The output alphabet is {'0', '1'}. */
  lemma BitStringIsBitString(bits: seq<bool>)
    ensures IsBitString(BitString(bits))
  {
  }

  /** Reading a written bitmap back gives the bitmap followed by cleared bits up to the width. */
  lemma DecodeEncode(bits: seq<bool>, width: nat)
    requires |bits| <= width
    ensures DecodeBits(BitString(bits), width) == bits + Falses(width - |bits|)
  {
    var str := BitString(bits);
    var d := DecodeBits(str, width);
    var e := bits + Falses(width - |bits|);
    var pad := Falses(width - |bits|);
    forall i | 0 <= i < width
      ensures d[i] == e[i]
    {
      if i < |bits| {
        assert str[i] == BitChar(bits[i]);
        assert e[i] == bits[i];
      } else {
        assert d[i] == false;
        assert e[i] == pad[i - |bits|];
      }
    }
    assert |d| == |e|;
    assert d == e;
  }

  /** Writing a read bitmap gives the string followed by '0' up to the width. */
  lemma EncodeDecode(s: string, width: nat)
    requires IsBitString(s) && |s| <= width
    ensures BitString(DecodeBits(s, width)) == s + Zeros(width - |s|)
  {
    var bits := DecodeBits(s, width);
    var d := BitString(bits);
    var e := s + Zeros(width - |s|);
    forall i | 0 <= i < width
      ensures d[i] == e[i]
    {
      assert d[i] == BitChar(bits[i]);
    }
    assert d == e;
  }

  /** A bitmap exactly as wide as the decoder survives a write and read unchanged. */
  lemma ExactWidthRoundTrip(bits: seq<bool>)
    ensures DecodeBits(BitString(bits), |bits|) == bits
  {
    DecodeEncode(bits, |bits|);
    assert bits + Falses(0) == bits;
  }

  /**
    A role bitmap written with ToBitArrayString and read back with ToBitArray: for every
    256-bit bitmap the string is longer than the 100 bits ToBitArray allocates, so the read fails.
   */
  method ReadBackRoleBitmap(bitmap: array<bool>) returns (r: Option<array<bool>>)
    requires bitmap.Length == RoleBitmapWidth
    ensures r.None?
  {
    var s := ToBitArrayString(bitmap);
    r := ToBitArray(s);
  }
}
