/**
 * Fixed-width unsigned integers and their little-endian byte encodings, plus
 * the two C string routines the wire format relies on (reading a NUL-terminated
 * field and strncpy into a fixed buffer).
 */
module Bytes {

  /** An unsigned char. */
  type byte = x: int | 0 <= x < 0x100

  type u8 = x: int | 0 <= x < 0x100
  type u16 = x: int | 0 <= x < 0x1_0000
  type u32 = x: int | 0 <= x < 0x1_0000_0000
  type u64 = x: int | 0 <= x < 0x1_0000_0000_0000_0000

  /** 256 to the power n: the number of distinct values n bytes can hold. */
  function Pow256(n: nat): (r: nat)
    ensures r > 0
  {
    if n == 0 then 1 else 256 * Pow256(n - 1)
  }

  lemma Pow256Widths()
    ensures Pow256(1) == 0x100
    ensures Pow256(4) == 0x1_0000_0000
    ensures Pow256(8) == 0x1_0000_0000_0000_0000
  {
    assert Pow256(2) == 0x1_0000;
    assert Pow256(4) == 0x1_0000_0000 by { assert Pow256(3) == 0x100_0000; }
    assert Pow256(6) == 0x1_0000_0000_0000 by { assert Pow256(5) == 0x100_0000_0000; }
    assert Pow256(8) == 0x1_0000_0000_0000_0000 by { assert Pow256(7) == 0x100_0000_0000_0000; }
  }

  /** The n least significant bytes of x, least significant first. */
  function EncodeLE(x: nat, n: nat): (r: seq<byte>)
    requires x < Pow256(n)
    ensures |r| == n
  {
    if n == 0 then []
    else [(x % 256) as byte] + EncodeLE(x / 256, n - 1)
  }

  /** The number whose little-endian encoding is s. */
  function DecodeLE(s: seq<byte>): (r: nat)
    ensures r < Pow256(|s|)
  {
    if s == [] then 0
    else s[0] as nat + 256 * DecodeLE(s[1..])
  }

  lemma {:induction false} DecodeEncodeLE(x: nat, n: nat)
    requires x < Pow256(n)
    ensures DecodeLE(EncodeLE(x, n)) == x
  {
    if n > 0 {
      var s := EncodeLE(x, n);
      var lo, hi := x % 256, x / 256;
      assert s[0] as nat == lo;
      assert s[1..] == EncodeLE(hi, n - 1);
      DecodeEncodeLE(hi, n - 1);
      assert x == lo + 256 * hi;
    }
  }

  lemma {:induction false} EncodeDecodeLE(s: seq<byte>)
    ensures EncodeLE(DecodeLE(s), |s|) == s
  {
    if s != [] {
      DivModByte(s[0] as nat, DecodeLE(s[1..]));
      EncodeDecodeLE(s[1..]);
    }
  }

  lemma DivModByte(b: nat, y: nat)
    requires b < 256
    ensures (b + 256 * y) % 256 == b && (b + 256 * y) / 256 == y
  {
  }

  function EncodeU32(x: u32): (r: seq<byte>)
    ensures |r| == 4
  {
    Pow256Widths();
    EncodeLE(x, 4)
  }

  function DecodeU32(s: seq<byte>): (r: u32)
    requires |s| == 4
  {
    Pow256Widths();
    DecodeLE(s)
  }

  function EncodeU64(x: u64): (r: seq<byte>)
    ensures |r| == 8
  {
    Pow256Widths();
    EncodeLE(x, 8)
  }

  function DecodeU64(s: seq<byte>): (r: u64)
    requires |s| == 8
  {
    Pow256Widths();
    DecodeLE(s)
  }

  lemma U32RoundTrip(x: u32, s: seq<byte>)
    requires |s| == 4
    ensures DecodeU32(EncodeU32(x)) == x
    ensures EncodeU32(DecodeU32(s)) == s
  {
    Pow256Widths();
    DecodeEncodeLE(x, 4);
    EncodeDecodeLE(s);
  }

  lemma U64RoundTrip(x: u64, s: seq<byte>)
    requires |s| == 8
    ensures DecodeU64(EncodeU64(x)) == x
    ensures EncodeU64(DecodeU64(s)) == s
  {
    Pow256Widths();
    DecodeEncodeLE(x, 8);
    EncodeDecodeLE(s);
  }

  // ---------------------------------------------------------------------------
  // C strings

  /** The bytes of s before its first NUL (all of s when it holds none). */
  function CString(s: seq<byte>): (r: seq<byte>)
    ensures |r| <= |s| && r == s[..|r|]
    ensures 0 !in r
    ensures |r| < |s| ==> s[|r|] == 0
  {
    if s == [] || s[0] == 0 then []
    else [s[0]] + CString(s[1..])
  }

  /** Zero-filled buffer of n bytes. */
  function Zeros(n: nat): (r: seq<byte>)
    ensures |r| == n && forall i :: 0 <= i < n ==> r[i] == 0
  {
    seq(n, _ => 0)
  }

  /**
   * strncpy(dest, src.c_str(), n): copies the characters of src before its first
   * NUL, at most n of them, and fills the rest of the n bytes with NULs.
   */
  function Strncpy(src: seq<byte>, n: nat): (r: seq<byte>)
    ensures |r| == n
    ensures |CString(src)| >= n ==> r == CString(src)[..n] && 0 !in r
    ensures |CString(src)| < n ==> r[..|CString(src)|] == CString(src)
    ensures forall i :: |CString(src)| <= i < n ==> r[i] == 0
  {
    var c := CString(src);
    if |c| >= n then c[..n] else c + Zeros(n - |c|)
  }

  /** A string shorter than the buffer reads back unchanged from it. */
  lemma StrncpyRoundTrip(src: seq<byte>, n: nat)
    requires 0 !in src && |src| < n
    ensures CString(Strncpy(src, n)) == src
  {
    CStringOfPlain(src);
    var r := Strncpy(src, n);
    CStringOfTerminated(src, r);
  }

  lemma {:induction false} CStringOfPlain(s: seq<byte>)
    requires 0 !in s
    ensures CString(s) == s
  {
    if s != [] {
      CStringOfPlain(s[1..]);
    }
  }

  lemma {:induction false} CStringOfTerminated(c: seq<byte>, s: seq<byte>)
    requires 0 !in c && |c| < |s| && s[..|c|] == c && s[|c|] == 0
    ensures CString(s) == c
  {
    if c != [] {
      assert s[0] == c[0];
      CStringOfTerminated(c[1..], s[1..]);
    }
  }
}
