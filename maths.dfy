/** The integer helpers: the unsigned base-128 decoder capped at four bytes (unsigned
    LEB128, section 5.2.2 of the WebAssembly Core Specification 1.0, truncated), and the
    two helpers that measure and read a u32 at an offset of a byte vector. */
module Maths {
  import opened Base

  /** 2 to the power n. */
  function Pow2(n: nat): (r: nat)
    ensures r >= 1
  {
    if n == 0 then 1 else 2 * Pow2(n - 1)
  }

  lemma {:induction false} Pow2Add(m: nat, n: nat)
    ensures Pow2(m + n) == Pow2(m) * Pow2(n)
    decreases m
  {
    if m > 0 {
      Pow2Add(m - 1, n);
    }
  }

  lemma Pow2Seven(i: nat)
    ensures Pow2(7 * (i + 1)) == 128 * Pow2(7 * i)
  {
    Pow2Add(7 * i, 7);
    assert Pow2(7) == 128;
  }

  /** Splitting a shifted group off the rest of a value. */
  lemma ShlSplit(low: nat, rest: nat, i: nat)
    ensures Shl(low + 0x80 * rest, 7 * i) == Shl(low, 7 * i) + Shl(rest, 7 * (i + 1))
  {
    Pow2Seven(i);
    var p := Pow2(7 * i);
    calc {
      (low + 0x80 * rest) * p;
      low * p + (0x80 * rest) * p;
      { assert (0x80 * rest) * p == rest * (0x80 * p); }
      low * p + rest * (0x80 * p);
    }
  }

  lemma DivBound(v: nat, p: nat)
    requires v < 0x80 * p
    ensures v / 0x80 < p
  {
  }

  /** `0x7f & b`: the low seven bits of a byte. */
  function Low7(b: byte): (r: nat)
    ensures r < 0x80
  {
    (b as int) % 0x80
  }

  /** `x << shift` on a value that does not overflow. */
  function Shl(x: nat, shift: nat): nat
  {
    x * Pow2(shift)
  }

  /** The value the decoder assembles from the 7-bit groups at index i and after: the
      group of byte i, plus the rest shifted left by 7 when byte i has its high bit set.
      Index 4 is never read, whatever the high bit of byte 3 says. */
  function Chunks(b: seq<byte>, i: nat): (r: nat)
    requires |b| >= 4 && i <= 4
    ensures r < Pow2(7 * (4 - i))
    decreases 4 - i
  {
    if i == 4 then 0
    else
      var rest := if b[i] < 0x80 then 0 else Chunks(b, i + 1);
      assert rest < Pow2(7 * (3 - i)) by {
        if b[i] >= 0x80 {
          assert 4 - (i + 1) == 3 - i;
        }
      }
      Pow2Seven(3 - i);
      assert 7 * (3 - i + 1) == 7 * (4 - i);
      Low7(b[i]) + 0x80 * rest
  }

  /** The result of the four-byte unsigned decoder on a buffer of at least four bytes. */
  function ULeb32(b: seq<byte>): (r: nat)
    requires |b| >= 4
    ensures r < 0x1000_0000
  {
    assert Pow2(28) == 0x1000_0000 by {
      Pow2Add(14, 14);
      Pow2Add(7, 7);
      assert Pow2(7) == 128;
    }
    Chunks(b, 0)
  }

  /** The number of bytes a scan for a u32 examines: one more than the index of the first
      byte below 0x80 among the first four, or 4 when none of them is. When the bytes run
      out before such a byte is seen the answer is 4, which then exceeds what is there. */
  function U32Length(s: seq<byte>): (n: nat)
    ensures 1 <= n <= 4
    ensures forall j :: 0 <= j < n - 1 && j < |s| ==> s[j] >= 0x80
    ensures n < 4 ==> n <= |s| && s[n - 1] < 0x80
    ensures n == 4 && 4 <= |s| ==> forall j :: 0 <= j < 3 ==> s[j] >= 0x80
  {
    if |s| > 0 && s[0] < 0x80 then 1
    else if |s| > 1 && s[1] < 0x80 then 2
    else if |s| > 2 && s[2] < 0x80 then 3
    else 4
  }

  /** The 7-bit groups of the first n bytes, each shifted to its place and summed: the
      OR of disjoint bit ranges the decoder's loop accumulates. */
  function GroupSum(b: seq<byte>, n: nat): nat
    requires n <= |b|
  {
    if n == 0 then 0 else GroupSum(b, n - 1) + Shl(Low7(b[n - 1]), 7 * (n - 1))
  }

  /** The decoder's value is the sum of the groups of exactly the bytes the scan reads. */
  lemma {:induction false} ULeb32IsGroupSum(b: seq<byte>)
    requires |b| >= 4
    ensures ULeb32(b) == GroupSum(b, U32Length(b))
  {
    var n := U32Length(b);
    ChunksFrom(b, 0, n);
    assert Pow2(0) == 1;
  }

  lemma {:induction false} ChunksFrom(b: seq<byte>, i: nat, n: nat)
    requires |b| >= 4 && i < n && n == U32Length(b)
    ensures GroupSum(b, i) + Shl(Chunks(b, i), 7 * i) == GroupSum(b, n)
    decreases n - i
  {
    if b[i] < 0x80 {
      assert i == n - 1;
    } else {
      assert i + 1 < n || i == 3;
      if i == 3 {
        assert n == 4;
        assert Chunks(b, i) == Low7(b[i]);
      } else {
        ChunksFrom(b, i + 1, n);
        assert Chunks(b, i) == Low7(b[i]) + 0x80 * Chunks(b, i + 1);
        ShlSplit(Low7(b[i]), Chunks(b, i + 1), i);
      }
    }
  }

  /** The decoder stops right after the first byte below 0x80 and reads at most four
      bytes: two buffers that agree on the bytes it reads decode alike. */
  lemma {:induction false} ULeb32ReadsOnlyScanned(b: seq<byte>, c: seq<byte>)
    requires |b| >= 4 && |c| >= 4
    requires b[..U32Length(b)] == c[..U32Length(b)]
    ensures ULeb32(b) == ULeb32(c)
  {
    ChunksAgree(b, c, 0, U32Length(b));
  }

  lemma {:induction false} ChunksAgree(b: seq<byte>, c: seq<byte>, i: nat, n: nat)
    requires |b| >= 4 && |c| >= 4 && i <= n && n == U32Length(b)
    requires b[..n] == c[..n]
    ensures i < n ==> Chunks(b, i) == Chunks(c, i)
    decreases n - i
  {
    if i < n {
      assert b[i] == b[..n][i] == c[..n][i] == c[i];
      if b[i] >= 0x80 && i < 3 {
        ChunksAgree(b, c, i + 1, n);
      }
    }
  }

  /** Standard unsigned LEB128 encoding of v: the reference the decoder is measured
      against. */
  function EncodeULeb(v: nat): (s: seq<byte>)
    ensures |s| >= 1
    decreases v
  {
    if v < 0x80 then [v as byte] else [(v % 0x80 + 0x80) as byte] + EncodeULeb(v / 0x80)
  }

  lemma {:induction false} EncodeLength(v: nat, k: nat)
    requires k >= 1 && v < Pow2(7 * k)
    ensures |EncodeULeb(v)| <= k
    decreases v
  {
    if v >= 0x80 {
      Pow2Seven(k - 1);
      assert Pow2(7) == 0x80;
      DivBound(v, Pow2(7 * (k - 1)));
      EncodeLength(v / 0x80, k - 1);
    }
  }

  lemma {:induction false} ChunksOfEncoding(s: seq<byte>, i: nat, w: nat)
    requires |s| >= 4 && i < 4 && w < Pow2(7 * (4 - i))
    requires i + |EncodeULeb(w)| <= |s| && s[i..i + |EncodeULeb(w)|] == EncodeULeb(w)
    ensures Chunks(s, i) == w
    decreases w
  {
    var e := EncodeULeb(w);
    assert s[i] == e[0];
    assert Pow2(7) == 128;
    if w >= 0x80 {
      assert i < 3;
      Pow2Seven(3 - i);
      assert 7 * (3 - i + 1) == 7 * (4 - i);
      DivBound(w, Pow2(7 * (3 - i)));
      assert e[1..] == EncodeULeb(w / 0x80);
      assert s[i + 1..i + 1 + |e[1..]|] == e[1..];
      ChunksOfEncoding(s, i + 1, w / 0x80);
    }
  }

  /** Round trip: every value below 2^28 is recovered from its LEB128 encoding, followed
      by any padding that fills the four-byte buffer. */
  lemma ULeb32RoundTrip(v: nat, pad: seq<byte>)
    requires v < 0x1000_0000
    requires |EncodeULeb(v) + pad| >= 4
    ensures |EncodeULeb(v)| <= 4
    ensures ULeb32(EncodeULeb(v) + pad) == v
  {
    assert Pow2(28) == 0x1000_0000 by {
      Pow2Add(14, 14);
      Pow2Add(7, 7);
      assert Pow2(7) == 128;
    }
    EncodeLength(v, 4);
    var s := EncodeULeb(v) + pad;
    assert s[0..|EncodeULeb(v)|] == EncodeULeb(v);
    ChunksOfEncoding(s, 0, v);
  }

  /** v in k bytes that all carry the continuation bit, as a producer pads a size to a
      fixed width. */
  function FixedLeb(v: nat, k: nat): (s: seq<byte>)
    ensures |s| == k && forall i :: 0 <= i < k ==> s[i] >= 0x80
  {
    if k == 0 then [] else [(v % 0x80 + 0x80) as byte] + FixedLeb(v / 0x80, k - 1)
  }

  lemma {:induction false} ChunksOfFixed(s: seq<byte>, i: nat, w: nat)
    requires |s| >= 4 && i <= 4 && w < Pow2(7 * (4 - i))
    requires s[i..4] == FixedLeb(w, 4 - i)
    ensures Chunks(s, i) == w
    decreases 4 - i
  {
    if i < 4 {
      var f := FixedLeb(w, 4 - i);
      assert s[i] == f[0];
      assert Pow2(7) == 128;
      Pow2Seven(3 - i);
      assert 7 * (3 - i + 1) == 7 * (4 - i);
      DivBound(w, Pow2(7 * (3 - i)));
      assert s[i + 1..4] == f[1..];
      ChunksOfFixed(s, i + 1, w / 0x80);
    } else {
      assert Pow2(0) == 1;
    }
  }

  /** A value below 2^28 padded to four continuation bytes reads back as itself. */
  lemma FixedLebRoundTrip(v: nat)
    requires v < 0x1000_0000
    ensures ULeb32(FixedLeb(v, 4)) == v
  {
    assert Pow2(28) == 0x1000_0000 by {
      Pow2Add(14, 14);
      Pow2Add(7, 7);
      assert Pow2(7) == 128;
    }
    var s := FixedLeb(v, 4);
    assert s[0..4] == s;
    ChunksOfFixed(s, 0, v);
  }

  /** No value of 2^28 or more survives the trip, because a fifth byte is never read;
      the largest signed 32-bit value comes back as 2^28 - 1. */
  lemma ULeb32Truncates(v: nat, pad: seq<byte>)
    requires v >= 0x1000_0000
    requires |EncodeULeb(v) + pad| >= 4
    ensures ULeb32(EncodeULeb(v) + pad) != v
  {
  }

  lemma ULeb32MaxInt32()
    ensures EncodeULeb(0x7fff_ffff) == [0xff, 0xff, 0xff, 0xff, 0x07]
    ensures ULeb32(EncodeULeb(0x7fff_ffff)) == 0x0fff_ffff
  {
  }

  /** u_decLEB32: for each of at most four bytes, OR its low seven bits in at the current
      shift and stop after the first byte whose bit 7 is clear. */
  method UDecLeb32(bytes: seq<byte>) returns (result: nat)
    requires |bytes| >= 4
    ensures result == ULeb32(bytes)
    ensures result == GroupSum(bytes, U32Length(bytes))
  {
    result := 0;
    var shift := 0;
    var i := 0;
    while i < 4
      invariant 0 <= i <= 4 && shift == 7 * i
      invariant result + Shl(Chunks(bytes, i), shift) == Chunks(bytes, 0)
    {
      var b := bytes[i];
      ghost var rest := if b < 0x80 then 0 else Chunks(bytes, i + 1);
      assert Chunks(bytes, i) == Low7(b) + 0x80 * rest;
      ShlSplit(Low7(b), rest, i);
      result := result + Shl(Low7(b), shift);
      if b < 0x80 {
        assert Shl(rest, shift + 7) == 0;
        break;
      }
      shift := shift + 7;
      i := i + 1;
    }
    assert Pow2(0) == 1;
    ULeb32IsGroupSum(bytes);
  }

  /** nextu32Length: the scan over in[offset..offset+3] without bounds checks, so the
      bytes it examines must exist. */
  method NextU32Length(input: seq<byte>, offset: nat) returns (n: nat)
    requires offset <= |input| && offset + U32Length(input[offset..]) <= |input|
    ensures n == U32Length(input[offset..])
    ensures 1 <= n <= 4
    ensures forall j :: offset <= j < offset + n - 1 ==> input[j] >= 0x80
    ensures n < 4 ==> input[offset + n - 1] < 0x80
  {
    ghost var s := input[offset..];
    var i := offset;
    while i < offset + 4
      invariant offset <= i <= offset + 4 && i <= |input|
      invariant i < offset + U32Length(s) || i == offset + 4
      invariant forall j :: offset <= j < i ==> input[j] >= 0x80
    {
      assert s[i - offset] == input[i];
      if input[i] < 0x80 {
        return i - offset + 1;
      }
      i := i + 1;
    }
    return 4;
  }

  /** The four-byte buffer the reader fills: the bytes given, then 0x80 to the end. */
  function Padded(s: seq<byte>): (p: seq<byte>)
    requires |s| <= 4
    ensures |p| == 4 && p[..|s|] == s
  {
    s + seq(4 - |s|, _ => 0x80)
  }

  /** getNextu32: measure the u32, copy its bytes into a buffer preset to 0x80, decode
      the buffer, and hand back the length. */
  method GetNextU32(input: seq<byte>, offset: nat) returns (length: nat, value: nat)
    requires offset <= |input| && offset + U32Length(input[offset..]) <= |input|
    ensures length == U32Length(input[offset..])
    ensures value == ULeb32(Padded(input[offset..offset + length]))
    ensures value < 0x1000_0000
  {
    length := NextU32Length(input, offset);
    var temp := new byte[4](_ => 0x80);
    var i := offset;
    while i < offset + length
      invariant offset <= i <= offset + length
      invariant temp[..i - offset] == input[offset..i]
      invariant forall j :: i - offset <= j < 4 ==> temp[j] == 0x80
    {
      temp[i - offset] := input[i];
      i := i + 1;
    }
    assert temp[..] == Padded(input[offset..offset + length]);
    value := UDecLeb32(temp[..]);
  }

  /** The 0x80 padding never changes the value: when four bytes are there, the reader
      gives what the decoder gives on those four bytes. */
  lemma PaddingIsInert(input: seq<byte>, offset: nat)
    requires offset + 4 <= |input|
    ensures ULeb32(Padded(input[offset..offset + U32Length(input[offset..])]))
            == ULeb32(input[offset..offset + 4])
  {
    var s := input[offset..];
    var n := U32Length(s);
    var b := input[offset..offset + 4];
    assert U32Length(b) == n;
    var p := Padded(input[offset..offset + n]);
    assert p[..n] == b[..n];
    ULeb32ReadsOnlyScanned(b, p);
  }
}
