/** Bytes and big-endian integers, as both codecs put them on the wire. */
module Wire {

  type byte = x: int | 0 <= x < 0x100
  type u16 = x: int | 0 <= x < 0x1_0000
  type u32 = x: int | 0 <= x < 0x1_0000_0000
  type u64 = x: int | 0 <= x < 0x1_0000_0000_0000_0000
  type i16 = x: int | -0x8000 <= x < 0x8000
  type i32 = x: int | -0x8000_0000 <= x < 0x8000_0000

  /** `write_big<uint16_t>`: the value is first truncated to 16 bits. */
  function Be16(v: nat): (r: seq<byte>)
    ensures |r| == 2
  {
    [v / 0x100 % 0x100, v % 0x100]
  }

  function Be32(v: nat): (r: seq<byte>)
    ensures |r| == 4
  {
    Be16(v / 0x1_0000) + Be16(v % 0x1_0000)
  }

  function Be64(v: nat): (r: seq<byte>)
    ensures |r| == 8
  {
    Be32(v / 0x1_0000_0000) + Be32(v % 0x1_0000_0000)
  }

  function U16(buf: seq<byte>, p: nat): (r: u16)
    requires p + 2 <= |buf|
  {
    var hi: int := buf[p];
    hi * 0x100 + buf[p + 1]
  }

  function U32(buf: seq<byte>, p: nat): (r: u32)
    requires p + 4 <= |buf|
  {
    var hi: int := U16(buf, p);
    hi * 0x1_0000 + U16(buf, p + 2)
  }

  function U64(buf: seq<byte>, p: nat): (r: u64)
    requires p + 8 <= |buf|
  {
    var hi: int := U32(buf, p);
    hi * 0x1_0000_0000 + U32(buf, p + 4)
  }

  /** Two's complement, as the casts between signed and unsigned words do. */
  function ToU32(v: i32): u32 { if v < 0 then v + 0x1_0000_0000 else v }
  function ToI32(v: u32): i32 { if v < 0x8000_0000 then v else v - 0x1_0000_0000 }
  function ToU16(v: i16): u16 { if v < 0 then v + 0x1_0000 else v }
  function ToI16(v: u16): i16 { if v < 0x8000 then v else v - 0x1_0000 }

  /** `bytes` lies at position `p` of `buf`. */
  predicate Has(buf: seq<byte>, p: nat, bytes: seq<byte>)
  {
    p + |bytes| <= |buf| && buf[p..p + |bytes|] == bytes
  }

  lemma HasAt(buf: seq<byte>, p: nat, bytes: seq<byte>, i: nat)
    requires Has(buf, p, bytes) && i < |bytes|
    ensures buf[p + i] == bytes[i]
  {
    assert buf[p..p + |bytes|][i] == buf[p + i];
  }

  lemma HasConcat(buf: seq<byte>, p: nat, a: seq<byte>, b: seq<byte>)
    ensures Has(buf, p, a + b) <==> Has(buf, p, a) && Has(buf, p + |a|, b)
  {
    if p + |a| + |b| <= |buf| {
      var w := buf[p..p + |a| + |b|];
      assert w[..|a|] == buf[p..p + |a|];
      assert w[|a|..] == buf[p + |a|..p + |a| + |b|];
      assert w == w[..|a|] + w[|a|..];
      assert |a + b| == |a| + |b|;
      assert (a + b)[..|a|] == a && (a + b)[|a|..] == b;
    }
  }

  lemma HasAppended(before: seq<byte>, a: seq<byte>, b: seq<byte>)
    ensures Has(before + (a + b), |before|, a) && Has(before + (a + b), |before| + |a|, b)
  {
    var buf := before + (a + b);
    assert buf[|before|..|before| + |a + b|] == a + b;
    HasConcat(buf, |before|, a, b);
  }

  /** Two buffers differ at most in `lo..hi`. */
  ghost predicate SameOutside(a: seq<byte>, b: seq<byte>, lo: nat, hi: nat)
  {
    |a| == |b| && forall i :: 0 <= i < |a| && !(lo <= i < hi) ==> a[i] == b[i]
  }

  /** Two writes, one right after the other, are one write. */
  lemma TwoWrites(a: seq<byte>, b: seq<byte>, c: seq<byte>, p: nat, q: nat, r: nat, x: seq<byte>, y: seq<byte>)
    requires p <= q <= r <= |a| && q == p + |x| && r == q + |y|
    requires SameOutside(a, b, p, q) && Has(b, p, x)
    requires SameOutside(b, c, q, r) && Has(c, q, y)
    ensures SameOutside(a, c, p, r) && Has(c, p, x + y)
  {
    assert c[p..q] == b[p..q];
    HasConcat(c, p, x, y);
  }

  /** The buffer up to the end of a write is what was there before it, and what was written. */
  lemma WriteIsAppend(a: seq<byte>, b: seq<byte>, p: nat, x: seq<byte>)
    requires p <= |a| && SameOutside(a, b, p, p + |x|) && Has(b, p, x)
    ensures b[..p + |x|] == a[..p] + x
  {
    assert b[..p + |x|] == b[..p] + b[p..p + |x|];
  }

  lemma ReadBe16(buf: seq<byte>, p: nat, v: u16)
    requires Has(buf, p, Be16(v))
    ensures U16(buf, p) == v
  {
    HasAt(buf, p, Be16(v), 0);
    HasAt(buf, p, Be16(v), 1);
  }

  lemma ReadBe32(buf: seq<byte>, p: nat, v: u32)
    requires Has(buf, p, Be32(v))
    ensures U32(buf, p) == v
  {
    HasConcat(buf, p, Be16(v / 0x1_0000), Be16(v % 0x1_0000));
    ReadBe16(buf, p, v / 0x1_0000);
    ReadBe16(buf, p + 2, v % 0x1_0000);
  }

  lemma ReadBe64(buf: seq<byte>, p: nat, v: u64)
    requires Has(buf, p, Be64(v))
    ensures U64(buf, p) == v
  {
    HasConcat(buf, p, Be32(v / 0x1_0000_0000), Be32(v % 0x1_0000_0000));
    ReadBe32(buf, p, v / 0x1_0000_0000);
    ReadBe32(buf, p + 4, v % 0x1_0000_0000);
  }

  datatype Option<+T> = None | Some(value: T)
}
