/** The STUN writer: what a finished buffer holds, and the code that fills it. */
module StunWriter {
  import opened Wire
  import opened StunMessage
  import opened StunParser

  // ---- sizes ----

  function Size(attrs: seq<Attr>): nat
  {
    if attrs == [] then 0 else AttrSize(attrs[0]) + Size(attrs[1..])
  }

  /** The first `n` integrity attributes. */
  function IntegritySize(algos: seq<Algo>, n: nat): nat
    requires n <= |algos|
  {
    if n == 0 then 0 else IntegritySize(algos, n - 1) + 4 + DigestSize(algos[n - 1])
  }

  /** The whole message. */
  function Needed(m: Message, useFingerprint: bool): nat
  {
    20 + Size(PlainAttrs(m)) + IntegritySize(m.integrities, |m.integrities|) + if useFingerprint then 8 else 0
  }

  predicate TooLong(m: Message) { |m.username| > 513 || |m.realm| > 763 || |m.nonce| > 763 }

  // ---- what a finished buffer holds ----

  /** Cells laid over what was in the buffer before. */
  function Overlay(before: seq<byte>, pos: nat, cells: seq<Cell>): (r: seq<byte>)
    requires pos + |cells| <= |before|
    ensures |r| == |cells|
  {
    seq(|cells|, i requires 0 <= i < |cells| => if cells[i].Put? then cells[i].b else before[pos + i])
  }

  predicate AttrAt(buf: seq<byte>, before: seq<byte>, pos: nat, a: Attr)
  {
    && pos + 4 + |a.value| <= |buf| == |before| && |a.value| < 0x1_0000
    && Has(buf, pos, Be16(a.typ) + Be16(|a.value|))
    && Has(buf, pos + 4, Overlay(before, pos + 4, a.value))
  }

  predicate AttrsAt(buf: seq<byte>, before: seq<byte>, pos: nat, attrs: seq<Attr>)
    decreases |attrs|
  {
    attrs == [] || (AttrAt(buf, before, pos, attrs[0]) && AttrsAt(buf, before, pos + AttrSize(attrs[0]), attrs[1..]))
  }

  /** An integrity attribute at `pos` whose value is the hash of everything before it, under a
      length field that ends the message with this attribute. */
  predicate IntegrityAt(c: Crypto, key: Text, buf: seq<byte>, pos: nat, a: Algo)
  {
    && 20 <= pos && pos + 4 + DigestSize(a) <= |buf|
    && Has(buf, pos, Be16(IntegrityType(a)) + Be16(DigestSize(a)))
    && Has(buf, pos + 4, c.Hmac(a, key, Covered(buf, pos, pos - 20 + 4 + DigestSize(a))))
  }

  ghost predicate IntegritiesAt(c: Crypto, key: Text, buf: seq<byte>, pos: nat, algos: seq<Algo>, n: nat)
    requires n <= |algos|
  {
    forall i :: 0 <= i < n ==> IntegrityAt(c, key, buf, pos + IntegritySize(algos, i), algos[i])
  }

  predicate FingerprintAt(c: Crypto, buf: seq<byte>, pos: nat)
  {
    && 20 <= pos && pos + 8 <= |buf|
    && Has(buf, pos, Be16(FINGERPRINT) + Be16(4))
    && Has(buf, pos + 4, Be32(c.fingerprint(Covered(buf, pos, pos - 20 + 8))))
  }

  /** The header without its length field. */
  predicate HeaderAt(buf: seq<byte>, m: Message)
  {
    Has(buf, 0, Be16(TypeField(m.cls, m.meth))) && Has(buf, 4, MaskOf(m))
  }

  ghost predicate Written(c: Crypto, key: Text, useFingerprint: bool, before: seq<byte>, buf: seq<byte>, m: Message)
  {
    var n := Needed(m, useFingerprint);
    var p := 20 + Size(PlainAttrs(m));
    && n <= |buf| == |before|
    && HeaderAt(buf, m) && Has(buf, 2, Be16(n - 20))
    && AttrsAt(buf, before, 20, PlainAttrs(m))
    && IntegritiesAt(c, key, buf, p, m.integrities, |m.integrities|)
    && (useFingerprint ==> FingerprintAt(c, buf, n - 8))
  }

  // ---- framing ----

  /** Two buffers agree on `lo..hi`. */
  ghost predicate Same(a: seq<byte>, b: seq<byte>, lo: nat, hi: nat)
  {
    |a| == |b| && forall i :: lo <= i < hi && i < |a| ==> a[i] == b[i]
  }

  lemma HasFrame(a: seq<byte>, b: seq<byte>, p: nat, x: seq<byte>)
    requires Same(a, b, p, p + |x|) && Has(a, p, x)
    ensures Has(b, p, x)
  {
    assert a[p..p + |x|] == b[p..p + |x|];
  }

  lemma {:induction false} AttrsFrame(a: seq<byte>, b: seq<byte>, before: seq<byte>, pos: nat, attrs: seq<Attr>)
    requires AttrsAt(a, before, pos, attrs) && Same(a, b, pos, pos + Size(attrs))
    ensures AttrsAt(b, before, pos, attrs)
    decreases |attrs|
  {
    hide Has, Overlay;
    if attrs != [] {
      var x := attrs[0];
      HasFrame(a, b, pos, Be16(x.typ) + Be16(|x.value|));
      HasFrame(a, b, pos + 4, Overlay(before, pos + 4, x.value));
      AttrsFrame(a, b, before, pos + AttrSize(x), attrs[1..]);
    }
  }

  /** What was in the buffer before matters only where attributes are written. */
  lemma {:induction false} AttrsBefore(buf: seq<byte>, a: seq<byte>, b: seq<byte>, pos: nat, attrs: seq<Attr>)
    requires AttrsAt(buf, a, pos, attrs) && Same(a, b, pos, pos + Size(attrs))
    ensures AttrsAt(buf, b, pos, attrs)
    decreases |attrs|
  {
    hide Has;
    if attrs != [] {
      var x := attrs[0];
      assert Overlay(a, pos + 4, x.value) == Overlay(b, pos + 4, x.value);
      AttrsBefore(buf, a, b, pos + AttrSize(x), attrs[1..]);
    }
  }

  lemma CoveredFrame(a: seq<byte>, b: seq<byte>, pos: nat, length: nat)
    requires 4 <= pos <= |a| && Same(a, b, 0, 2) && Same(a, b, 4, pos)
    ensures Covered(a, pos, length) == Covered(b, pos, length)
  {
    assert a[..2] == b[..2] && a[4..pos] == b[4..pos];
  }

  lemma IntegrityFrame(c: Crypto, key: Text, a: seq<byte>, b: seq<byte>, pos: nat, algo: Algo)
    requires IntegrityAt(c, key, a, pos, algo)
    requires Same(a, b, 0, 2) && Same(a, b, 4, pos + 4 + DigestSize(algo))
    ensures IntegrityAt(c, key, b, pos, algo)
  {
    hide Has, Covered, Be16;
    var d := DigestSize(algo);
    CoveredFrame(a, b, pos, pos - 20 + 4 + d);
    HasFrame(a, b, pos, Be16(IntegrityType(algo)) + Be16(d));
    HasFrame(a, b, pos + 4, c.Hmac(algo, key, Covered(a, pos, pos - 20 + 4 + d)));
  }

  lemma {:induction false} IntegritySizeMonotone(algos: seq<Algo>, i: nat, n: nat)
    requires i < n <= |algos|
    ensures IntegritySize(algos, i) + 4 + DigestSize(algos[i]) <= IntegritySize(algos, n)
    decreases n
  {
    if i < n - 1 { IntegritySizeMonotone(algos, i, n - 1); }
  }

  lemma IntegritiesFrame(c: Crypto, key: Text, a: seq<byte>, b: seq<byte>, pos: nat, algos: seq<Algo>, n: nat)
    requires n <= |algos| && IntegritiesAt(c, key, a, pos, algos, n)
    requires Same(a, b, 0, 2) && Same(a, b, 4, pos + IntegritySize(algos, n))
    ensures IntegritiesAt(c, key, b, pos, algos, n)
  {
    hide IntegrityAt, IntegritySize, DigestSize;
    forall i | 0 <= i < n ensures IntegrityAt(c, key, b, pos + IntegritySize(algos, i), algos[i]) {
      IntegritySizeMonotone(algos, i, n);
      IntegrityFrame(c, key, a, b, pos + IntegritySize(algos, i), algos[i]);
    }
  }

  // ---- filling the buffer ----

  method PutCells(buf: array<byte>, pos: nat, cells: seq<Cell>)
    requires pos + |cells| <= buf.Length
    modifies buf
    ensures Has(buf[..], pos, Overlay(old(buf[..]), pos, cells))
    ensures SameOutside(old(buf[..]), buf[..], pos, pos + |cells|)
  {
    for i := 0 to |cells|
      invariant forall j :: 0 <= j < i ==> buf[pos + j] == if cells[j].Put? then cells[j].b else old(buf[pos + j])
      invariant forall j :: 0 <= j < buf.Length && !(pos <= j < pos + i) ==> buf[j] == old(buf[j])
    {
      if cells[i].Put? { buf[pos + i] := cells[i].b; }
    }
  }

  method PutBytes(buf: array<byte>, pos: nat, bytes: seq<byte>)
    requires pos + |bytes| <= buf.Length
    modifies buf
    ensures Has(buf[..], pos, bytes)
    ensures SameOutside(old(buf[..]), buf[..], pos, pos + |bytes|)
  {
    PutCells(buf, pos, Lit(bytes));
    assert Overlay(old(buf[..]), pos, Lit(bytes)) == bytes;
  }

  /** One attribute, if its header and value fit; the padding is only stepped over. */
  method PutAttr(buf: array<byte>, pos: nat, a: Attr) returns (ok: bool, next: nat)
    requires buf.Length < 0x1_0000
    modifies buf
    ensures ok <==> pos + 4 + |a.value| <= buf.Length
    ensures next == pos + AttrSize(a)
    ensures ok ==> AttrAt(buf[..], old(buf[..]), pos, a)
    ensures SameOutside(old(buf[..]), buf[..], pos, next)
  {
    hide Has;
    next := pos + AttrSize(a);
    if pos + 4 + |a.value| > buf.Length { return false, next; }
    ghost var b0 := buf[..];
    PutBytes(buf, pos, Be16(a.typ) + Be16(|a.value|));
    ghost var b1 := buf[..];
    PutCells(buf, pos + 4, a.value);
    assert Overlay(b0, pos + 4, a.value) == Overlay(b1, pos + 4, a.value);
    HasFrame(b1, buf[..], pos, Be16(a.typ) + Be16(|a.value|));
    ok := true;
  }

  method PutAttrs(buf: array<byte>, pos: nat, attrs: seq<Attr>) returns (ok: bool)
    requires buf.Length < 0x1_0000
    modifies buf
    ensures ok ==> AttrsAt(buf[..], old(buf[..]), pos, attrs)
    ensures !ok ==> pos + Size(attrs) > buf.Length
    ensures SameOutside(old(buf[..]), buf[..], pos, pos + Size(attrs))
    decreases |attrs|
  {
    hide AttrAt, AttrSize, Has;
    if attrs == [] { return true; }
    ghost var b0 := buf[..];
    AttrSizeCovers(attrs[0]);
    var next;
    ok, next := PutAttr(buf, pos, attrs[0]);
    if !ok { return; }
    ghost var b1 := buf[..];
    ok := PutAttrs(buf, next, attrs[1..]);
    if ok {
      AttrFrame(b1, buf[..], b0, pos, attrs[0]);
      AttrsBefore(buf[..], b1, b0, next, attrs[1..]);
    }
  }

  lemma AttrSizeCovers(a: Attr)
    ensures 4 + |a.value| <= AttrSize(a)
  {
  }

  lemma AttrFrame(a: seq<byte>, b: seq<byte>, before: seq<byte>, pos: nat, x: Attr)
    requires AttrAt(a, before, pos, x) && Same(a, b, pos, pos + AttrSize(x))
    ensures AttrAt(b, before, pos, x)
  {
    hide Has, Overlay, Be16;
    HasFrame(a, b, pos, Be16(x.typ) + Be16(|x.value|));
    HasFrame(a, b, pos + 4, Overlay(before, pos + 4, x.value));
  }

  /** While the length field holds `length`, the bytes before `pos` are the ones covered. */
  lemma CoveredIs(buf: seq<byte>, pos: nat, length: nat)
    requires 4 <= pos <= |buf| && Has(buf, 2, Be16(length))
    ensures buf[..pos] == Covered(buf, pos, length)
  {
    assert buf[2..4] == Be16(length);
    assert buf[..pos] == buf[..2] + buf[2..4] + buf[4..pos];
  }

  /** The length field is made to end the message with this attribute, then all before it is hashed. */
  method PutIntegrity(c: Crypto, key: Text, buf: array<byte>, pos: nat, a: Algo) returns (ok: bool)
    requires 20 <= pos && buf.Length < 0x1_0000
    modifies buf
    ensures ok <==> pos + 4 + DigestSize(a) <= buf.Length
    ensures ok ==> IntegrityAt(c, key, buf[..], pos, a)
    ensures Same(old(buf[..]), buf[..], 0, 2) && Same(old(buf[..]), buf[..], 4, pos)
    ensures Same(old(buf[..]), buf[..], pos + 4 + DigestSize(a), buf.Length)
  {
    hide Has, Covered, Be16;
    var d := DigestSize(a);
    if pos + 4 + d > buf.Length { return false; }
    PutBytes(buf, pos, Be16(IntegrityType(a)) + Be16(d));
    ghost var b1 := buf[..];
    var length := pos - 20 + 4 + d;
    PutBytes(buf, 2, Be16(length));
    ghost var b2 := buf[..];
    CoveredIs(b2, pos, length);
    var digest := c.Hmac(a, key, buf[..pos]);
    PutBytes(buf, pos + 4, digest);
    CoveredFrame(b2, buf[..], pos, length);
    HasFrame(b1, b2, pos, Be16(IntegrityType(a)) + Be16(d));
    HasFrame(b2, buf[..], pos, Be16(IntegrityType(a)) + Be16(d));
    ok := true;
  }

  method PutFingerprint(c: Crypto, buf: array<byte>, pos: nat) returns (ok: bool)
    requires 20 <= pos && buf.Length < 0x1_0000
    modifies buf
    ensures ok <==> pos + 8 <= buf.Length
    ensures ok ==> FingerprintAt(c, buf[..], pos)
    ensures Same(old(buf[..]), buf[..], 0, 2) && Same(old(buf[..]), buf[..], 4, pos)
    ensures Same(old(buf[..]), buf[..], pos + 8, buf.Length)
  {
    hide Has, Covered, Be16, Be32;
    if pos + 8 > buf.Length { return false; }
    PutBytes(buf, pos, Be16(FINGERPRINT) + Be16(4));
    ghost var b1 := buf[..];
    PutBytes(buf, 2, Be16(pos - 20 + 8));
    ghost var b2 := buf[..];
    CoveredIs(b2, pos, pos - 20 + 8);
    var sum := c.fingerprint(buf[..pos]);
    PutBytes(buf, pos + 4, Be32(sum));
    CoveredFrame(b2, buf[..], pos, pos - 20 + 8);
    HasFrame(b1, b2, pos, Be16(FINGERPRINT) + Be16(4));
    HasFrame(b2, buf[..], pos, Be16(FINGERPRINT) + Be16(4));
    ok := true;
  }

  method PutHeader(buf: array<byte>, m: Message)
    requires buf.Length >= 20
    modifies buf
    ensures HeaderAt(buf[..], m) && SameOutside(old(buf[..]), buf[..], 0, 20)
  {
    hide Has, Be16, TypeField;
    PutBytes(buf, 0, Be16(TypeField(m.cls, m.meth)));
    ghost var b1 := buf[..];
    PutBytes(buf, 2, Be16(0));
    ghost var b2 := buf[..];
    PutBytes(buf, 4, MaskOf(m));
    HasFrame(b1, b2, 0, Be16(TypeField(m.cls, m.meth)));
    HasFrame(b2, buf[..], 0, Be16(TypeField(m.cls, m.meth)));
  }

  lemma HeaderFrame(a: seq<byte>, b: seq<byte>, m: Message)
    requires HeaderAt(a, m) && Same(a, b, 0, 2) && Same(a, b, 4, 20)
    ensures HeaderAt(b, m)
  {
    hide Has, Be16, TypeField, MaskOf;
    HasFrame(a, b, 0, Be16(TypeField(m.cls, m.meth)));
    HasFrame(a, b, 4, MaskOf(m));
  }

  /** Header, plain attributes and the first `n` integrity attributes are in place. */
  ghost predicate Partial(c: Crypto, key: Text, before: seq<byte>, buf: seq<byte>, m: Message, n: nat)
    requires n <= |m.integrities|
  {
    && HeaderAt(buf, m)
    && AttrsAt(buf, before, 20, PlainAttrs(m))
    && IntegritiesAt(c, key, buf, 20 + Size(PlainAttrs(m)), m.integrities, n)
  }

  lemma PartialFrame(c: Crypto, key: Text, before: seq<byte>, a: seq<byte>, b: seq<byte>, m: Message, n: nat)
    requires n <= |m.integrities| && Partial(c, key, before, a, m, n)
    requires Same(a, b, 0, 2) && Same(a, b, 4, 20 + Size(PlainAttrs(m)) + IntegritySize(m.integrities, n))
    ensures Partial(c, key, before, b, m, n)
  {
    hide HeaderAt, AttrsAt, IntegritiesAt, PlainAttrs, Size, IntegritySize;
    HeaderFrame(a, b, m);
    AttrsFrame(a, b, before, 20, PlainAttrs(m));
    IntegritiesFrame(c, key, a, b, 20 + Size(PlainAttrs(m)), m.integrities, n);
  }

  lemma PartialNext(c: Crypto, key: Text, before: seq<byte>, buf: seq<byte>, m: Message, n: nat)
    requires n < |m.integrities| && Partial(c, key, before, buf, m, n)
    requires IntegrityAt(c, key, buf, 20 + Size(PlainAttrs(m)) + IntegritySize(m.integrities, n), m.integrities[n])
    ensures Partial(c, key, before, buf, m, n + 1)
  {
    hide HeaderAt, AttrsAt, IntegrityAt, PlainAttrs, Size, IntegritySize;
  }

  /** All integrity attributes, in order. */
  method PutIntegrities(c: Crypto, key: Text, buf: array<byte>, m: Message, ghost before: seq<byte>, start: nat)
    returns (ok: bool, pos: nat)
    requires buf.Length < 0x1_0000 && start == 20 + Size(PlainAttrs(m))
    requires Partial(c, key, before, buf[..], m, 0)
    modifies buf
    ensures ok ==> pos == start + IntegritySize(m.integrities, |m.integrities|)
    ensures ok ==> Partial(c, key, before, buf[..], m, |m.integrities|)
    ensures !ok ==> start + IntegritySize(m.integrities, |m.integrities|) > buf.Length
  {
    hide Partial, PlainAttrs, Size, IntegrityAt, DigestSize;
    pos := start;
    for i := 0 to |m.integrities|
      invariant pos == start + IntegritySize(m.integrities, i)
      invariant Partial(c, key, before, buf[..], m, i)
    {
      ghost var was := buf[..];
      IntegritySizeMonotone(m.integrities, i, |m.integrities|);
      ok := PutIntegrity(c, key, buf, pos, m.integrities[i]);
      if !ok { return; }
      PartialFrame(c, key, before, was, buf[..], m, i);
      PartialNext(c, key, before, buf[..], m, i);
      pos := pos + 4 + DigestSize(m.integrities[i]);
    }
    ok := true;
  }

  /** `message::write_to`. It fails exactly when a text is too long or the message does not fit;
      otherwise it returns the message's size and the buffer holds the message. */
  method WriteTo(c: Crypto, key: Text, useFingerprint: bool, buf: array<byte>, m: Message) returns (n: int)
    requires buf.Length < 0x1_0000
    requires m.errorCode.Some? ==> |m.errorCode.value.reason| + 4 < 0x1_0000
    modifies buf
    ensures n == if TooLong(m) || Needed(m, useFingerprint) > buf.Length then -1 else Needed(m, useFingerprint)
    ensures n >= 0 ==> Written(c, key, useFingerprint, old(buf[..]), buf[..], m)
  {
    hide PlainAttrs, Size, IntegritySize, HeaderAt, AttrsAt, FingerprintAt, Has, Be16;
    if buf.Length < 20 { return -1; }
    PutHeader(buf, m);
    if TooLong(m) { return -1; }
    ghost var b0, b1 := old(buf[..]), buf[..];
    var attrs := PlainAttrs(m);
    var ok := PutAttrs(buf, 20, attrs);
    if !ok { return -1; }
    AttrsBefore(buf[..], b1, b0, 20, attrs);
    HeaderFrame(b1, buf[..], m);
    var pos := 20 + Size(attrs);
    ok, pos := PutIntegrities(c, key, buf, m, b0, pos);
    if !ok { return -1; }
    if useFingerprint {
      ghost var b2 := buf[..];
      ok := PutFingerprint(c, buf, pos);
      if !ok { return -1; }
      PartialFrame(c, key, b0, b2, buf[..], m, |m.integrities|);
      pos := pos + 8;
    }
    if pos > buf.Length { return -1; }
    ghost var b3 := buf[..];
    PutBytes(buf, 2, Be16(pos - 20));
    PartialFrame(c, key, b0, b3, buf[..], m, |m.integrities|);
    if useFingerprint { FingerprintFrame(c, b3, buf[..], pos - 8); }
    n := pos;
  }

  lemma FingerprintFrame(c: Crypto, a: seq<byte>, b: seq<byte>, pos: nat)
    requires FingerprintAt(c, a, pos) && Same(a, b, 0, 2) && Same(a, b, 4, pos + 8)
    ensures FingerprintAt(c, b, pos)
  {
    hide Has, Covered, Be16, Be32;
    CoveredFrame(a, b, pos, pos - 20 + 8);
    HasFrame(a, b, pos, Be16(FINGERPRINT) + Be16(4));
    HasFrame(a, b, pos + 4, Be32(c.fingerprint(Covered(a, pos, pos - 20 + 8))));
  }
}
