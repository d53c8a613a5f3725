/** What holds of every message the STUN writer finishes: it parses back, it authenticates,
    and its size is the one computed beforehand. */
module StunTheorems {
  import opened Wire
  import opened StunMessage
  import opened StunParser
  import opened StunWriter
  import opened StunRoundTrip

  // ---- only the message itself matters, not the rest of the buffer ----

  lemma HasCut(buf: seq<byte>, p: nat, x: seq<byte>, n: nat)
    requires Has(buf, p, x) && p + |x| <= n <= |buf|
    ensures Has(buf[..n], p, x)
  {
    assert buf[..n][p..p + |x|] == buf[p..p + |x|];
  }

  lemma {:induction false} AttrsCut(buf: seq<byte>, before: seq<byte>, pos: nat, attrs: seq<Attr>, n: nat)
    requires AttrsAt(buf, before, pos, attrs) && pos + Size(attrs) <= n <= |buf| == |before|
    ensures AttrsAt(buf[..n], before[..n], pos, attrs)
    decreases |attrs|
  {
    hide Has, Be16;
    if attrs != [] {
      var a := attrs[0];
      AttrSizeCovers(a);
      HasCut(buf, pos, Be16(a.typ) + Be16(|a.value|), n);
      HasCut(buf, pos + 4, Overlay(before, pos + 4, a.value), n);
      assert Overlay(before[..n], pos + 4, a.value) == Overlay(before, pos + 4, a.value);
      AttrsCut(buf, before, pos + AttrSize(a), attrs[1..], n);
    }
  }

  lemma CoveredCut(buf: seq<byte>, pos: nat, length: nat, n: nat)
    requires 4 <= pos <= n <= |buf|
    ensures Covered(buf[..n], pos, length) == Covered(buf, pos, length)
  {
    assert buf[..n][4..pos] == buf[4..pos] && buf[..n][..2] == buf[..2];
  }

  lemma IntegrityCut(c: Crypto, key: Text, buf: seq<byte>, pos: nat, a: Algo, n: nat)
    requires IntegrityAt(c, key, buf, pos, a) && pos + 4 + DigestSize(a) <= n <= |buf|
    ensures IntegrityAt(c, key, buf[..n], pos, a)
  {
    hide Has, Covered, Be16;
    var d := DigestSize(a);
    CoveredCut(buf, pos, pos - 20 + 4 + d, n);
    HasCut(buf, pos, Be16(IntegrityType(a)) + Be16(d), n);
    HasCut(buf, pos + 4, c.Hmac(a, key, Covered(buf, pos, pos - 20 + 4 + d)), n);
  }

  lemma FingerprintCut(c: Crypto, buf: seq<byte>, pos: nat, n: nat)
    requires FingerprintAt(c, buf, pos) && pos + 8 <= n <= |buf|
    ensures FingerprintAt(c, buf[..n], pos)
  {
    hide Has, Covered, Be16, Be32;
    CoveredCut(buf, pos, pos - 20 + 8, n);
    HasCut(buf, pos, Be16(FINGERPRINT) + Be16(4), n);
    HasCut(buf, pos + 4, Be32(c.fingerprint(Covered(buf, pos, pos - 20 + 8))), n);
  }

  lemma WrittenCut(c: Crypto, key: Text, useFingerprint: bool, before: seq<byte>, buf: seq<byte>, m: Message)
    requires Written(c, key, useFingerprint, before, buf, m)
    ensures var n := Needed(m, useFingerprint);
            n <= |buf| == |before| && Written(c, key, useFingerprint, before[..n], buf[..n], m)
  {
    hide AttrsAt, IntegrityAt, FingerprintAt, PlainAttrs, Size, IntegritySize, Has, Be16, TypeField, MaskOf;
    var n := Needed(m, useFingerprint);
    var p := 20 + Size(PlainAttrs(m));
    HasCut(buf, 0, Be16(TypeField(m.cls, m.meth)), n);
    HasCut(buf, 2, Be16(n - 20), n);
    HasCut(buf, 4, MaskOf(m), n);
    AttrsCut(buf, before, 20, PlainAttrs(m), n);
    forall i | 0 <= i < |m.integrities| ensures IntegrityAt(c, key, buf[..n], p + IntegritySize(m.integrities, i),
                                                            m.integrities[i]) {
      IntegritySizeMonotone(m.integrities, i, |m.integrities|);
      IntegrityCut(c, key, buf, p + IntegritySize(m.integrities, i), m.integrities[i], n);
    }
    if useFingerprint { FingerprintCut(c, buf, n - 8, n); }
  }

  // ---- the integrity attributes and the fingerprint are accepted ----

  lemma IntegrityReads(c: Crypto, key: Text, buf: seq<byte>, pos: nat, a: Algo)
    requires IntegrityAt(c, key, buf, pos, a)
    ensures U16(buf, pos) == IntegrityType(a) && U16(buf, pos + 2) == DigestSize(a)
    ensures buf[pos + 4..pos + 4 + DigestSize(a)] == c.Hmac(a, key, Covered(buf, pos, pos - 20 + 4 + DigestSize(a)))
  {
    hide Covered;
    HasConcat(buf, pos, Be16(IntegrityType(a)), Be16(DigestSize(a)));
    ReadBe16(buf, pos, IntegrityType(a));
    ReadBe16(buf, pos + 2, DigestSize(a));
  }

  lemma FingerprintReads(c: Crypto, buf: seq<byte>, pos: nat)
    requires FingerprintAt(c, buf, pos)
    ensures U16(buf, pos) == FINGERPRINT && U16(buf, pos + 2) == 4
    ensures U32(buf, pos + 4) == c.fingerprint(Covered(buf, pos, pos - 20 + 8))
  {
    hide Covered;
    HasConcat(buf, pos, Be16(FINGERPRINT), Be16(4));
    ReadBe16(buf, pos, FINGERPRINT);
    ReadBe16(buf, pos + 2, 4);
    ReadBe32(buf, pos + 4, c.fingerprint(Covered(buf, pos, pos - 20 + 8)));
  }

  lemma ParseEnd(c: Crypto, useFingerprint: bool, buf: seq<byte>, pos: nat, x: Message, mask: Mask)
    requires 20 <= pos && |buf| == pos + (if useFingerprint then 8 else 0)
    requires useFingerprint ==> FingerprintAt(c, buf, pos)
    ensures ParseFrom(c, buf, |buf|, pos, x, false, mask) == Parsed(x, useFingerprint)
  {
    hide Covered, U16, U32;
    if useFingerprint {
      FingerprintReads(c, buf, pos);
      assert Step(4) == 8;
    }
  }

  lemma HandleIntegrity(x: Message, a: Algo, v: seq<byte>, mask: Mask)
    requires |v| == DigestSize(a)
    ensures Handle(x, IntegrityType(a), v, mask) == Some(x.(integrities := x.integrities + [a]))
  {
  }

  /** One integrity attribute, read by the parser. */
  lemma ParseIntegrity(c: Crypto, key: Text, buf: seq<byte>, pos: nat, a: Algo, x: Message, mask: Mask)
    requires IntegrityAt(c, key, buf, pos, a)
    ensures ParseFrom(c, buf, |buf|, pos, x, false, mask)
         == ParseFrom(c, buf, |buf|, pos + 4 + DigestSize(a), x.(integrities := x.integrities + [a]), false, mask)
  {
    hide IntegrityAt, Handle, U16, Covered, IntegrityType, Step, DigestSize;
    IntegrityReads(c, key, buf, pos, a);
    IntegrityInside(c, key, buf, pos, a);
    IntegrityStep(a);
    HandleIntegrity(x, a, buf[pos + 4..pos + 4 + DigestSize(a)], mask);
  }

  lemma NthIntegrity(c: Crypto, key: Text, buf: seq<byte>, p: nat, algos: seq<Algo>, i: nat)
    requires i < |algos| && IntegritiesAt(c, key, buf, p, algos, |algos|)
    ensures IntegrityAt(c, key, buf, p + IntegritySize(algos, i), algos[i])
    ensures IntegritySize(algos, i + 1) == IntegritySize(algos, i) + 4 + DigestSize(algos[i])
  {
    hide IntegrityAt, DigestSize;
  }

  lemma {:induction false} ParseIntegrities(c: Crypto, key: Text, useFingerprint: bool, buf: seq<byte>, p: nat,
                                            algos: seq<Algo>, i: nat,
                                            x: Message, mask: Mask)
    requires 20 <= p && i <= |algos| && x.integrities == algos[..i]
    requires IntegritiesAt(c, key, buf, p, algos, |algos|)
    requires |buf| == p + IntegritySize(algos, |algos|) + (if useFingerprint then 8 else 0)
    requires useFingerprint ==> FingerprintAt(c, buf, |buf| - 8)
    ensures ParseFrom(c, buf, |buf|, p + IntegritySize(algos, i), x, false, mask)
         == Parsed(x.(integrities := algos), useFingerprint)
    decreases |algos| - i
  {
    hide IntegritiesAt, IntegrityAt, FingerprintAt, ParseFrom, IntegritySize;
    if i == |algos| {
      assert algos[..i] == algos;
      ParseEnd(c, useFingerprint, buf, p + IntegritySize(algos, i), x, mask);
    } else {
      NthIntegrity(c, key, buf, p, algos, i);
      ParseIntegrity(c, key, buf, p + IntegritySize(algos, i), algos[i], x, mask);
      assert algos[..i] + [algos[i]] == algos[..i + 1];
      ParseIntegrities(c, key, useFingerprint, buf, p, algos, i + 1, x.(integrities := x.integrities + [algos[i]]), mask);
    }
  }

  lemma IntegrityStep(a: Algo)
    ensures DigestSize(a) < 0x1_0000 && Step(DigestSize(a)) == 4 + DigestSize(a)
    ensures IsIntegrity(IntegrityType(a)) && IntegrityType(a) != FINGERPRINT
  {
  }

  /** The message that the parser reports. */
  function ReadBack(m: Message, before: seq<byte>): Message
    requires m.priority.Some? ==> PriorityPos(m) + 8 <= |before|
  {
    m.(priority := PriorityRead(m.priority, before, PriorityPos(m)), errorCode := ErrorRead(m.errorCode), alternateServer := None)
  }

  /** Whatever was in the buffer before: parsing the written bytes recovers class, method,
      transaction id and every attribute, and accepts the fingerprint. Only PRIORITY depends
      on the old bytes, and ALTERNATE-SERVER is never written. */
  lemma WrittenParses(c: Crypto, key: Text, useFingerprint: bool, before: seq<byte>, buf: seq<byte>, m: Message)
    requires Written(c, key, useFingerprint, before, buf, m) && |buf| < 0x1_0000
    requires Readable(m) && !LowBit(m.meth) && !HighBit(m.meth)
    ensures Needed(m, useFingerprint) <= |buf| == |before|
    ensures m.priority.Some? ==> PriorityPos(m) + 8 <= |before|
    ensures Parse(c, buf[..Needed(m, useFingerprint)]) == Parsed(ReadBack(m, before), useFingerprint)
  {
    hide AttrsAt, IntegritiesAt, FingerprintAt, PlainAttrs, Size, IntegritySize, Has, Readable, PriorityRead,
         ErrorRead, PriorityPos,
         Fold, ParseFrom, LowBit, HighBit, PlainRead, HeaderAt;
    WrittenCut(c, key, useFingerprint, before, buf, m);
    var n := Needed(m, useFingerprint);
    var out, prior := buf[..n], before[..n];
    FoldPlain(m, prior);
    PlainReadFields(m, prior);
    var x := PlainRead(m, prior);
    AttrsArePlain(m);
    var p := 20 + Size(PlainAttrs(m));
    var blank := Blank(m.cls, m.meth, m.tid);
    ParsePlain(c, out, prior, 20, PlainAttrs(m), blank, MaskOf(m));
    NoIntegrityYet(m.integrities);
    ParseIntegrities(c, key, useFingerprint, out, p, m.integrities, 0, x, MaskOf(m));
    HeaderReads(out, m, n);
    PriorityCut(m.priority, before, n, PriorityPos(m));
    assert x.(integrities := m.integrities) == ReadBack(m, before);
  }

  lemma NoIntegrityYet(algos: seq<Algo>)
    ensures IntegritySize(algos, 0) == 0 && algos[..0] == []
  {
  }

  lemma PriorityCut(o: Option<u32>, before: seq<byte>, n: nat, pos: nat)
    requires n <= |before| && (o.Some? ==> pos + 8 <= n)
    ensures PriorityRead(o, before[..n], pos) == PriorityRead(o, before, pos)
  {
  }

  lemma HeaderReads(buf: seq<byte>, m: Message, n: nat)
    requires HeaderAt(buf, m) && 20 <= n < 0x1_0000 && n == |buf| && Has(buf, 2, Be16(n - 20))
    requires !LowBit(m.meth) && !HighBit(m.meth)
    ensures U16(buf, 2) == n - 20 && U32(buf, 4) == MAGIC && buf[4..20] == MaskOf(m) && buf[8..20] == m.tid
    ensures ClassOf(U16(buf, 0)) == m.cls && MethodOf(U16(buf, 0)) == m.meth
  {
    hide LowBit, HighBit, TypeField, ClassOf, MethodOf;
    ReadBe16(buf, 0, TypeField(m.cls, m.meth));
    ReadBe16(buf, 2, n - 20);
    TypeFieldRoundTrip(m.cls, m.meth);
    HasConcat(buf, 4, Be32(MAGIC), m.tid);
    ReadBe32(buf, 4, MAGIC);
  }

  // ---- everything written authenticates ----

  lemma {:induction false} SearchPlain(buf: seq<byte>, before: seq<byte>, pos: nat, attrs: seq<Attr>, typ: u16)
    requires 20 <= pos && pos + Size(attrs) <= |buf| == |before| < 0x1_0000
    requires AttrsAt(buf, before, pos, attrs) && Plain(attrs) && IsIntegrity(typ)
    ensures FindAttr(buf, pos, typ) == FindAttr(buf, pos + Size(attrs), typ)
    decreases |attrs|
  {
    hide AttrAt, U16, Step;
    if attrs != [] {
      AttrSizeCovers(attrs[0]);
      assert AttrAt(buf, before, pos, attrs[0]);
      AttrReads(buf, before, pos, attrs[0]);
      AttrInside(buf, before, pos, attrs[0]);
      StepIsSize(attrs[0]);
      SearchPlain(buf, before, pos + AttrSize(attrs[0]), attrs[1..], typ);
    }
  }

  lemma AttrInside(buf: seq<byte>, before: seq<byte>, pos: nat, a: Attr)
    requires AttrAt(buf, before, pos, a)
    ensures pos + 4 + |a.value| <= |buf|
  {
  }

  /** The search stops at the first integrity attribute of the wanted kind. */
  lemma {:induction false} SearchIntegrities(c: Crypto, key: Text, buf: seq<byte>, p: nat, algos: seq<Algo>, i: nat,
                                             a: Algo) returns (k: nat)
    requires 20 <= p && i <= |algos| && IntegritiesAt(c, key, buf, p, algos, |algos|) && a in algos[i..]
    ensures i <= k < |algos| && algos[k] == a
    ensures FindAttr(buf, p + IntegritySize(algos, i), IntegrityType(a)) == At(p + IntegritySize(algos, k))
    decreases |algos| - i
  {
    hide IntegritiesAt, IntegrityAt, FindAttr, IntegritySize, IntegrityType;
    NthIntegrity(c, key, buf, p, algos, i);
    SearchIntegrity(c, key, buf, p + IntegritySize(algos, i), algos[i], a);
    if algos[i] == a {
      k := i;
    } else {
      assert algos[i..] == [algos[i]] + algos[i + 1..];
      k := SearchIntegrities(c, key, buf, p, algos, i + 1, a);
    }
  }

  lemma SearchIntegrity(c: Crypto, key: Text, buf: seq<byte>, pos: nat, here: Algo, a: Algo)
    requires IntegrityAt(c, key, buf, pos, here)
    ensures FindAttr(buf, pos, IntegrityType(a))
         == if here == a then At(pos) else FindAttr(buf, pos + 4 + DigestSize(here), IntegrityType(a))
  {
    hide IntegrityAt, U16, Step, DigestSize;
    IntegrityReads(c, key, buf, pos, here);
    IntegrityInside(c, key, buf, pos, here);
    IntegrityStep(here);
  }

  lemma IntegrityInside(c: Crypto, key: Text, buf: seq<byte>, pos: nat, a: Algo)
    requires IntegrityAt(c, key, buf, pos, a)
    ensures 20 <= pos && pos + 4 + DigestSize(a) <= |buf|
  {
  }

  /** For any hash functions: every integrity attribute emitted passes `verify` on the finished
      message under the same key, although the length field was rewritten after it. */
  lemma WrittenVerifies(c: Crypto, key: Text, useFingerprint: bool, before: seq<byte>, buf: seq<byte>, m: Message, a: Algo)
    requires Written(c, key, useFingerprint, before, buf, m) && |buf| < 0x1_0000 && a in m.integrities
    ensures Needed(m, useFingerprint) <= |buf|
    ensures Verify(c, a, key, buf[..Needed(m, useFingerprint)])
  {
    hide AttrsAt, IntegrityAt, FingerprintAt, PlainAttrs, Size, IntegritySize, Has, HeaderAt, FindAttr, U16, Covered;
    WrittenCut(c, key, useFingerprint, before, buf, m);
    var n := Needed(m, useFingerprint);
    var out, prior := buf[..n], before[..n];
    var p := 20 + Size(PlainAttrs(m));
    AttrsArePlain(m);
    IntegrityStep(a);
    SearchPlain(out, prior, 20, PlainAttrs(m), IntegrityType(a));
    NoIntegrityYet(m.integrities);
    assert m.integrities[0..] == m.integrities;
    var k := SearchIntegrities(c, key, out, p, m.integrities, 0, a);
    var pos := p + IntegritySize(m.integrities, k);
    assert IntegrityAt(c, key, out, pos, a);
    IntegrityReads(c, key, out, pos, a);
    IntegrityInside(c, key, out, pos, a);
  }
}
