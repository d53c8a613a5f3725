/** Parsing what the STUN writer wrote: every field comes back, PRIORITY alone excepted. */
module StunRoundTrip {
  import opened Wire
  import opened StunMessage
  import opened StunParser
  import opened StunWriter

  // ---- plain attributes, one after the other ----

  /** What the parser's handlers make of a run of attributes written over `before`. */
  function Fold(m: Message, before: seq<byte>, pos: nat, attrs: seq<Attr>, mask: Mask): Option<Message>
    requires pos + Size(attrs) <= |before|
    decreases |attrs|
  {
    if attrs == [] then Some(m)
    else
      match Handle(m, attrs[0].typ, Overlay(before, pos + 4, attrs[0].value), mask)
      case None => None
      case Some(m') => Fold(m', before, pos + AttrSize(attrs[0]), attrs[1..], mask)
  }

  predicate Plain(attrs: seq<Attr>)
  {
    forall i :: 0 <= i < |attrs| ==> !IsIntegrity(attrs[i].typ) && attrs[i].typ != FINGERPRINT
  }

  lemma HandleKeepsIntegrities(m: Message, typ: u16, v: seq<byte>, mask: Mask)
    requires !IsIntegrity(typ) && Handle(m, typ, v, mask).Some?
    ensures Handle(m, typ, v, mask).value.integrities == m.integrities
  {
    hide ParseAddress, ParseXorAddress, ParseErrorCode, ParseAlgorithm, ParseAlgorithms, U16, U32, U64;
  }

  lemma AttrReads(buf: seq<byte>, before: seq<byte>, pos: nat, a: Attr)
    requires AttrAt(buf, before, pos, a)
    ensures U16(buf, pos) == a.typ && U16(buf, pos + 2) == |a.value|
    ensures buf[pos + 4..pos + 4 + |a.value|] == Overlay(before, pos + 4, a.value)
  {
    HasConcat(buf, pos, Be16(a.typ), Be16(|a.value|));
    ReadBe16(buf, pos, a.typ);
    ReadBe16(buf, pos + 2, |a.value|);
  }

  lemma StepIsSize(a: Attr)
    requires |a.value| + 8 < 0x1_0000
    ensures Step(|a.value|) == AttrSize(a) != 0
  {
  }

  lemma {:induction false} ParsePlain(c: Crypto, buf: seq<byte>, before: seq<byte>, pos: nat, attrs: seq<Attr>,
                                      m: Message, mask: Mask)
    requires 20 <= pos && pos + Size(attrs) <= |buf| == |before| < 0x1_0000
    requires AttrsAt(buf, before, pos, attrs) && Plain(attrs) && m.integrities == []
    ensures match Fold(m, before, pos, attrs, mask)
            case None => ParseFrom(c, buf, |buf|, pos, m, false, mask) == Rejected
            case Some(m') => m'.integrities == []
                             && ParseFrom(c, buf, |buf|, pos, m, false, mask)
                                == ParseFrom(c, buf, |buf|, pos + Size(attrs), m', false, mask)
    decreases |attrs|
  {
    hide Handle, Overlay, AttrAt, U16, Step;
    if attrs != [] {
      var a := attrs[0];
      AttrSizeCovers(a);
      AttrReads(buf, before, pos, a);
      StepIsSize(a);
      var v := Overlay(before, pos + 4, a.value);
      if Handle(m, a.typ, v, mask).Some? {
        HandleKeepsIntegrities(m, a.typ, v, mask);
        ParsePlain(c, buf, before, pos + AttrSize(a), attrs[1..], Handle(m, a.typ, v, mask).value, mask);
      }
    }
  }

  lemma {:induction false} SizeConcat(a: seq<Attr>, b: seq<Attr>)
    ensures Size(a + b) == Size(a) + Size(b)
    decreases |a|
  {
    hide AttrSize;
    if a == [] {
      assert a + b == b;
    } else {
      SizeConcat(a[1..], b);
      assert (a + b)[1..] == a[1..] + b;
    }
  }

  lemma {:induction false} FoldConcat(m: Message, before: seq<byte>, pos: nat, a: seq<Attr>, b: seq<Attr>, mask: Mask)
    requires pos + Size(a) + Size(b) <= |before|
    ensures Size(a + b) == Size(a) + Size(b)
    ensures Fold(m, before, pos, a + b, mask)
         == match Fold(m, before, pos, a, mask)
            case None => None
            case Some(m') => Fold(m', before, pos + Size(a), b, mask)
    decreases |a|
  {
    hide Handle, Overlay, AttrSize;
    SizeConcat(a, b);
    if a == [] {
      assert a + b == b;
    } else {
      assert (a + b)[0] == a[0] && (a + b)[1..] == a[1..] + b;
      AttrSizeCovers(a[0]);
      var h := Handle(m, a[0].typ, Overlay(before, pos + 4, a[0].value), mask);
      if h.Some? { FoldConcat(h.value, before, pos + AttrSize(a[0]), a[1..], b, mask); }
    }
  }

  lemma FoldOne(m: Message, before: seq<byte>, pos: nat, a: Attr, mask: Mask)
    requires pos + AttrSize(a) <= |before|
    ensures Size([a]) == AttrSize(a)
    ensures Fold(m, before, pos, [a], mask) == Handle(m, a.typ, Overlay(before, pos + 4, a.value), mask)
  {
    hide Handle;
    assert [a][1..] == [];
  }

  /** A value that is stored in full reads back in full. */
  lemma FoldLit(m: Message, before: seq<byte>, pos: nat, typ: u16, bytes: seq<byte>, mask: Mask)
    requires pos + Size([Attr(typ, Lit(bytes))]) <= |before|
    ensures Fold(m, before, pos, [Attr(typ, Lit(bytes))], mask) == Handle(m, typ, bytes, mask)
  {
    hide Handle;
    var a := Attr(typ, Lit(bytes));
    assert [a][1..] == [];
    FoldOne(m, before, pos, a, mask);
    assert Overlay(before, pos + 4, Lit(bytes)) == bytes;
  }

  // ---- values ----

  lemma ReadAddress(e: Endpoint)
    ensures ParseAddress(AddressBytes(e)) == Some(e)
  {
    var v := AddressBytes(e);
    assert v[4..] == e.ip;
    assert v[2..4] == Be16(e.port);
    ReadBe16(v, 2, e.port);
  }

  lemma ReadXorAddress(e: Endpoint, mask: Mask)
    ensures ParseXorAddress(XorAddressBytes(e, mask), mask) == Some(e)
  {
    hide Xor;
    var v := XorAddressBytes(e, mask);
    assert v[4..] == XorAll(e.ip, mask);
    assert v[2..4] == XorAll(Be16(e.port), mask);
    XorAllTwice(e.ip, mask);
    XorAllTwice(Be16(e.port), mask);
    var p := Be16(e.port);
    assert p[0..2] == p;
    ReadBe16(p, 0, e.port);
  }

  /** The error code as it comes back: its hundreds digit keeps three bits. */
  function CodeRead(e: ErrorCode): ErrorCode { e.(code := e.code / 100 % 8 * 100 + e.code % 100) }

  lemma CodeSurvives(e: ErrorCode)
    ensures CodeRead(e) == e <==> e.code < 800
  {
  }

  lemma ReadErrorCode(e: ErrorCode)
    requires |e.reason| <= 762
    ensures ParseErrorCode(ErrorCodeBytes(e)) == Some(CodeRead(e))
  {
    hide Be32, U32;
    var digit, number := e.code / 100 % 8, e.code % 100;
    var w := digit * 0x100 + number;
    var v := ErrorCodeBytes(e);
    assert v[0..4] == Be32(w) && v[4..] == e.reason;
    ReadBe32(v, 0, w);
    CodeWord(digit, number);
  }

  lemma CodeWord(digit: nat, number: nat)
    requires digit < 8 && number < 100
    ensures (digit * 0x100 + number) / 0x100 % 8 == digit && (digit * 0x100 + number) % 0x100 == number
  {
  }

  lemma ReadAlgorithm(p: PasswordAlgorithm, v: seq<byte>)
    requires |v| >= 4 + |p.params| && v[..4 + |p.params|] == Be16(p.algo) + Be16(|p.params|) + p.params
    ensures ParseAlgorithm(v) == Some(p)
  {
    assert Has(v, 0, Be16(p.algo) + Be16(|p.params|) + p.params);
    HasConcat(v, 0, Be16(p.algo) + Be16(|p.params|), p.params);
    HasConcat(v, 0, Be16(p.algo), Be16(|p.params|));
    ReadBe16(v, 0, p.algo);
    ReadBe16(v, 2, |p.params|);
  }

  /** The bytes agree with every stored cell. */
  predicate Matches(v: seq<byte>, cells: seq<Cell>)
  {
    |v| == |cells| && forall i :: 0 <= i < |cells| && cells[i].Put? ==> v[i] == cells[i].b
  }

  lemma {:induction false} AlgorithmsSize(ps: seq<PasswordAlgorithm>)
    ensures ps != [] ==> |AlgorithmsCells(ps)| >= 4
    ensures |AlgorithmsCells(ps)| % 4 == 0
  {
    if ps != [] { AlgorithmsSize(ps[1..]); }
  }

  lemma FirstEntry(first: PasswordAlgorithm, w: seq<byte>, rest: seq<Cell>)
    requires Matches(w, Padded(AlgorithmCells(first)) + rest)
    ensures ParseAlgorithm(w) == Some(first) && Align(4 + |first.params|) <= |w|
    ensures Matches(w[Align(4 + |first.params|)..], rest)
  {
    hide ParseAlgorithm, Be16;
    var lit := Be16(first.algo) + Be16(|first.params|) + first.params;
    var all := Padded(AlgorithmCells(first)) + rest;
    assert forall i :: 0 <= i < |lit| ==> all[i] == Put(lit[i]);
    assert w[..|lit|] == lit;
    ReadAlgorithm(first, w);
    var size := Align(|lit|);
    assert forall i :: 0 <= i < |rest| ==> all[size + i] == rest[i];
  }

  /** A padded list reads back whatever the padding holds. */
  lemma {:induction false} ReadAlgorithms(ps: seq<PasswordAlgorithm>, v: seq<byte>, p: nat)
    requires p <= |v| && Matches(v[p..], AlgorithmsCells(ps))
    ensures ParseAlgorithms(v, p) == Some(ps)
    decreases |ps|
  {
    hide ParseAlgorithm, Matches, AlgorithmCells;
    MatchedLength(v[p..], AlgorithmsCells(ps));
    if ps != [] {
      var size := Align(4 + |ps[0].params|);
      FirstEntry(ps[0], v[p..], AlgorithmsCells(ps[1..]));
      assert v[p + size..] == v[p..][size..];
      ReadAlgorithms(ps[1..], v, p + size);
      assert ps == [ps[0]] + ps[1..];
    }
  }

  lemma MatchedLength(v: seq<byte>, cells: seq<Cell>)
    requires Matches(v, cells)
    ensures |v| == |cells|
  {
  }

  // ---- fields ----

  lemma Chain4(x: Message, before: seq<byte>, pos: nat, a: seq<Attr>, b: seq<Attr>, c: seq<Attr>, d: seq<Attr>, mask: Mask,
               x1: Message, x2: Message, x3: Message, x4: Message)
    requires pos + Size(a) + Size(b) + Size(c) + Size(d) <= |before|
    requires Fold(x, before, pos, a, mask) == Some(x1)
    requires Fold(x1, before, pos + Size(a), b, mask) == Some(x2)
    requires Fold(x2, before, pos + Size(a) + Size(b), c, mask) == Some(x3)
    requires Fold(x3, before, pos + Size(a) + Size(b) + Size(c), d, mask) == Some(x4)
    ensures Size(a + b + c + d) == Size(a) + Size(b) + Size(c) + Size(d)
    ensures Fold(x, before, pos, a + b + c + d, mask) == Some(x4)
  {
    hide Fold, Size;
    FoldConcat(x, before, pos, a, b, mask);
    FoldConcat(x, before, pos, a + b, c, mask);
    FoldConcat(x, before, pos, a + b + c, d, mask);
  }

  lemma Chain5(x: Message, before: seq<byte>, pos: nat, a: seq<Attr>, b: seq<Attr>, c: seq<Attr>, d: seq<Attr>,
               e: seq<Attr>, mask: Mask,
               x1: Message, x2: Message, x3: Message, x4: Message, x5: Message)
    requires pos + Size(a) + Size(b) + Size(c) + Size(d) + Size(e) <= |before|
    requires Fold(x, before, pos, a, mask) == Some(x1)
    requires Fold(x1, before, pos + Size(a), b, mask) == Some(x2)
    requires Fold(x2, before, pos + Size(a) + Size(b), c, mask) == Some(x3)
    requires Fold(x3, before, pos + Size(a) + Size(b) + Size(c), d, mask) == Some(x4)
    requires Fold(x4, before, pos + Size(a) + Size(b) + Size(c) + Size(d), e, mask) == Some(x5)
    ensures Size(a + b + c + d + e) == Size(a) + Size(b) + Size(c) + Size(d) + Size(e)
    ensures Fold(x, before, pos, a + b + c + d + e, mask) == Some(x5)
  {
    hide Fold, Size;
    Chain4(x, before, pos, a, b, c, d, mask, x1, x2, x3, x4);
    FoldConcat(x, before, pos, a + b + c + d, e, mask);
  }

  lemma Size4(a: seq<Attr>, b: seq<Attr>, c: seq<Attr>, d: seq<Attr>)
    ensures Size(a + b + c + d) == Size(a) + Size(b) + Size(c) + Size(d)
  {
    hide Size;
    SizeConcat(a, b);
    SizeConcat(a + b, c);
    SizeConcat(a + b + c, d);
  }

  lemma Size5(a: seq<Attr>, b: seq<Attr>, c: seq<Attr>, d: seq<Attr>, e: seq<Attr>)
    ensures Size(a + b + c + d + e) == Size(a) + Size(b) + Size(c) + Size(d) + Size(e)
  {
    hide Size;
    Size4(a, b, c, d);
    SizeConcat(a + b + c + d, e);
  }

  /** The parser's limits on the texts that the writer does not check itself. */
  predicate Readable(m: Message)
  {
    && !TooLong(m) && |m.software| <= 763
    && (m.errorCode.Some? ==> |m.errorCode.value.reason| <= 762)
  }

  function ErrorRead(o: Option<ErrorCode>): Option<ErrorCode>
  {
    if o.None? then None else Some(CodeRead(o.value))
  }

  function AddressRead(x: Message, m: Message): Message
  {
    x.(errorCode := ErrorRead(m.errorCode), mapped := m.mapped, xorMapped := m.xorMapped, username := m.username)
  }

  lemma FoldAddress(x: Message, before: seq<byte>, pos: nat, m: Message)
    requires x.errorCode.None? && x.mapped.None? && x.xorMapped.None? && x.username == [] && Readable(m)
    requires pos + Size(AddressAttrs(m)) <= |before|
    ensures Fold(x, before, pos, AddressAttrs(m), MaskOf(m)) == Some(AddressRead(x, m))
  {
    hide Fold, Size, ErrorCodeBytes, AddressBytes, XorAddressBytes, CodeRead, ParseErrorCode, ParseAddress,
         ParseXorAddress, HandleRelay, MaskOf;
    var mask := MaskOf(m);
    var a, b, c, d := ErrorAttr(m.errorCode), MappedAttr(m.mapped), XorAttr(XOR_MAPPED_ADDRESS, m.xorMapped, mask),
                      TextAttr(USERNAME, m.username);
    Size4(a, b, c, d);
    var p1 := pos + Size(a);
    var p2 := p1 + Size(b);
    var p3 := p2 + Size(c);
    var x1 := x.(errorCode := ErrorRead(m.errorCode));
    var x2 := x1.(mapped := m.mapped);
    var x3 := x2.(xorMapped := m.xorMapped);
    var x4 := x3.(username := m.username);
    FoldNone(x, before, pos, mask);
    FoldNone(x1, before, p1, mask);
    FoldNone(x2, before, p2, mask);
    FoldNone(x3, before, p3, mask);
    if m.errorCode.Some? {
      ReadErrorCode(m.errorCode.value);
      FoldLit(x, before, pos, ERROR_CODE, ErrorCodeBytes(m.errorCode.value), mask);
    }
    if m.mapped.Some? {
      ReadAddress(m.mapped.value);
      FoldLit(x1, before, p1, MAPPED_ADDRESS, AddressBytes(m.mapped.value), mask);
    }
    if m.xorMapped.Some? {
      ReadXorAddress(m.xorMapped.value, mask);
      FoldLit(x2, before, p2, XOR_MAPPED_ADDRESS, XorAddressBytes(m.xorMapped.value, mask), mask);
    }
    if m.username != [] { FoldLit(x3, before, p3, USERNAME, m.username, mask); }
    Chain4(x, before, pos, a, b, c, d, mask, x1, x2, x3, x4);
  }

  lemma FoldNone(x: Message, before: seq<byte>, pos: nat, mask: Mask)
    ensures Size([]) == 0
    ensures pos <= |before| ==> Fold(x, before, pos, [], mask) == Some(x)
  {
  }

  function CredentialRead(x: Message, m: Message): Message
  {
    x.(pwdAlgorithm := m.pwdAlgorithm, pwdAlgorithms := m.pwdAlgorithms, realm := m.realm, nonce := m.nonce, userhash := m.userhash)
  }

  lemma FoldAlgorithms(x: Message, before: seq<byte>, pos: nat, ps: seq<PasswordAlgorithm>, mask: Mask)
    requires x.pwdAlgorithms == [] && pos + Size(AlgorithmsAttr(ps)) <= |before|
    ensures Fold(x, before, pos, AlgorithmsAttr(ps), mask) == Some(x.(pwdAlgorithms := ps))
  {
    hide ParseAlgorithms, AlgorithmsCells;
    FoldNone(x, before, pos, mask);
    if ps != [] {
      var cells := AlgorithmsCells(ps);
      assert Size([Attr(PASSWORD_ALGORITHMS, cells)]) == AttrSize(Attr(PASSWORD_ALGORITHMS, cells)) by {
        assert [Attr(PASSWORD_ALGORITHMS, cells)][1..] == [];
      }
      FoldOne(x, before, pos, Attr(PASSWORD_ALGORITHMS, cells), mask);
      var v := Overlay(before, pos + 4, cells);
      assert v[0..] == v;
      AlgorithmsSize(ps);
      ReadAlgorithms(ps, v, 0);
      assert [] + ps == ps;
    }
  }

  lemma FoldCredentials(x: Message, before: seq<byte>, pos: nat, m: Message)
    requires x.pwdAlgorithm.None? && x.pwdAlgorithms == [] && x.realm == [] && x.nonce == [] && x.userhash.None? && Readable(m)
    requires pos + Size(CredentialAttrs(m)) <= |before|
    ensures Fold(x, before, pos, CredentialAttrs(m), MaskOf(m)) == Some(CredentialRead(x, m))
  {
    hide Fold, Size, AlgorithmsAttr, ParseAlgorithm, HandleRelay, MaskOf, Be16;
    var mask := MaskOf(m);
    var a, b, c, d, e := AlgorithmAttr(m.pwdAlgorithm), AlgorithmsAttr(m.pwdAlgorithms), TextAttr(REALM, m.realm),
                         TextAttr(NONCE, m.nonce), UserhashAttr(m.userhash);
    Size5(a, b, c, d, e);
    var p1 := pos + Size(a);
    var p2 := p1 + Size(b);
    var p3 := p2 + Size(c);
    var p4 := p3 + Size(d);
    var x1 := x.(pwdAlgorithm := m.pwdAlgorithm);
    var x2 := x1.(pwdAlgorithms := m.pwdAlgorithms);
    var x3 := x2.(realm := m.realm);
    var x4 := x3.(nonce := m.nonce);
    var x5 := x4.(userhash := m.userhash);
    FoldNone(x, before, pos, mask);
    FoldNone(x2, before, p2, mask);
    FoldNone(x3, before, p3, mask);
    FoldNone(x4, before, p4, mask);
    if m.pwdAlgorithm.Some? {
      var p := m.pwdAlgorithm.value;
      var lit := Be16(p.algo) + Be16(|p.params|) + p.params;
      assert lit[..4 + |p.params|] == lit;
      ReadAlgorithm(p, lit);
      FoldLit(x, before, pos, PASSWORD_ALGORITHM, lit, mask);
    }
    FoldAlgorithms(x1, before, p1, m.pwdAlgorithms, mask);
    if m.realm != [] { FoldLit(x2, before, p2, REALM, m.realm, mask); }
    if m.nonce != [] { FoldLit(x3, before, p3, NONCE, m.nonce, mask); }
    if m.userhash.Some? { FoldLit(x4, before, p4, USERHASH, m.userhash.value, mask); }
    Chain5(x, before, pos, a, b, c, d, e, mask, x1, x2, x3, x4, x5);
  }

  /** The priority as it comes back: the low half moved up, then two bytes the writer left alone. */
  function PriorityRead(o: Option<u32>, before: seq<byte>, pos: nat): Option<u32>
    requires o.Some? ==> pos + 8 <= |before|
  {
    if o.None? then None
    else
      var low: int := o.value % 0x1_0000;
      Some(low * 0x1_0000 + U16(before, pos + 6))
  }

  /** A priority survives exactly when its halves are equal and so are the two bytes left over. */
  lemma PrioritySurvives(p: u32, before: seq<byte>, pos: nat)
    requires pos + 8 <= |before|
    ensures PriorityRead(Some(p), before, pos) == Some(p)
            <==> p / 0x1_0000 == p % 0x1_0000 && U16(before, pos + 6) == p % 0x1_0000
  {
  }

  /** In a zeroed buffer only priority zero survives; the peer-reflexive priority of a check does not. */
  lemma PriorityInZeroedBuffer(p: u32, before: seq<byte>, pos: nat)
    requires pos + 8 <= |before| && before[pos + 6] == 0 && before[pos + 7] == 0
    ensures PriorityRead(Some(p), before, pos) == Some(p) <==> p == 0
    ensures PriorityRead(Some(0x6EFFFFFF), before, pos) == Some(0xFFFF0000)
  {
  }

  lemma FoldPriority(x: Message, before: seq<byte>, pos: nat, o: Option<u32>, mask: Mask)
    requires pos + Size(PriorityAttr(o)) <= |before|
    requires x.priority.None?
    ensures o.Some? ==> pos + 8 <= |before|
    ensures Fold(x, before, pos, PriorityAttr(o), mask) == Some(x.(priority := PriorityRead(o, before, pos)))
  {
    hide HandleRelay;
    FoldNone(x, before, pos, mask);
    if o.Some? {
      var a := Attr(PRIORITY, PriorityCells(o.value));
      assert [a][1..] == [];
      FoldOne(x, before, pos, a, mask);
      var v := Overlay(before, pos + 4, a.value);
      var low := o.value % 0x1_0000;
      assert v[0..2] == Be16(low);
      ReadBe16(v, 0, low);
      assert U16(v, 2) == U16(before, pos + 6);
    }
  }

  lemma FoldToken(x: Message, before: seq<byte>, pos: nat, typ: u16, o: Option<u64>, mask: Mask)
    requires pos + Size(TokenAttr(typ, o)) <= |before|
    ensures o.None? ==> Fold(x, before, pos, TokenAttr(typ, o), mask) == Some(x)
    ensures o.Some? ==> |Be64(o.value)| == 8 && U64(Be64(o.value), 0) == o.value
    ensures o.Some? ==> Fold(x, before, pos, TokenAttr(typ, o), mask) == Handle(x, typ, Be64(o.value), mask)
  {
    hide Handle, Be64;
    FoldNone(x, before, pos, mask);
    if o.Some? {
      FoldLit(x, before, pos, typ, Be64(o.value), mask);
      var v := Be64(o.value);
      assert v[0..8] == v;
      ReadBe64(v, 0, o.value);
    }
  }

  lemma FoldFlag(x: Message, before: seq<byte>, pos: nat, on: bool, typ: u16, bytes: seq<byte>, mask: Mask)
    requires pos + Size(Flag(on, Attr(typ, Lit(bytes)))) <= |before|
    ensures Fold(x, before, pos, Flag(on, Attr(typ, Lit(bytes))), mask)
         == if on then Handle(x, typ, bytes, mask) else Some(x)
  {
    hide Handle;
    FoldNone(x, before, pos, mask);
    if on { FoldLit(x, before, pos, typ, bytes, mask); }
  }

  lemma FoldControlling(x: Message, before: seq<byte>, pos: nat, o: Option<u64>, mask: Mask)
    requires pos + Size(TokenAttr(ICE_CONTROLLING, o)) <= |before| && x.iceControlling.None?
    ensures Fold(x, before, pos, TokenAttr(ICE_CONTROLLING, o), mask) == Some(x.(iceControlling := o))
  {
    hide Fold, HandleRelay, Be64, U64;
    FoldToken(x, before, pos, ICE_CONTROLLING, o, mask);
  }

  lemma FoldControlled(x: Message, before: seq<byte>, pos: nat, o: Option<u64>, mask: Mask)
    requires pos + Size(TokenAttr(ICE_CONTROLLED, o)) <= |before| && x.iceControlled.None?
    ensures Fold(x, before, pos, TokenAttr(ICE_CONTROLLED, o), mask) == Some(x.(iceControlled := o))
  {
    hide Fold, HandleRelay, Be64, U64;
    FoldToken(x, before, pos, ICE_CONTROLLED, o, mask);
  }

  lemma FoldReservation(x: Message, before: seq<byte>, pos: nat, o: Option<u64>, mask: Mask)
    requires pos + Size(TokenAttr(RESERVATION_TOKEN, o)) <= |before| && x.reservationToken.None?
    ensures Fold(x, before, pos, TokenAttr(RESERVATION_TOKEN, o), mask) == Some(x.(reservationToken := o))
  {
    hide Fold, Be64, U64;
    FoldToken(x, before, pos, RESERVATION_TOKEN, o, mask);
  }

  lemma FoldUseCandidate(x: Message, before: seq<byte>, pos: nat, on: bool, mask: Mask)
    requires pos + Size(Flag(on, Attr(USE_CANDIDATE, []))) <= |before| && !x.useCandidate
    ensures Fold(x, before, pos, Flag(on, Attr(USE_CANDIDATE, [])), mask) == Some(x.(useCandidate := on))
  {
    hide Fold, HandleRelay;
    assert Lit([]) == [];
    FoldFlag(x, before, pos, on, USE_CANDIDATE, [], mask);
  }

  lemma FoldEven(x: Message, before: seq<byte>, pos: nat, on: bool, mask: Mask)
    requires pos + Size(Flag(on, Attr(EVEN_PORT, Lit([0x80])))) <= |before| && !x.evenPort
    ensures Fold(x, before, pos, Flag(on, Attr(EVEN_PORT, Lit([0x80]))), mask) == Some(x.(evenPort := on))
  {
    hide Fold;
    FoldFlag(x, before, pos, on, EVEN_PORT, [0x80], mask);
  }

  lemma FoldTransport(x: Message, before: seq<byte>, pos: nat, on: bool, mask: Mask)
    requires pos + Size(Flag(on, Attr(REQUESTED_TRANSPORT, Lit([17, 0, 0, 0])))) <= |before| && !x.requestedTransport
    ensures Fold(x, before, pos, Flag(on, Attr(REQUESTED_TRANSPORT, Lit([17, 0, 0, 0]))), mask)
         == Some(x.(requestedTransport := on))
  {
    hide Fold;
    FoldFlag(x, before, pos, on, REQUESTED_TRANSPORT, [17, 0, 0, 0], mask);
  }

  lemma FoldDontFragment(x: Message, before: seq<byte>, pos: nat, on: bool, mask: Mask)
    requires pos + Size(Flag(on, Attr(DONT_FRAGMENT, []))) <= |before| && !x.dontFragment
    ensures Fold(x, before, pos, Flag(on, Attr(DONT_FRAGMENT, [])), mask) == Some(x.(dontFragment := on))
  {
    hide Fold;
    assert Lit([]) == [];
    FoldFlag(x, before, pos, on, DONT_FRAGMENT, [], mask);
  }

  lemma FoldSoftware(x: Message, before: seq<byte>, pos: nat, t: Text, mask: Mask)
    requires pos + Size(TextAttr(SOFTWARE, t)) <= |before| && x.software == [] && |t| <= 763
    ensures Fold(x, before, pos, TextAttr(SOFTWARE, t), mask) == Some(x.(software := t))
  {
    hide Fold, HandleRelay;
    FoldNone(x, before, pos, mask);
    if t != [] { FoldLit(x, before, pos, SOFTWARE, t, mask); }
  }

  function IceRead(x: Message, m: Message, before: seq<byte>, pos: nat): Message
    requires m.priority.Some? ==> pos + 8 <= |before|
  {
    x.(priority := PriorityRead(m.priority, before, pos), useCandidate := m.useCandidate,
       iceControlling := m.iceControlling, iceControlled := m.iceControlled)
  }

  lemma FoldIce(x: Message, before: seq<byte>, pos: nat, m: Message)
    requires x.priority.None? && !x.useCandidate && x.iceControlling.None? && x.iceControlled.None?
    requires pos + Size(IceAttrs(m)) <= |before|
    ensures m.priority.Some? ==> pos + 8 <= |before|
    ensures Fold(x, before, pos, IceAttrs(m), MaskOf(m)) == Some(IceRead(x, m, before, pos))
  {
    hide Fold, Size, PriorityAttr, TokenAttr, PriorityRead, Flag, MaskOf;
    var mask := MaskOf(m);
    var a, b, c, d := PriorityAttr(m.priority), Flag(m.useCandidate, Attr(USE_CANDIDATE, [])),
         TokenAttr(ICE_CONTROLLING, m.iceControlling), TokenAttr(ICE_CONTROLLED, m.iceControlled);
    Size4(a, b, c, d);
    var p1 := pos + Size(a);
    var p2 := p1 + Size(b);
    var p3 := p2 + Size(c);
    FoldPriority(x, before, pos, m.priority, mask);
    var x1 := x.(priority := PriorityRead(m.priority, before, pos));
    var x2 := x1.(useCandidate := m.useCandidate);
    var x3 := x2.(iceControlling := m.iceControlling);
    var x4 := x3.(iceControlled := m.iceControlled);
    FoldUseCandidate(x1, before, p1, m.useCandidate, mask);
    FoldControlling(x2, before, p2, m.iceControlling, mask);
    FoldControlled(x3, before, p3, m.iceControlled, mask);
    Chain4(x, before, pos, a, b, c, d, mask, x1, x2, x3, x4);
  }

  lemma {:induction false} FoldPeers(x: Message, before: seq<byte>, pos: nat, es: seq<Endpoint>, mask: Mask)
    requires pos + Size(PeerAttrs(es, mask)) <= |before|
    ensures Fold(x, before, pos, PeerAttrs(es, mask), mask) == Some(x.(xorPeer := x.xorPeer + es))
    decreases |es|
  {
    hide XorAddressBytes, ParseXorAddress;
    if es == [] {
      assert x.xorPeer + [] == x.xorPeer;
    } else {
      var first := [Attr(XOR_PEER_ADDRESS, Lit(XorAddressBytes(es[0], mask)))];
      var rest := PeerAttrs(es[1..], mask);
      SizeConcat(first, rest);
      FoldConcat(x, before, pos, first, rest, mask);
      ReadXorAddress(es[0], mask);
      FoldLit(x, before, pos, XOR_PEER_ADDRESS, XorAddressBytes(es[0], mask), mask);
      FoldPeers(x.(xorPeer := x.xorPeer + [es[0]]), before, pos + Size(first), es[1..], mask);
      assert x.xorPeer + [es[0]] + es[1..] == x.xorPeer + es;
    }
  }

  function RelayRead(x: Message, m: Message): Message
  {
    x.(channelNumber := m.channelNumber, lifetime := m.lifetime, xorPeer := m.xorPeer, xorRelayed := m.xorRelayed)
  }

  lemma FoldRelay(x: Message, before: seq<byte>, pos: nat, m: Message)
    requires x.channelNumber.None? && x.lifetime.None? && x.xorPeer == [] && x.xorRelayed.None?
    requires pos + Size(RelayAttrs(m)) <= |before|
    ensures Fold(x, before, pos, RelayAttrs(m), MaskOf(m)) == Some(RelayRead(x, m))
  {
    hide Fold, Size, PeerAttrs, XorAddressBytes, ParseXorAddress, MaskOf, Be16, Be32, U16, U32;
    var mask := MaskOf(m);
    var a, b, c, d := ChannelAttr(m.channelNumber), LifetimeAttr(m.lifetime), PeerAttrs(m.xorPeer, mask),
                      XorAttr(XOR_RELAYED_ADDRESS, m.xorRelayed, mask);
    Size4(a, b, c, d);
    var p1 := pos + Size(a);
    var p2 := p1 + Size(b);
    var p3 := p2 + Size(c);
    var x1 := x.(channelNumber := m.channelNumber);
    var x2 := x1.(lifetime := m.lifetime);
    var x3 := x2.(xorPeer := m.xorPeer);
    var x4 := x3.(xorRelayed := m.xorRelayed);
    FoldNone(x, before, pos, mask);
    FoldNone(x1, before, p1, mask);
    FoldNone(x3, before, p3, mask);
    if m.channelNumber.Some? {
      var v := Be16(m.channelNumber.value) + [0, 0];
      assert v[0..2] == Be16(m.channelNumber.value);
      ReadBe16(v, 0, m.channelNumber.value);
      FoldLit(x, before, pos, CHANNEL_NUMBER, v, mask);
    }
    if m.lifetime.Some? {
      var v := Be32(m.lifetime.value);
      assert v[0..4] == v;
      ReadBe32(v, 0, m.lifetime.value);
      FoldLit(x1, before, p1, LIFETIME, v, mask);
    }
    FoldPeers(x2, before, p2, m.xorPeer, mask);
    assert [] + m.xorPeer == m.xorPeer;
    if m.xorRelayed.Some? {
      ReadXorAddress(m.xorRelayed.value, mask);
      FoldLit(x3, before, p3, XOR_RELAYED_ADDRESS, XorAddressBytes(m.xorRelayed.value, mask), mask);
    }
    Chain4(x, before, pos, a, b, c, d, mask, x1, x2, x3, x4);
  }

  function TailRead(x: Message, m: Message): Message
  {
    x.(evenPort := m.evenPort, requestedTransport := m.requestedTransport, dontFragment := m.dontFragment,
       reservationToken := m.reservationToken, software := m.software)
  }

  lemma FoldTail(x: Message, before: seq<byte>, pos: nat, m: Message)
    requires !x.evenPort && !x.requestedTransport && !x.dontFragment && x.reservationToken.None? && x.software == [] && Readable(m)
    requires pos + Size(TailAttrs(m)) <= |before|
    ensures Fold(x, before, pos, TailAttrs(m), MaskOf(m)) == Some(TailRead(x, m))
  {
    hide Fold, Size, Flag, TokenAttr, MaskOf;
    var mask := MaskOf(m);
    var a, b, c := Flag(m.evenPort, Attr(EVEN_PORT, Lit([0x80]))), Flag(m.requestedTransport,
         Attr(REQUESTED_TRANSPORT, Lit([17, 0, 0, 0]))), Flag(m.dontFragment, Attr(DONT_FRAGMENT, []));
    var d, e := TokenAttr(RESERVATION_TOKEN, m.reservationToken), TextAttr(SOFTWARE, m.software);
    Size5(a, b, c, d, e);
    var p1 := pos + Size(a);
    var p2 := p1 + Size(b);
    var p3 := p2 + Size(c);
    var p4 := p3 + Size(d);
    var x1 := x.(evenPort := m.evenPort);
    var x2 := x1.(requestedTransport := m.requestedTransport);
    var x3 := x2.(dontFragment := m.dontFragment);
    var x4 := x3.(reservationToken := m.reservationToken);
    var x5 := x4.(software := m.software);
    FoldEven(x, before, pos, m.evenPort, mask);
    FoldTransport(x1, before, p1, m.requestedTransport, mask);
    FoldDontFragment(x2, before, p2, m.dontFragment, mask);
    FoldReservation(x3, before, p3, m.reservationToken, mask);
    FoldSoftware(x4, before, p4, m.software, mask);
    Chain5(x, before, pos, a, b, c, d, e, mask, x1, x2, x3, x4, x5);
  }

  // ---- the plain part as a whole ----

  /** Where the priority attribute starts, if there is one. */
  function PriorityPos(m: Message): nat { 20 + Size(AddressAttrs(m)) + Size(CredentialAttrs(m)) }

  /** The message that comes back, before its integrity attributes are read. */
  function PlainRead(m: Message, before: seq<byte>): Message
    requires m.priority.Some? ==> PriorityPos(m) + 8 <= |before|
  {
    var x := CredentialRead(AddressRead(Blank(m.cls, m.meth, m.tid), m), m);
    TailRead(RelayRead(IceRead(x, m, before, PriorityPos(m)), m), m)
  }

  lemma FoldPlain(m: Message, before: seq<byte>)
    requires Readable(m) && 20 + Size(PlainAttrs(m)) <= |before|
    ensures m.priority.Some? ==> PriorityPos(m) + 8 <= |before|
    ensures Fold(Blank(m.cls, m.meth, m.tid), before, 20, PlainAttrs(m), MaskOf(m)) == Some(PlainRead(m, before))
  {
    hide Fold, Size, AddressAttrs, CredentialAttrs, IceAttrs, RelayAttrs, TailAttrs, Readable, ErrorRead, PriorityRead, MaskOf;
    var a, b, c, d, e := AddressAttrs(m), CredentialAttrs(m), IceAttrs(m), RelayAttrs(m), TailAttrs(m);
    Size5(a, b, c, d, e);
    var x := Blank(m.cls, m.meth, m.tid);
    var p1 := 20 + Size(a);
    var p2 := p1 + Size(b);
    var p3 := p2 + Size(c);
    var p4 := p3 + Size(d);
    FoldAddress(x, before, 20, m);
    var x1 := AddressRead(x, m);
    FoldCredentials(x1, before, p1, m);
    var x2 := CredentialRead(x1, m);
    FoldIce(x2, before, p2, m);
    var x3 := IceRead(x2, m, before, p2);
    FoldRelay(x3, before, p3, m);
    var x4 := RelayRead(x3, m);
    FoldTail(x4, before, p4, m);
    Chain5(x, before, 20, a, b, c, d, e, MaskOf(m), x1, x2, x3, x4, TailRead(x4, m));
  }

  lemma PlainConcat(a: seq<Attr>, b: seq<Attr>)
    requires Plain(a) && Plain(b)
    ensures Plain(a + b)
  {
  }

  lemma {:induction false} PeersArePlain(es: seq<Endpoint>, mask: Mask)
    ensures Plain(PeerAttrs(es, mask))
  {
    if es != [] {
      PeersArePlain(es[1..], mask);
      PlainConcat([Attr(XOR_PEER_ADDRESS, Lit(XorAddressBytes(es[0], mask)))], PeerAttrs(es[1..], mask));
    }
  }

  lemma Plain4(a: seq<Attr>, b: seq<Attr>, c: seq<Attr>, d: seq<Attr>)
    requires Plain(a) && Plain(b) && Plain(c) && Plain(d)
    ensures Plain(a + b + c + d)
  {
    hide Plain;
    PlainConcat(a, b);
    PlainConcat(a + b, c);
    PlainConcat(a + b + c, d);
  }

  lemma Plain5(a: seq<Attr>, b: seq<Attr>, c: seq<Attr>, d: seq<Attr>, e: seq<Attr>)
    requires Plain(a) && Plain(b) && Plain(c) && Plain(d) && Plain(e)
    ensures Plain(a + b + c + d + e)
  {
    hide Plain;
    Plain4(a, b, c, d);
    PlainConcat(a + b + c + d, e);
  }

  lemma AttrsArePlain(m: Message)
    ensures Plain(PlainAttrs(m))
  {
    hide PeerAttrs, ErrorCodeBytes, AddressBytes, XorAddressBytes, AlgorithmCells, AlgorithmsCells, PriorityCells, MaskOf, Lit;
    var mask := MaskOf(m);
    PeersArePlain(m.xorPeer, mask);
    Plain4(ErrorAttr(m.errorCode), MappedAttr(m.mapped), XorAttr(XOR_MAPPED_ADDRESS, m.xorMapped, mask),
           TextAttr(USERNAME, m.username));
    Plain5(AlgorithmAttr(m.pwdAlgorithm), AlgorithmsAttr(m.pwdAlgorithms), TextAttr(REALM, m.realm), TextAttr(NONCE, m.nonce),
           UserhashAttr(m.userhash));
    Plain4(PriorityAttr(m.priority), Flag(m.useCandidate, Attr(USE_CANDIDATE, [])), TokenAttr(ICE_CONTROLLING, m.iceControlling),
           TokenAttr(ICE_CONTROLLED, m.iceControlled));
    Plain4(ChannelAttr(m.channelNumber), LifetimeAttr(m.lifetime), PeerAttrs(m.xorPeer, mask),
           XorAttr(XOR_RELAYED_ADDRESS, m.xorRelayed, mask));
    Plain5(Flag(m.evenPort, Attr(EVEN_PORT, Lit([0x80]))),
           Flag(m.requestedTransport, Attr(REQUESTED_TRANSPORT, Lit([17, 0, 0, 0]))),
           Flag(m.dontFragment, Attr(DONT_FRAGMENT, [])), TokenAttr(RESERVATION_TOKEN, m.reservationToken),
           TextAttr(SOFTWARE, m.software));
    Plain5(AddressAttrs(m), CredentialAttrs(m), IceAttrs(m), RelayAttrs(m), TailAttrs(m));
  }

  /** Class, method, transaction id and every plain field: only the priority, the error code's
      hundreds digit and the never written ALTERNATE-SERVER can differ. */
  lemma PlainReadFields(m: Message, before: seq<byte>)
    requires m.priority.Some? ==> PriorityPos(m) + 8 <= |before|
    ensures PlainRead(m, before)
         == m.(priority := PriorityRead(m.priority, before, PriorityPos(m)), errorCode := ErrorRead(m.errorCode),
               alternateServer := None, integrities := [])
  {
    hide PriorityRead, ErrorRead, PriorityPos;
  }
}
