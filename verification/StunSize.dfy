/** The size computed before writing. */
module StunSize {
  import opened Wire
  import opened StunMessage
  import opened StunWriter
  import opened StunRoundTrip

  lemma SizeOne(a: Attr)
    ensures Size([a]) == Align(4 + |a.value|) && Size([]) == 0
  {
    assert [a][1..] == [];
  }

  lemma FlagSize(on: bool, a: Attr)
    ensures Size(Flag(on, a)) == if on then Align(4 + |a.value|) else 0
  {
    SizeOne(a);
  }

  lemma TokenSize(typ: u16, o: Option<u64>)
    ensures Size(TokenAttr(typ, o)) == if o.Some? then 12 else 0
  {
    SizeOne(Attr(typ, if o.Some? then Lit(Be64(o.value)) else []));
  }

  lemma TextSize(typ: u16, t: Text)
    ensures Size(TextAttr(typ, t)) == if t == [] then 0 else Align(4 + |t|)
  {
    SizeOne(Attr(typ, Lit(t)));
  }

  function EndpointSize(e: Endpoint): nat { if |e.ip| == 4 then 12 else 24 }

  lemma AddressSizes(e: Endpoint, typ: u16, mask: Mask)
    ensures Size([Attr(MAPPED_ADDRESS, Lit(AddressBytes(e)))]) == EndpointSize(e)
    ensures Size([Attr(typ, Lit(XorAddressBytes(e, mask)))]) == EndpointSize(e)
  {
    SizeOne(Attr(MAPPED_ADDRESS, Lit(AddressBytes(e))));
    SizeOne(Attr(typ, Lit(XorAddressBytes(e, mask))));
  }

  method AddressSize(m: Message) returns (total: nat)
    ensures total == Size(AddressAttrs(m))
  {
    hide Size, AddressBytes, XorAddressBytes, MaskOf;
    var mask := MaskOf(m);
    Size4(ErrorAttr(m.errorCode), MappedAttr(m.mapped), XorAttr(XOR_MAPPED_ADDRESS, m.xorMapped, mask),
          TextAttr(USERNAME, m.username));
    SizeOne(Attr(USERNAME, Lit(m.username)));
    total := 0;
    if m.errorCode.Some? {
      SizeOne(Attr(ERROR_CODE, Lit(ErrorCodeBytes(m.errorCode.value))));
      total := total + Align(4 + 4 + |m.errorCode.value.reason|);
    }
    if m.mapped.Some? {
      AddressSizes(m.mapped.value, 0, mask);
      total := total + EndpointSize(m.mapped.value);
    }
    if m.xorMapped.Some? {
      AddressSizes(m.xorMapped.value, XOR_MAPPED_ADDRESS, mask);
      total := total + EndpointSize(m.xorMapped.value);
    }
    if m.username != [] { total := total + Align(4 + |m.username|); }
  }

  lemma CredentialSizes(m: Message)
    ensures Size(AlgorithmAttr(m.pwdAlgorithm)) == if m.pwdAlgorithm.Some? then Align(8 + |m.pwdAlgorithm.value.params|) else 0
    ensures Size(AlgorithmsAttr(m.pwdAlgorithms)) == if m.pwdAlgorithms == [] then 0 else 4 + |AlgorithmsCells(m.pwdAlgorithms)|
    ensures Size(UserhashAttr(m.userhash)) == if m.userhash.Some? then 36 else 0
  {
    hide Size, AlgorithmsCells;
    SizeOne(Attr(PASSWORD_ALGORITHM, if m.pwdAlgorithm.Some? then AlgorithmCells(m.pwdAlgorithm.value) else []));
    SizeOne(Attr(PASSWORD_ALGORITHMS, AlgorithmsCells(m.pwdAlgorithms)));
    AlgorithmsSize(m.pwdAlgorithms);
    SizeOne(Attr(USERHASH, if m.userhash.Some? then Lit(m.userhash.value) else []));
  }

  method CredentialSize(m: Message) returns (total: nat)
    ensures total == Size(CredentialAttrs(m))
  {
    hide Size, AlgorithmsCells, TextAttr, AlgorithmAttr, AlgorithmsAttr, UserhashAttr, Align;
    Size5(AlgorithmAttr(m.pwdAlgorithm), AlgorithmsAttr(m.pwdAlgorithms), TextAttr(REALM, m.realm),
          TextAttr(NONCE, m.nonce), UserhashAttr(m.userhash));
    TextSize(REALM, m.realm);
    TextSize(NONCE, m.nonce);
    CredentialSizes(m);
    total := 0;
    if m.pwdAlgorithm.Some? { total := total + Align(4 + 4 + |m.pwdAlgorithm.value.params|); }
    if m.pwdAlgorithms != [] {
      var cells := AlgorithmsLength(m.pwdAlgorithms);
      total := total + 4 + cells;
    }
    if m.realm != [] { total := total + Align(4 + |m.realm|); }
    if m.nonce != [] { total := total + Align(4 + |m.nonce|); }
    if m.userhash.Some? { total := total + 4 + 32; }
  }

  method AlgorithmsLength(ps: seq<PasswordAlgorithm>) returns (n: nat)
    ensures n == |AlgorithmsCells(ps)|
  {
    n := 0;
    for i := 0 to |ps|
      invariant n + |AlgorithmsCells(ps[i..])| == |AlgorithmsCells(ps)|
    {
      assert ps[i..][1..] == ps[i + 1..];
      n := n + Align(4 + |ps[i].params|);
    }
  }

  method IceSize(m: Message) returns (total: nat)
    ensures total == Size(IceAttrs(m))
  {
    hide Size, Flag, TokenAttr;
    Size4(PriorityAttr(m.priority), Flag(m.useCandidate, Attr(USE_CANDIDATE, [])), TokenAttr(ICE_CONTROLLING, m.iceControlling),
          TokenAttr(ICE_CONTROLLED, m.iceControlled));
    FlagSize(m.useCandidate, Attr(USE_CANDIDATE, []));
    TokenSize(ICE_CONTROLLING, m.iceControlling);
    TokenSize(ICE_CONTROLLED, m.iceControlled);
    SizeOne(Attr(PRIORITY, if m.priority.Some? then PriorityCells(m.priority.value) else []));
    total := 0;
    if m.priority.Some? { total := total + 4 + 4; }
    if m.useCandidate { total := total + 4; }
    if m.iceControlling.Some? { total := total + 4 + 8; }
    if m.iceControlled.Some? { total := total + 4 + 8; }
  }

  method PeersSize(es: seq<Endpoint>, ghost mask: Mask) returns (total: nat)
    ensures total == Size(PeerAttrs(es, mask))
  {
    hide Size, XorAddressBytes;
    total := 0;
    assert es[0..] == es;
    for i := 0 to |es|
      invariant total + Size(PeerAttrs(es[i..], mask)) == Size(PeerAttrs(es, mask))
    {
      var here := [Attr(XOR_PEER_ADDRESS, Lit(XorAddressBytes(es[i], mask)))];
      assert es[i..][1..] == es[i + 1..];
      SizeConcat(here, PeerAttrs(es[i + 1..], mask));
      AddressSizes(es[i], XOR_PEER_ADDRESS, mask);
      total := total + EndpointSize(es[i]);
    }
    SizeOne(Attr(0, []));
  }

  method RelaySize(m: Message) returns (total: nat)
    ensures total == Size(RelayAttrs(m))
  {
    hide Size, PeerAttrs, XorAddressBytes, MaskOf;
    var mask := MaskOf(m);
    Size4(ChannelAttr(m.channelNumber), LifetimeAttr(m.lifetime), PeerAttrs(m.xorPeer, mask),
         XorAttr(XOR_RELAYED_ADDRESS, m.xorRelayed, mask));
    SizeOne(Attr(0, []));
    total := 0;
    if m.channelNumber.Some? {
      SizeOne(Attr(CHANNEL_NUMBER, Lit(Be16(m.channelNumber.value) + [0, 0])));
      total := total + Align(4 + 4);
    }
    if m.lifetime.Some? { SizeOne(Attr(LIFETIME, Lit(Be32(m.lifetime.value)))); total := total + 4 + 4; }
    var peers := PeersSize(m.xorPeer, mask);
    total := total + peers;
    if m.xorRelayed.Some? {
      AddressSizes(m.xorRelayed.value, XOR_RELAYED_ADDRESS, mask);
      total := total + EndpointSize(m.xorRelayed.value);
    }
  }

  /** What the software text really takes; the size calculation assumes 16 bytes for it. */
  function SoftwareSize(m: Message): nat { if m.software == [] then 0 else Align(4 + |m.software|) }

  method TailSize(m: Message) returns (total: nat)
    ensures total + SoftwareSize(m) == Size(TailAttrs(m))
  {
    hide Size, Flag, TokenAttr, TextAttr;
    var a, b, c := Flag(m.evenPort, Attr(EVEN_PORT, Lit([0x80]))), Flag(m.requestedTransport,
         Attr(REQUESTED_TRANSPORT, Lit([17, 0, 0, 0]))), Flag(m.dontFragment, Attr(DONT_FRAGMENT, []));
    Size5(a, b, c, TokenAttr(RESERVATION_TOKEN, m.reservationToken), TextAttr(SOFTWARE, m.software));
    FlagSize(m.evenPort, Attr(EVEN_PORT, Lit([0x80])));
    FlagSize(m.requestedTransport, Attr(REQUESTED_TRANSPORT, Lit([17, 0, 0, 0])));
    FlagSize(m.dontFragment, Attr(DONT_FRAGMENT, []));
    TokenSize(RESERVATION_TOKEN, m.reservationToken);
    TextSize(SOFTWARE, m.software);
    total := 0;
    if m.evenPort { total := total + Align(4 + 1); }
    if m.requestedTransport { total := total + Align(4 + 4); }
    if m.dontFragment { total := total + 4; }
    if m.reservationToken.Some? { total := total + 4 + 8; }
  }

  lemma {:induction false} SizeAligned(attrs: seq<Attr>)
    ensures Size(attrs) % 4 == 0
    decreases |attrs|
  {
    if attrs != [] { SizeAligned(attrs[1..]); }
  }

  lemma SoftwareFits(m: Message)
    ensures SoftwareSize(m) <= 16 <==> |m.software| <= 12
    ensures SoftwareSize(m) % 4 == 0
  {
  }

  method IntegritiesSize(algos: seq<Algo>) returns (total: nat)
    ensures total == IntegritySize(algos, |algos|) && total % 4 == 0
  {
    total := 0;
    for i := 0 to |algos|
      invariant total == IntegritySize(algos, i) && total % 4 == 0
    {
      total := total + Align(4 + DigestSize(algos[i]));
    }
  }

  /** `message::serialized_size`: the exact size, but for the software text, which is always
      counted as 16 bytes. A buffer of this size is enough if and only if that text
      has at most 12 bytes. */
  method SerializedSize(m: Message, useFingerprint: bool) returns (total: nat)
    ensures total + SoftwareSize(m) == Needed(m, useFingerprint) + 16
    ensures Needed(m, useFingerprint) <= total <==> |m.software| <= 12
    ensures total % 4 == 0
  {
    hide Size, AddressAttrs, CredentialAttrs, IceAttrs, RelayAttrs, TailAttrs, SoftwareSize, IntegritySize;
    Size5(AddressAttrs(m), CredentialAttrs(m), IceAttrs(m), RelayAttrs(m), TailAttrs(m));
    SizeAligned(PlainAttrs(m));
    SoftwareFits(m);
    total := 20;
    var part := AddressSize(m);
    total := total + part;
    part := CredentialSize(m);
    total := total + part;
    part := IceSize(m);
    total := total + part;
    part := RelaySize(m);
    total := total + part;
    part := TailSize(m);
    total := total + part + 16;
    part := IntegritiesSize(m.integrities);
    total := total + part;
    if useFingerprint { total := total + 4 + 4; }
  }
}
