/** What the STUN parser and the integrity check make of any bytes. */
module StunParser {
  import opened Wire
  import opened StunMessage

  // ---- attribute values ----

  /** Padding byte zero, and a family that agrees with the length. */
  predicate AddressShape(v: seq<byte>)
  {
    (|v| == 8 && v[0] == 0 && v[1] == 1) || (|v| == 20 && v[0] == 0 && v[1] == 2)
  }

  function ParseAddress(v: seq<byte>): Option<Endpoint>
  {
    if AddressShape(v) then Some(Endpoint(v[4..], U16(v, 2))) else None
  }

  function ParseXorAddress(v: seq<byte>, mask: Mask): Option<Endpoint>
  {
    if AddressShape(v) then Some(Endpoint(XorAll(v[4..], mask), U16(XorAll(v[2..4], mask), 0))) else None
  }

  function ParseErrorCode(v: seq<byte>): Option<ErrorCode>
  {
    if |v| < 4 || |v| > 4 + 762 then None
    else
      var host := U32(v, 0);
      Some(ErrorCode(host / 0x100 % 8 * 100 + host % 0x100, v[4..]))
  }

  function ParseAlgorithm(v: seq<byte>): Option<PasswordAlgorithm>
  {
    if |v| < 4 || U16(v, 2) > 256 || 4 + U16(v, 2) > |v| then None
    else Some(PasswordAlgorithm(U16(v, 0), v[4..4 + U16(v, 2)]))
  }

  /** How far the iterator moves past a value of this length: 16-bit arithmetic, so it wraps. */
  function Step(len: u16): nat { Align((len + 4) % 0x1_0000) % 0x1_0000 }

  /** The entries from `p` on; the last one's padding must end the value. */
  function ParseAlgorithms(v: seq<byte>, p: nat): Option<seq<PasswordAlgorithm>>
    decreases if p <= |v| then |v| - p else 0
  {
    if p + 4 > |v| then if p == |v| then Some([]) else None
    else
      match ParseAlgorithm(v[p..])
      case None => None
      case Some(first) =>
        match ParseAlgorithms(v, p + Align(4 + |first.params|))
        case None => None
        case Some(rest) => Some([first] + rest)
  }

  predicate IsIntegrity(typ: u16) { typ == MESSAGE_INTEGRITY || typ == MESSAGE_INTEGRITY_SHA256 }

  /** What one attribute does to the message being filled; `None` rejects the message.
      Attributes outside this list are skipped. */
  function Handle(m: Message, typ: u16, v: seq<byte>, mask: Mask): Option<Message>
  {
    if typ == MAPPED_ADDRESS then
      match ParseAddress(v) case None => None case Some(e) => Some(m.(mapped := Some(e)))
    else if typ == XOR_MAPPED_ADDRESS then
      match ParseXorAddress(v, mask) case None => None case Some(e) => Some(m.(xorMapped := Some(e)))
    else if typ == ALTERNATE_SERVER then
      match ParseAddress(v) case None => None case Some(e) => Some(m.(alternateServer := Some(e)))
    else if typ == ERROR_CODE then
      match ParseErrorCode(v) case None => None case Some(e) => Some(m.(errorCode := Some(e)))
    else if typ == USERNAME then
      if |v| > 513 then None else Some(m.(username := v))
    else if typ == MESSAGE_INTEGRITY then
      if |v| != 20 then None else Some(m.(integrities := m.integrities + [Sha1]))
    else if typ == MESSAGE_INTEGRITY_SHA256 then
      if |v| != 32 then None else Some(m.(integrities := m.integrities + [Sha256]))
    else if typ == REALM then
      if |v| > 763 || v == [] then None else Some(m.(realm := v))
    else if typ == NONCE then
      if |v| > 763 || v == [] then None else Some(m.(nonce := v))
    else if typ == PASSWORD_ALGORITHM then
      match ParseAlgorithm(v) case None => None case Some(p) => Some(m.(pwdAlgorithm := Some(p)))
    else if typ == PASSWORD_ALGORITHMS then
      if |v| < 4 then None
      else match ParseAlgorithms(v, 0) case None => None case Some(ps) => Some(m.(pwdAlgorithms := m.pwdAlgorithms + ps))
    else if typ == USERHASH then
      if |v| != 32 then None else Some(m.(userhash := Some(v)))
    else if typ == SOFTWARE then
      if |v| > 763 then None else Some(m.(software := v))
    else if typ == PRIORITY then
      if |v| != 4 then None else Some(m.(priority := Some(U32(v, 0))))
    else if typ == USE_CANDIDATE then
      if v != [] then None else Some(m.(useCandidate := true))
    else if typ == ICE_CONTROLLING then
      if |v| != 8 then None else Some(m.(iceControlling := Some(U64(v, 0))))
    else if typ == ICE_CONTROLLED then
      if |v| != 8 then None else Some(m.(iceControlled := Some(U64(v, 0))))
    else HandleRelay(m, typ, v, mask)
  }

  function HandleRelay(m: Message, typ: u16, v: seq<byte>, mask: Mask): Option<Message>
  {
    if typ == CHANNEL_NUMBER then
      if |v| != 4 || v[2] != 0 || v[3] != 0 then None else Some(m.(channelNumber := Some(U16(v, 0))))
    else if typ == LIFETIME then
      if |v| != 4 then None else Some(m.(lifetime := Some(U32(v, 0))))
    else if typ == XOR_PEER_ADDRESS then
      match ParseXorAddress(v, mask) case None => None case Some(e) => Some(m.(xorPeer := m.xorPeer + [e]))
    else if typ == XOR_RELAYED_ADDRESS then
      match ParseXorAddress(v, mask) case None => None case Some(e) => Some(m.(xorRelayed := Some(e)))
    else if typ == EVEN_PORT then
      if v == [] then None else Some(m.(evenPort := v[0] >= 0x80))
    else if typ == REQUESTED_TRANSPORT then
      if |v| != 4 || v[0] != 17 then None else Some(m.(requestedTransport := true))
    else if typ == DONT_FRAGMENT then
      if v != [] then None else Some(m.(dontFragment := true))
    else if typ == RESERVATION_TOKEN then
      if |v| != 8 then None else Some(m.(reservationToken := Some(U64(v, 0))))
    else Some(m)
  }

  // ---- the message ----

  /** The bytes before `pos` with the length field replaced: what is hashed or checksummed. */
  function Covered(buf: seq<byte>, pos: nat, length: nat): seq<byte>
    requires 4 <= pos <= |buf|
  {
    buf[..2] + Be16(length) + buf[4..pos]
  }

  /** `Endless`: the attribute iterator's 16-bit step is zero, so the loop over it stays at one attribute
      for ever. */
  datatype Outcome = Parsed(msg: Message, fingerprint: bool) | Rejected | Endless

  /** The attribute loop, from `pos` to `end`. Once integrity was seen, only integrity and
      fingerprint attributes are looked at: anything else ends the message there. */
  function ParseFrom(c: Crypto, buf: seq<byte>, end: nat, pos: nat, m: Message, fingerprint: bool, mask: Mask): Outcome
    requires 20 <= pos && end <= |buf|
    decreases if pos <= end then end - pos else 0
  {
    if pos + 4 > end then if pos == end then Parsed(m, fingerprint) else Rejected
    else if fingerprint then Rejected
    else
      var typ, len := U16(buf, pos), U16(buf, pos + 2);
      if pos + 4 + len > end then Rejected
      else if m.integrities != [] && !IsIntegrity(typ) && typ != FINGERPRINT then Parsed(m, fingerprint)
      else
        match ParseOne(c, buf, pos, m, mask)
        case None => Rejected
        case Some(m') =>
          if Step(len) == 0 then Endless
          else ParseFrom(c, buf, end, pos + Step(len), m', typ == FINGERPRINT, mask)
  }

  function ParseOne(c: Crypto, buf: seq<byte>, pos: nat, m: Message, mask: Mask): Option<Message>
    requires 20 <= pos && pos + 4 <= |buf| && pos + 4 + U16(buf, pos + 2) <= |buf|
  {
    var typ, len := U16(buf, pos), U16(buf, pos + 2);
    if typ == FINGERPRINT then
      if len == 4 && c.fingerprint(Covered(buf, pos, pos - 20 + 8)) == U32(buf, pos + 4) then Some(m) else None
    else Handle(m, typ, buf[pos + 4..pos + 4 + len], mask)
  }

  /** `message::parse` into a fresh message. */
  function Parse(c: Crypto, buf: seq<byte>): Outcome
  {
    if |buf| < 20 || U16(buf, 2) + 20 > |buf| || U32(buf, 4) != MAGIC then Rejected
    else
      var m := Blank(ClassOf(U16(buf, 0)), MethodOf(U16(buf, 0)), buf[8..20]);
      ParseFrom(c, buf, 20 + U16(buf, 2), 20, m, false, buf[4..20])
  }

  /** The parser as it runs. */
  method ReadMessage(c: Crypto, buf: seq<byte>) returns (r: Outcome)
    ensures r == Parse(c, buf)
  {
    hide ParseOne, Step;
    if |buf| < 20 || U16(buf, 2) + 20 > |buf| || U32(buf, 4) != MAGIC { return Rejected; }
    var m := Blank(ClassOf(U16(buf, 0)), MethodOf(U16(buf, 0)), buf[8..20]);
    var mask, end, pos, fingerprint := buf[4..20], 20 + U16(buf, 2), 20, false;
    while pos + 4 <= end
      invariant 20 <= pos
      invariant Parse(c, buf) == ParseFrom(c, buf, end, pos, m, fingerprint, mask)
      decreases end - pos
    {
      if fingerprint { return Rejected; }
      var typ, len := U16(buf, pos), U16(buf, pos + 2);
      if pos + 4 + len > end { return Rejected; }
      if m.integrities != [] && !IsIntegrity(typ) && typ != FINGERPRINT { return Parsed(m, fingerprint); }
      var one := ParseOne(c, buf, pos, m, mask);
      if one.None? { return Rejected; }
      if Step(len) == 0 { return Endless; }
      m, fingerprint, pos := one.value, typ == FINGERPRINT, pos + Step(len);
    }
    if pos != end { return Rejected; }
    return Parsed(m, fingerprint);
  }

  /** In a buffer below 64 KiB the step never wraps, so the parser always ends. */
  lemma {:induction false} ShortBuffersEnd(c: Crypto, buf: seq<byte>, end: nat, pos: nat, m: Message, fingerprint: bool, mask: Mask)
    requires 20 <= pos && end <= |buf| < 0x1_0000
    ensures !ParseFrom(c, buf, end, pos, m, fingerprint, mask).Endless?
    decreases if pos <= end then end - pos else 0
  {
    hide ParseOne;
    if pos + 4 <= end && !fingerprint && pos + 4 + U16(buf, pos + 2) <= end {
      var one := ParseOne(c, buf, pos, m, mask);
      if one.Some? {
        ShortBuffersEnd(c, buf, end, pos + Step(U16(buf, pos + 2)), one.value, U16(buf, pos) == FINGERPRINT, mask);
      }
    }
  }

  // ---- integrity ----

  datatype Search = At(pos: nat) | Absent | Lost

  /** `find_attr`: the first attribute of a type, walking the whole buffer. */
  function FindAttr(buf: seq<byte>, pos: nat, typ: u16): (r: Search)
    ensures r.At? ==> pos <= r.pos && r.pos + 4 <= |buf|
    decreases if pos <= |buf| then |buf| - pos else 0
  {
    if pos + 4 > |buf| then Absent
    else if U16(buf, pos) == typ then At(pos)
    else if Step(U16(buf, pos + 2)) == 0 then Lost
    else FindAttr(buf, pos + Step(U16(buf, pos + 2)), typ)
  }

  method LocateAttr(buf: seq<byte>, typ: u16) returns (r: Search)
    ensures r == FindAttr(buf, 20, typ)
  {
    var pos := 20;
    while pos + 4 <= |buf|
      invariant FindAttr(buf, 20, typ) == FindAttr(buf, pos, typ)
      decreases |buf| - pos
    {
      if U16(buf, pos) == typ { return At(pos); }
      if Step(U16(buf, pos + 2)) == 0 { return Lost; }
      pos := pos + Step(U16(buf, pos + 2));
    }
    return Absent;
  }

  /** `integrity::verify` on a whole message. */
  predicate Verify(c: Crypto, a: Algo, key: Text, buf: seq<byte>)
  {
    match FindAttr(buf, 20, IntegrityType(a))
    case At(pos) =>
      var len := U16(buf, pos + 2);
      && pos + 4 + len <= |buf|
      && len == DigestSize(a)
      && pos >= 4
      && c.Hmac(a, key, Covered(buf, pos, pos - 20 + 4 + len)) == buf[pos + 4..pos + 4 + len]
    case _ => false
  }

  /** `!is_not_stun`: the cheap test that guards the dispatch of responses. */
  predicate LooksLikeStun(buf: seq<byte>)
  {
    && |buf| >= 20 && buf[0] < 0x40 && U32(buf, 4) == MAGIC
    && U16(buf, 2) % 4 == 0 && U16(buf, 2) + 20 == |buf|
  }
}
