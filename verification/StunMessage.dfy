/** STUN messages (sections 5 and 14 of RFC 8489): the data and the attributes that the
    writer makes of it. */
module StunMessage {
  import opened Wire

  type Text = seq<byte>
  type Tid = s: seq<byte> | |s| == 12 witness seq(12, _ => 0)
  type Mask = s: seq<byte> | |s| == 16 witness seq(16, _ => 0)
  type Hash32 = s: seq<byte> | |s| == 32 witness seq(32, _ => 0)
  type Hash20 = s: seq<byte> | |s| == 20 witness seq(20, _ => 0)
  type Ip = s: seq<byte> | |s| == 4 || |s| == 16 witness [0, 0, 0, 0]

  datatype Endpoint = Endpoint(ip: Ip, port: u16)
  datatype ErrorCode = ErrorCode(code: u16, reason: Text)
  datatype Algo = Sha1 | Sha256

  /** A password algorithm's parameters are at most 256 bytes, which its constructor enforces. */
  type Params = s: seq<byte> | |s| <= 256 witness []
  datatype PasswordAlgorithm = PasswordAlgorithm(algo: u16, params: Params)

  datatype Class = Request | Indication | Success | Failure

  datatype Message = Message(
    cls: Class, meth: u16, tid: Tid,
    errorCode: Option<ErrorCode>, mapped: Option<Endpoint>, xorMapped: Option<Endpoint>, username: Text,
    pwdAlgorithm: Option<PasswordAlgorithm>, pwdAlgorithms: seq<PasswordAlgorithm>, realm: Text, nonce: Text,
    userhash: Option<Hash32>,
    priority: Option<u32>, useCandidate: bool, iceControlling: Option<u64>, iceControlled: Option<u64>,
    channelNumber: Option<u16>, lifetime: Option<u32>, xorPeer: seq<Endpoint>, xorRelayed: Option<Endpoint>,
    evenPort: bool, requestedTransport: bool, dontFragment: bool, reservationToken: Option<u64>, software: Text,
    alternateServer: Option<Endpoint>, integrities: seq<Algo>)

  /** A message in which only the header fields are set. */
  function Blank(cls: Class, meth: u16, tid: Tid): Message
  {
    Message(cls, meth, tid, None, None, None, [], None, [], [], [], None, None, false, None, None,
            None, None, [], None, false, false, false, None, [], None, [])
  }

  /** HMAC-SHA1, HMAC-SHA256, and CRC-32 with its final exclusive-or, as unknown functions. */
  datatype Crypto = Crypto(sha1: (Text, seq<byte>) -> Hash20, sha256: (Text, seq<byte>) -> Hash32,
                           fingerprint: seq<byte> -> u32)
  {
    function Hmac(a: Algo, key: Text, data: seq<byte>): (r: seq<byte>)
      ensures |r| == DigestSize(a)
    {
      match a case Sha1 => sha1(key, data) case Sha256 => sha256(key, data)
    }
  }

  function DigestSize(a: Algo): nat { match a case Sha1 => 20 case Sha256 => 32 }

  const MAGIC: u32 := 0x2112A442

  const MAPPED_ADDRESS: u16 := 0x0001
  const USERNAME: u16 := 0x0006
  const MESSAGE_INTEGRITY: u16 := 0x0008
  const ERROR_CODE: u16 := 0x0009
  const CHANNEL_NUMBER: u16 := 0x000C
  const LIFETIME: u16 := 0x000D
  const XOR_PEER_ADDRESS: u16 := 0x0012
  const DATA: u16 := 0x0013
  const REALM: u16 := 0x0014
  const NONCE: u16 := 0x0015
  const XOR_RELAYED_ADDRESS: u16 := 0x0016
  const EVEN_PORT: u16 := 0x0018
  const REQUESTED_TRANSPORT: u16 := 0x0019
  const DONT_FRAGMENT: u16 := 0x001A
  const MESSAGE_INTEGRITY_SHA256: u16 := 0x001C
  const PASSWORD_ALGORITHM: u16 := 0x001D
  const USERHASH: u16 := 0x001E
  const XOR_MAPPED_ADDRESS: u16 := 0x0020
  const RESERVATION_TOKEN: u16 := 0x0022
  const PRIORITY: u16 := 0x0024
  const USE_CANDIDATE: u16 := 0x0025
  const PASSWORD_ALGORITHMS: u16 := 0x8002
  const SOFTWARE: u16 := 0x8022
  const ALTERNATE_SERVER: u16 := 0x8023
  const FINGERPRINT: u16 := 0x8028
  const ICE_CONTROLLED: u16 := 0x8029
  const ICE_CONTROLLING: u16 := 0x802A

  function IntegrityType(a: Algo): u16
  {
    match a case Sha1 => MESSAGE_INTEGRITY case Sha256 => MESSAGE_INTEGRITY_SHA256
  }

  // ---- the message type field ----

  function ClassBits(c: Class): u16
  {
    match c case Request => 0 case Indication => 0x10 case Success => 0x100 case Failure => 0x110
  }

  /** The two class bits, 0x0100 and 0x0010. */
  predicate HighBit(t: u16) { t / 0x100 % 2 == 1 }
  predicate LowBit(t: u16) { t / 0x10 % 2 == 1 }

  /** `cls | method`. */
  function TypeField(c: Class, meth: u16): u16
  {
    var low := if (c.Indication? || c.Failure?) && !LowBit(meth) then 0x10 else 0;
    var high := if (c.Success? || c.Failure?) && !HighBit(meth) then 0x100 else 0;
    var r: int := meth;
    r + low + high
  }

  function ClassOf(t: u16): Class
  {
    if HighBit(t) then if LowBit(t) then Failure else Success
    else if LowBit(t) then Indication else Request
  }

  function MethodOf(t: u16): u16 { t - ClassBits(ClassOf(t)) }

  lemma ClassBitsOf(a: nat, high: nat, b: nat, low: nat, c: nat, t: u16)
    requires high < 2 && b < 8 && low < 2 && c < 0x10
    requires t == a * 0x200 + high * 0x100 + b * 0x20 + low * 0x10 + c
    ensures HighBit(t) <==> high == 1
    ensures LowBit(t) <==> low == 1
  {
    assert t / 0x100 == a * 2 + high;
    assert t / 0x10 == a * 0x20 + high * 0x10 + b * 2 + low;
  }

  /** Class and method survive the type field exactly when the method leaves the class bits alone. */
  lemma TypeFieldRoundTrip(c: Class, meth: u16)
    ensures ClassOf(TypeField(c, meth)) == c && MethodOf(TypeField(c, meth)) == meth
            <==> !LowBit(meth) && !HighBit(meth)
  {
    hide HighBit, LowBit;
    var a, high, b, low, e := SplitType(meth);
    ClassBitsOf(a, high, b, low, e, meth);
    var high' := if c.Success? || c.Failure? then 1 else high;
    var low' := if c.Indication? || c.Failure? then 1 else low;
    ClassBitsOf(a, high', b, low', e, TypeField(c, meth));
  }

  lemma SplitType(t: u16) returns (a: nat, high: nat, b: nat, low: nat, c: nat)
    ensures high < 2 && b < 8 && low < 2 && c < 0x10
    ensures t == a * 0x200 + high * 0x100 + b * 0x20 + low * 0x10 + c
  {
    var q := t / 0x10;
    var r := q / 2;
    var s := r / 8;
    a, high, b, low, c := s / 2, s % 2, r % 8, q % 2, t % 0x10;
  }

  // ---- exclusive or ----

  function Pow2(n: nat): nat { if n == 0 then 1 else 2 * Pow2(n - 1) }

  function XorBits(a: nat, b: nat, n: nat): (r: nat)
    ensures r < Pow2(n)
  {
    if n == 0 then 0
    else 2 * XorBits(a / 2, b / 2, n - 1) + if a % 2 == b % 2 then 0 else 1
  }

  lemma {:induction false} XorBitsTwice(a: nat, b: nat, n: nat)
    requires a < Pow2(n)
    ensures XorBits(XorBits(a, b, n), b, n) == a
  {
    if n > 0 { XorBitsTwice(a / 2, b / 2, n - 1); }
  }

  function Xor(a: byte, b: byte): byte
  {
    assert Pow2(8) == 256;
    XorBits(a, b, 8)
  }

  lemma XorTwice(a: byte, b: byte)
    ensures Xor(Xor(a, b), b) == a
  {
    assert Pow2(8) == 256;
    XorBitsTwice(a, b, 8);
  }

  function XorAll(s: seq<byte>, mask: seq<byte>): (r: seq<byte>)
    requires |s| <= |mask|
    ensures |r| == |s|
  {
    seq(|s|, i requires 0 <= i < |s| => Xor(s[i], mask[i]))
  }

  lemma XorAllTwice(s: seq<byte>, mask: seq<byte>)
    requires |s| <= |mask|
    ensures XorAll(XorAll(s, mask), mask) == s
  {
    var t := XorAll(s, mask);
    forall i | 0 <= i < |s| ensures XorAll(t, mask)[i] == s[i] {
      XorTwice(s[i], mask[i]);
    }
  }

  // ---- attributes ----

  /** A byte that the writer stores, or one that it steps over and leaves as it was. */
  datatype Cell = Put(b: byte) | Keep

  datatype Attr = Attr(typ: u16, value: seq<Cell>)

  function Align(n: nat): (r: nat)
    ensures n <= r < n + 4 && r % 4 == 0
  {
    (n + 3) / 4 * 4
  }

  function AttrSize(a: Attr): nat { Align(4 + |a.value|) }

  function Lit(bytes: seq<byte>): (r: seq<Cell>)
    ensures |r| == |bytes|
  {
    seq(|bytes|, i requires 0 <= i < |bytes| => Put(bytes[i]))
  }

  function Holes(n: nat): (r: seq<Cell>)
    ensures |r| == n
  {
    seq(n, _ => Keep)
  }

  function Family(ip: Ip): byte { if |ip| == 4 then 1 else 2 }

  function AddressBytes(e: Endpoint): seq<byte> { [0, Family(e.ip)] + Be16(e.port) + e.ip }

  /** Port and address are masked by the magic cookie and the transaction id. */
  function XorAddressBytes(e: Endpoint, mask: Mask): seq<byte>
  {
    [0, Family(e.ip)] + XorAll(Be16(e.port), mask) + XorAll(e.ip, mask)
  }

  /** The class digit takes three bits, the number eight. */
  function ErrorCodeBytes(e: ErrorCode): seq<byte>
  {
    Be32(e.code / 100 % 8 * 0x100 + e.code % 100) + e.reason
  }

  function AlgorithmCells(p: PasswordAlgorithm): (r: seq<Cell>)
  {
    Lit(Be16(p.algo) + Be16(|p.params|) + p.params)
  }

  function Padded(cells: seq<Cell>): (r: seq<Cell>)
    ensures |r| == Align(|cells|)
  {
    cells + Holes(Align(|cells|) - |cells|)
  }

  /** Every entry is padded, and the padding counts towards the attribute's length. */
  function AlgorithmsCells(ps: seq<PasswordAlgorithm>): seq<Cell>
  {
    if ps == [] then [] else Padded(AlgorithmCells(ps[0])) + AlgorithmsCells(ps[1..])
  }

  /** Four bytes are announced, but only the low half of the priority is stored, in the first two. */
  function PriorityCells(p: u32): seq<Cell> { Lit(Be16(p % 0x1_0000)) + Holes(2) }

  function MaskOf(m: Message): Mask { Be32(MAGIC) + m.tid }

  function Flag(b: bool, a: Attr): seq<Attr> { if b then [a] else [] }

  function TextAttr(typ: u16, t: Text): seq<Attr> { if t == [] then [] else [Attr(typ, Lit(t))] }

  function ErrorAttr(o: Option<ErrorCode>): seq<Attr>
  {
    if o.None? then [] else [Attr(ERROR_CODE, Lit(ErrorCodeBytes(o.value)))]
  }

  function MappedAttr(o: Option<Endpoint>): seq<Attr>
  {
    if o.None? then [] else [Attr(MAPPED_ADDRESS, Lit(AddressBytes(o.value)))]
  }

  function XorAttr(typ: u16, o: Option<Endpoint>, mask: Mask): seq<Attr>
  {
    if o.None? then [] else [Attr(typ, Lit(XorAddressBytes(o.value, mask)))]
  }

  function PeerAttrs(es: seq<Endpoint>, mask: Mask): seq<Attr>
  {
    if es == [] then [] else [Attr(XOR_PEER_ADDRESS, Lit(XorAddressBytes(es[0], mask)))] + PeerAttrs(es[1..], mask)
  }

  function AlgorithmAttr(o: Option<PasswordAlgorithm>): seq<Attr>
  {
    if o.None? then [] else [Attr(PASSWORD_ALGORITHM, AlgorithmCells(o.value))]
  }

  function AlgorithmsAttr(ps: seq<PasswordAlgorithm>): seq<Attr>
  {
    if ps == [] then [] else [Attr(PASSWORD_ALGORITHMS, AlgorithmsCells(ps))]
  }

  function UserhashAttr(o: Option<Hash32>): seq<Attr>
  {
    if o.None? then [] else [Attr(USERHASH, Lit(o.value))]
  }

  function PriorityAttr(o: Option<u32>): seq<Attr>
  {
    if o.None? then [] else [Attr(PRIORITY, PriorityCells(o.value))]
  }

  function TokenAttr(typ: u16, o: Option<u64>): seq<Attr>
  {
    if o.None? then [] else [Attr(typ, Lit(Be64(o.value)))]
  }

  function ChannelAttr(o: Option<u16>): seq<Attr>
  {
    if o.None? then [] else [Attr(CHANNEL_NUMBER, Lit(Be16(o.value) + [0, 0]))]
  }

  function LifetimeAttr(o: Option<u32>): seq<Attr>
  {
    if o.None? then [] else [Attr(LIFETIME, Lit(Be32(o.value)))]
  }

  function AddressAttrs(m: Message): seq<Attr>
  {
    ErrorAttr(m.errorCode) + MappedAttr(m.mapped) + XorAttr(XOR_MAPPED_ADDRESS, m.xorMapped, MaskOf(m))
    + TextAttr(USERNAME, m.username)
  }

  function CredentialAttrs(m: Message): seq<Attr>
  {
    AlgorithmAttr(m.pwdAlgorithm) + AlgorithmsAttr(m.pwdAlgorithms)
    + TextAttr(REALM, m.realm) + TextAttr(NONCE, m.nonce) + UserhashAttr(m.userhash)
  }

  function IceAttrs(m: Message): seq<Attr>
  {
    PriorityAttr(m.priority) + Flag(m.useCandidate, Attr(USE_CANDIDATE, []))
    + TokenAttr(ICE_CONTROLLING, m.iceControlling) + TokenAttr(ICE_CONTROLLED, m.iceControlled)
  }

  function RelayAttrs(m: Message): seq<Attr>
  {
    ChannelAttr(m.channelNumber) + LifetimeAttr(m.lifetime) + PeerAttrs(m.xorPeer, MaskOf(m))
    + XorAttr(XOR_RELAYED_ADDRESS, m.xorRelayed, MaskOf(m))
  }

  function TailAttrs(m: Message): seq<Attr>
  {
    Flag(m.evenPort, Attr(EVEN_PORT, Lit([0x80])))
    + Flag(m.requestedTransport, Attr(REQUESTED_TRANSPORT, Lit([17, 0, 0, 0])))
    + Flag(m.dontFragment, Attr(DONT_FRAGMENT, []))
    + TokenAttr(RESERVATION_TOKEN, m.reservationToken) + TextAttr(SOFTWARE, m.software)
  }

  /** Everything before the integrity attributes, in the writer's order. */
  function PlainAttrs(m: Message): seq<Attr>
  {
    AddressAttrs(m) + CredentialAttrs(m) + IceAttrs(m) + RelayAttrs(m) + TailAttrs(m)
  }
}
