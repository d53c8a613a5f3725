/** Sizing, writing and sending one message, as the agent does it. */
module StunDatagram {
  import opened Wire
  import opened StunMessage
  import opened StunParser
  import opened StunWriter
  import opened StunRoundTrip
  import opened StunTheorems
  import opened StunSize

  /** In a zeroed buffer a priority comes back as its low half, moved up by 16 bits. */
  function ShiftedPriority(o: Option<u32>): Option<u32>
  {
    if o.None? then None
    else
      var low: int := o.value % 0x1_0000;
      Some(low * 0x1_0000)
  }

  /** What the peer reads of a message sent from a zeroed buffer. */
  function Received(m: Message): Message
  {
    m.(priority := ShiftedPriority(m.priority), errorCode := ErrorRead(m.errorCode), alternateServer := None)
  }

  /** `send_stun`: a zeroed buffer of the computed size holds the message exactly if no text is over
      the writer's limits and the software text has at most 12 bytes. The peer parses what is sent
      if it is within the parser's limits, and verifies every integrity attribute. */
  method Datagram(c: Crypto, key: Text, useFingerprint: bool, m: Message) returns (r: Option<seq<byte>>)
    requires Needed(m, useFingerprint) + 16 < 0x1_0000
    requires m.errorCode.Some? ==> |m.errorCode.value.reason| + 4 < 0x1_0000
    ensures r.None? <==> TooLong(m) || |m.software| > 12
    ensures r.Some? ==> |r.value| == Needed(m, useFingerprint)
    ensures r.Some? && Readable(m) && !LowBit(m.meth) && !HighBit(m.meth) ==>
              && Parse(c, r.value) == Parsed(Received(m), useFingerprint)
              && forall a :: a in m.integrities ==> Verify(c, a, key, r.value)
  {
    hide Needed, Parse, Verify, Written, ErrorRead, PriorityPos, LowBit, HighBit, SoftwareSize, Readable, TooLong;
    var size := SerializedSize(m, useFingerprint);
    ghost var n := Needed(m, useFingerprint);
    SizeBounded(m);
    var buf := new byte[size](_ => 0);
    ghost var before := buf[..];
    var written := WriteTo(c, key, useFingerprint, buf, m);
    if written < 0 { return None; }
    var bytes := buf[..written];
    if Readable(m) && !LowBit(m.meth) && !HighBit(m.meth) {
      WrittenParses(c, key, useFingerprint, before, buf[..], m);
      ZeroPriority(m.priority, before, PriorityPos(m));
      forall a | a in m.integrities ensures Verify(c, a, key, bytes) {
        WrittenVerifies(c, key, useFingerprint, before, buf[..], m, a);
      }
    }
    return Some(bytes);
  }

  lemma SizeBounded(m: Message)
    ensures 0 <= SoftwareSize(m)
  {
  }

  lemma ZeroPriority(o: Option<u32>, before: seq<byte>, pos: nat)
    requires o.Some? ==> pos + 8 <= |before|
    requires forall i :: 0 <= i < |before| ==> before[i] == 0
    ensures PriorityRead(o, before, pos) == ShiftedPriority(o)
  {
  }

  lemma {:induction false} IntegritiesAligned(algos: seq<Algo>, i: nat)
    requires i <= |algos|
    ensures IntegritySize(algos, i) % 4 == 0
  {
    if i > 0 { IntegritiesAligned(algos, i - 1); }
  }

  /** The cheap test that receivers put first passes what was written exactly when the two top bits of
      the type field are clear, as they are for every method the library sends. */
  lemma WrittenLooksLikeStun(c: Crypto, key: Text, useFingerprint: bool, before: seq<byte>, buf: seq<byte>, m: Message)
    requires Written(c, key, useFingerprint, before, buf, m) && |buf| < 0x1_0000
    ensures Needed(m, useFingerprint) <= |buf|
    ensures LooksLikeStun(buf[..Needed(m, useFingerprint)]) <==> TypeField(m.cls, m.meth) < 0x4000
  {
    hide AttrsAt, IntegritiesAt, FingerprintAt, PlainAttrs, Size, IntegritySize, TypeField, HeaderAt, Has;
    WrittenCut(c, key, useFingerprint, before, buf, m);
    SizeAligned(PlainAttrs(m));
    IntegritiesAligned(m.integrities, |m.integrities|);
    HeaderLooksLikeStun(buf[..Needed(m, useFingerprint)], m);
  }

  lemma HeaderLooksLikeStun(buf: seq<byte>, m: Message)
    requires 20 <= |buf| < 0x1_0000 && |buf| % 4 == 0 && HeaderAt(buf, m) && Has(buf, 2, Be16(|buf| - 20))
    ensures LooksLikeStun(buf) <==> TypeField(m.cls, m.meth) < 0x4000
  {
    hide TypeField, Be16, Be32;
    ReadBe16(buf, 0, TypeField(m.cls, m.meth));
    ReadBe16(buf, 2, |buf| - 20);
    HasConcat(buf, 4, Be32(MAGIC), m.tid);
    ReadBe32(buf, 4, MAGIC);
    hide Has, U32;
  }
}
