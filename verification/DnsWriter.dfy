/** The packet writer as it runs: it sorts the sections in place, prepares one compressor
    with every name, and fills a buffer. */
module DnsWriter {
  import opened Wire
  import opened Order
  import opened DnsName
  import opened DnsCompression
  import opened DnsCompressor
  import opened DnsMessage
  import opened DnsRoundTrip

  // ---- the order of the sections ----

  /** `char` compares as a signed byte. */
  predicate CharLess(a: byte, b: byte)
  {
    (if a < 0x80 then a as int else a - 0x100) < if b < 0x80 then b as int else b - 0x100
  }

  /** Strings compare from their last character to the first. */
  predicate TextLess(a: Text, b: Text) { LexLess(Reverse(a), Reverse(b), CharLess) }

  function RdataText(r: Record): Text
  {
    match r.data
    case Ns(name) => name
    case Cname(name) => name
    case Soa(mname, _, _, _, _, _, _) => mname
    case Ptr(name) => name
    case Mx(_, exchange) => exchange
    case _ => []
  }

  predicate QuestionLess(a: Question, b: Question) { TextLess(a.name, b.name) }
  predicate RecordLess(a: Record, b: Record) { TextLess(a.name, b.name) }
  predicate RdataLess(a: Record, b: Record) { TextLess(RdataText(a), RdataText(b)) }

  lemma TextOrder(a: Text, b: Text, c: Text)
    ensures TextLess(a, b) ==> !TextLess(b, a)
    ensures TextLess(a, c) ==> TextLess(a, b) || TextLess(b, c)
  {
    LexWeakOrder(CharLess);
    var lex := (x: seq<byte>, y: seq<byte>) => LexLess(x, y, CharLess);
    assert forall x: Text, y: Text :: TextLess(x, y) == lex(Reverse(x), Reverse(y));
  }

  lemma SectionOrders()
    ensures WeakOrder(QuestionLess) && WeakOrder(RecordLess) && WeakOrder(RdataLess)
  {
    forall a: Text, b: Text, c: Text
      ensures TextLess(a, b) ==> !TextLess(b, a)
      ensures TextLess(a, c) ==> TextLess(a, b) || TextLess(b, c)
    {
      TextOrder(a, b, c);
    }
  }

  /** By name, and records of one name by the name in their data. */
  ghost predicate SectionSorted(rs: seq<Record>) { SortedByThen(rs, RecordLess, RdataLess) }

  method SortRecords(rs: seq<Record>) returns (r: seq<Record>)
    ensures multiset(r) == multiset(rs) && |r| == |rs|
    ensures SectionSorted(r)
  {
    SectionOrders();
    r := Sort(rs, RdataLess);
    r := StableSort(r, RecordLess, RdataLess);
  }

  // ---- filling the buffer ----

  /** The buffer up to `next` and the dictionary are those of a session. */
  ghost predicate Holds(c: NameCompressor, buf: array<byte>, next: nat, s: Session)
    reads c, buf
  {
    next <= buf.Length && Session(buf[..next], c.dict) == s
  }

  lemma HoldsLength(c: NameCompressor, buf: array<byte>, next: nat, s: Session)
    requires Holds(c, buf, next, s)
    ensures next == |s.bytes|
  {
  }

  method PutBytes(ghost c: NameCompressor, buf: array<byte>, bytes: seq<byte>, offset: nat, ghost s: Session)
    returns (ok: bool, next: nat)
    requires Holds(c, buf, offset, s)
    modifies buf
    ensures ok <==> |s.bytes| + |bytes| <= buf.Length
    ensures ok ==> next == offset + |bytes| && Holds(c, buf, next, Session(s.bytes + bytes, s.dict))
  {
    ok, next := WriteBytes(buf, bytes, offset);
    if ok { WriteIsAppend(old(buf[..]), buf[..], offset, bytes); }
  }

  method PutName(c: NameCompressor, buf: array<byte>, name: Text, offset: nat, ghost s: Session)
    returns (ok: bool, next: nat)
    requires c.Ready() && Split(name) in c.pool && Holds(c, buf, offset, s)
    modifies c`offsets, c`dict, buf
    ensures c.Ready()
    ensures ok <==> |s.bytes| + |NameOut(offset, s.dict, name).code| <= buf.Length
    ensures ok ==> Holds(c, buf, next, Apply(s, NameOut(offset, s.dict, name)))
  {
    ok, next := c.WriteName(buf, name, offset);
  }

  ghost predicate Prepared(pool: seq<Labels>, names: seq<Text>)
  {
    forall i :: 0 <= i < |names| ==> Split(names[i]) in pool
  }

  ghost function AfterName(s: Session, name: Text): Session { Apply(s, NameOut(|s.bytes|, s.dict, name)) }

  /** Two names and five numbers, in turn. */
  lemma SoaInTurn(s: Session, data: Rdata)
    requires data.Soa?
    ensures var s2 := AfterName(AfterName(s, data.mname), data.rname);
            Apply(s, RdataOut(|s.bytes|, s.dict, data)) == Session(s2.bytes + SoaNumbers(data), s2.dict)
    ensures |AfterName(s, data.mname).bytes| == |s.bytes| + |NameOut(|s.bytes|, s.dict, data.mname).code|
    ensures |AfterName(s, data.mname).bytes| <= |AfterName(AfterName(s, data.mname), data.rname).bytes|
    ensures |s.bytes| + |RdataOut(|s.bytes|, s.dict, data).code|
         == |AfterName(AfterName(s, data.mname), data.rname).bytes| + |SoaNumbers(data)|
  {
    hide NameOut, SoaNumbers;
    var m := NameOut(|s.bytes|, s.dict, data.mname);
    var r := NameOut(|s.bytes| + |m.code|, m.dict, data.rname);
    assert s.bytes + m.code + r.code + SoaNumbers(data) == s.bytes + (m.code + r.code + SoaNumbers(data));
  }

  method PutSoa(c: NameCompressor, buf: array<byte>, data: Rdata, offset: nat, ghost s: Session)
    returns (ok: bool, next: nat)
    requires data.Soa? && c.Ready() && Prepared(c.pool, RdataNames(data)) && Holds(c, buf, offset, s)
    modifies c`offsets, c`dict, buf
    ensures c.Ready()
    ensures ok <==> |s.bytes| + |RdataOut(offset, s.dict, data).code| <= buf.Length
    ensures ok ==> Holds(c, buf, next, Apply(s, RdataOut(offset, s.dict, data)))
  {
    hide NameOut, SoaNumbers, RdataOut, Split;
    assert data.mname == RdataNames(data)[0] && data.rname == RdataNames(data)[1];
    HoldsLength(c, buf, offset, s);
    SoaInTurn(s, data);
    ghost var s1 := AfterName(s, data.mname);
    ghost var s2 := AfterName(s1, data.rname);
    ok, next := PutName(c, buf, data.mname, offset, s);
    if !ok { return; }
    HoldsLength(c, buf, next, s1);
    ok, next := PutName(c, buf, data.rname, next, s1);
    if !ok { return; }
    assert Holds(c, buf, next, s2);
    ok, next := PutBytes(c, buf, SoaNumbers(data), next, s2);
    assert ok <==> |s2.bytes| + |SoaNumbers(data)| <= buf.Length;
  }

  method PutMx(c: NameCompressor, buf: array<byte>, data: Rdata, offset: nat, ghost s: Session)
    returns (ok: bool, next: nat)
    requires data.Mx? && c.Ready() && Prepared(c.pool, RdataNames(data)) && Holds(c, buf, offset, s)
    modifies c`offsets, c`dict, buf
    ensures c.Ready()
    ensures ok <==> |s.bytes| + |RdataOut(offset, s.dict, data).code| <= buf.Length
    ensures ok ==> Holds(c, buf, next, Apply(s, RdataOut(offset, s.dict, data)))
  {
    hide NameOut, Be16;
    assert data.exchange == RdataNames(data)[0];
    var pref := Be16(ToU16(data.preference));
    ok, next := PutBytes(c, buf, pref, offset, s);
    if !ok { return; }
    ghost var o := NameOut(offset + 2, s.dict, data.exchange);
    ok, next := PutName(c, buf, data.exchange, next, Session(s.bytes + pref, s.dict));
    assert s.bytes + pref + o.code == s.bytes + (pref + o.code);
  }

  method PutRdata(c: NameCompressor, buf: array<byte>, data: Rdata, offset: nat, ghost s: Session)
    returns (ok: bool, next: nat)
    requires c.Ready() && Prepared(c.pool, RdataNames(data)) && Holds(c, buf, offset, s)
    modifies c`offsets, c`dict, buf
    ensures c.Ready()
    ensures ok <==> |s.bytes| + |RdataOut(offset, s.dict, data).code| <= buf.Length
    ensures ok ==> Holds(c, buf, next, Apply(s, RdataOut(offset, s.dict, data)))
  {
    hide NameOut, PlainName, SrvNumbers, Be32;
    match data {
      case NoData => ok, next := PutBytes(c, buf, [], offset, s);
      case Hinfo(_, _) => ok, next := PutBytes(c, buf, [], offset, s);
      case A(address) => ok, next := PutBytes(c, buf, Be32(address), offset, s);
      case Aaaa(octets) => ok, next := PutBytes(c, buf, octets, offset, s);
      case Txt(txt) => ok, next := PutBytes(c, buf, txt, offset, s);
      case Wks(address, protocol, _) => ok, next := PutBytes(c, buf, Be32(address) + [protocol], offset, s);
      case Srv(_, _, _, target) => ok, next := PutBytes(c, buf, SrvNumbers(data) + PlainName(target), offset, s);
      case Cname(name) => assert name == RdataNames(data)[0]; ok, next := PutName(c, buf, name, offset, s);
      case Ns(name) => assert name == RdataNames(data)[0]; ok, next := PutName(c, buf, name, offset, s);
      case Ptr(name) => assert name == RdataNames(data)[0]; ok, next := PutName(c, buf, name, offset, s);
      case Mx(_, _) => ok, next := PutMx(c, buf, data, offset, s);
      case Soa(_, _, _, _, _, _, _) => ok, next := PutSoa(c, buf, data, offset, s);
    }
  }

  /** The data length is unknown until the data is written, so it is filled in afterwards. */
  method PutRecord(c: NameCompressor, buf: array<byte>, r: Record, offset: nat, ghost s: Session)
    returns (ok: bool, next: nat)
    requires c.Ready() && Prepared(c.pool, RecordNames(r)) && Holds(c, buf, offset, s)
    modifies c`offsets, c`dict, buf
    ensures c.Ready()
    ensures ok <==> |s.bytes| + |RecordOut(offset, s.dict, r).code| <= buf.Length
    ensures ok ==> Holds(c, buf, next, Apply(s, RecordOut(offset, s.dict, r)))
  {
    hide NameOut, RdataOut, Fixed, Patched, Prepared, Split;
    PreparedRecord(c.pool, r);
    ghost var n := NameOut(offset, s.dict, r.name);
    ghost var s1 := Apply(s, n);
    ok, next := PutName(c, buf, r.name, offset, s);
    if !ok { return; }
    ghost var s2 := Session(s1.bytes + Fixed(r, 0), s1.dict);
    ok, next := PutBytes(c, buf, Fixed(r, 0), next, s1);
    if !ok { return; }
    HoldsLength(c, buf, next, s2);
    var rdata := next;
    ghost var rd := RdataOut(rdata, s2.dict, r.data);
    ok, next := PutRdata(c, buf, r.data, rdata, s2);
    if !ok { return; }
    HoldsLength(c, buf, next, Apply(s2, rd));
    PatchLength(buf, rdata, next - rdata, next);
    LengthPatched(s1.bytes, r, rd.code, s.bytes, n.code);
  }

  lemma PreparedRecord(pool: seq<Labels>, r: Record)
    requires Prepared(pool, RecordNames(r))
    ensures Split(r.name) in pool && Prepared(pool, RdataNames(r.data))
  {
    hide Split, RdataNames;
    var names := RecordNames(r);
    assert names[0] == r.name;
    assert forall i :: 0 <= i < |RdataNames(r.data)| ==> RdataNames(r.data)[i] == names[i + 1];
  }

  function Patched(bytes: seq<byte>, rdata: nat, length: nat): seq<byte>
    requires 2 <= rdata <= |bytes|
  {
    bytes[..rdata - 2] + Be16(length) + bytes[rdata..]
  }

  method PatchLength(buf: array<byte>, rdata: nat, length: nat, ghost next: nat)
    requires 2 <= rdata <= next <= buf.Length
    modifies buf
    ensures buf[..next] == Patched(old(buf[..next]), rdata, length)
  {
    var b := Be16(length);
    buf[rdata - 2] := b[0];
    buf[rdata - 1] := b[1];
  }

  lemma LengthPatched(before: seq<byte>, r: Record, code: seq<byte>, start: seq<byte>, name: seq<byte>)
    requires before == start + name
    ensures Patched(before + Fixed(r, 0) + code, |before| + 10, |code|) == start + (name + Fixed(r, |code|) + code)
  {
    hide TypeCode, Be32, Be16;
    var head := Be16(TypeCode(r.data)) + Be16(r.cls) + Be32(ToU32(r.ttl));
    var b := before + Fixed(r, 0) + code;
    assert b[..|before| + 8] == before + head;
    assert b[|before| + 10..] == code;
    assert before + head + Be16(|code|) + code == start + (name + (head + Be16(|code|)) + code);
  }

  method PutQuestion(c: NameCompressor, buf: array<byte>, q: Question, offset: nat, ghost s: Session)
    returns (ok: bool, next: nat)
    requires c.Ready() && Split(q.name) in c.pool && Holds(c, buf, offset, s)
    modifies c`offsets, c`dict, buf
    ensures c.Ready()
    ensures ok <==> |s.bytes| + |QuestionOut(offset, s.dict, q).code| <= buf.Length
    ensures ok ==> Holds(c, buf, next, Apply(s, QuestionOut(offset, s.dict, q)))
  {
    hide NameOut, Be16;
    ghost var n := NameOut(offset, s.dict, q.name);
    ok, next := PutName(c, buf, q.name, offset, s);
    if !ok { return; }
    var tail := Be16(q.typ) + Be16(q.cls);
    ok, next := PutBytes(c, buf, tail, next, Apply(s, n));
    assert s.bytes + n.code + tail == s.bytes + (n.code + tail);
  }

  function AfterQuestions(s: Session, qs: seq<Question>): Session { Apply(s, QuestionsOut(|s.bytes|, s.dict, qs)) }

  lemma FirstQuestion(s: Session, qs: seq<Question>)
    requires qs != []
    ensures AfterQuestions(s, qs) == AfterQuestions(Apply(s, QuestionOut(|s.bytes|, s.dict, qs[0])), qs[1..])
    ensures |s.bytes| + |QuestionOut(|s.bytes|, s.dict, qs[0]).code| <= |AfterQuestions(s, qs).bytes|
  {
    hide QuestionOut;
    var first := QuestionOut(|s.bytes|, s.dict, qs[0]);
    var rest := QuestionsOut(|s.bytes| + |first.code|, first.dict, qs[1..]);
    assert s.bytes + (first.code + rest.code) == s.bytes + first.code + rest.code;
  }

  lemma NoQuestions(s: Session)
    ensures AfterQuestions(s, []) == s
  {
    assert s.bytes + [] == s.bytes;
  }

  method PutQuestions(c: NameCompressor, buf: array<byte>, qs: seq<Question>, offset: nat, ghost s: Session)
    returns (ok: bool, next: nat)
    requires c.Ready() && Holds(c, buf, offset, s)
    requires forall i :: 0 <= i < |qs| ==> Split(qs[i].name) in c.pool
    modifies c`offsets, c`dict, buf
    ensures c.Ready()
    ensures ok <==> |s.bytes| + |QuestionsOut(offset, s.dict, qs).code| <= buf.Length
    ensures ok ==> Holds(c, buf, next, Apply(s, QuestionsOut(offset, s.dict, qs)))
  {
    hide QuestionOut, QuestionsOut, Split;
    next := offset;
    ghost var done := s;
    for i := 0 to |qs|
      invariant c.Ready() && Holds(c, buf, next, done)
      invariant AfterQuestions(s, qs) == AfterQuestions(done, qs[i..])
    {
      FirstQuestion(done, qs[i..]);
      assert qs[i..][1..] == qs[i + 1..];
      ok, next := PutQuestion(c, buf, qs[i], next, done);
      if !ok { return; }
      done := Apply(done, QuestionOut(|done.bytes|, done.dict, qs[i]));
    }
    NoQuestions(done);
    ok := true;
  }

  method PutRecords(c: NameCompressor, buf: array<byte>, rs: seq<Record>, offset: nat, ghost s: Session)
    returns (ok: bool, next: nat)
    requires c.Ready() && Holds(c, buf, offset, s)
    requires AllPrepared(c.pool, rs)
    modifies c`offsets, c`dict, buf
    ensures c.Ready()
    ensures ok <==> |AfterRecords(s, rs).bytes| <= buf.Length
    ensures ok ==> Holds(c, buf, next, AfterRecords(s, rs))
  {
    hide RecordOut, Prepared, AfterRecords, RecordNames;
    next := offset;
    ghost var done := s;
    for i := 0 to |rs|
      invariant c.Ready() && Holds(c, buf, next, done)
      invariant AfterRecords(s, rs) == AfterRecords(done, rs[i..])
    {
      FirstRecord(done, rs[i..]);
      assert rs[i..][1..] == rs[i + 1..];
      Grows(Apply(done, RecordOut(next, done.dict, rs[i])), rs[i + 1..]);
      ok, next := PutRecord(c, buf, rs[i], next, done);
      if !ok { return; }
      done := Apply(done, RecordOut(|done.bytes|, done.dict, rs[i]));
    }
    NoRecords(done);
    ok := true;
  }

  lemma Grows(s: Session, rs: seq<Record>)
    ensures s.bytes <= AfterRecords(s, rs).bytes
  {
    hide RecordsOut;
  }

  function AfterRecords(s: Session, rs: seq<Record>): Session { Apply(s, RecordsOut(|s.bytes|, s.dict, rs)) }

  lemma FirstRecord(s: Session, rs: seq<Record>)
    requires rs != []
    ensures AfterRecords(s, rs) == AfterRecords(Apply(s, RecordOut(|s.bytes|, s.dict, rs[0])), rs[1..])
  {
    hide RecordOut;
    var first := RecordOut(|s.bytes|, s.dict, rs[0]);
    var rest := RecordsOut(|s.bytes| + |first.code|, first.dict, rs[1..]);
    assert s.bytes + (first.code + rest.code) == s.bytes + first.code + rest.code;
  }

  lemma NoRecords(s: Session)
    ensures AfterRecords(s, []) == s
  {
    assert s.bytes + [] == s.bytes;
  }

  lemma {:induction false} RecordsInTurn(s: Session, a: seq<Record>, b: seq<Record>)
    ensures AfterRecords(s, a + b) == AfterRecords(AfterRecords(s, a), b)
    decreases |a|
  {
    hide AfterRecords, RecordOut;
    if a == [] {
      NoRecords(s);
      assert a + b == b;
    } else {
      FirstRecord(s, a);
      FirstRecord(s, a + b);
      assert (a + b)[1..] == a[1..] + b;
      RecordsInTurn(Apply(s, RecordOut(|s.bytes|, s.dict, a[0])), a[1..], b);
    }
  }

  // ---- the whole message ----

  method PrepareQuestions(c: NameCompressor, qs: seq<Question>)
    modifies c`pool
    ensures forall l :: l in old(c.pool) ==> l in c.pool
    ensures forall i :: 0 <= i < |qs| ==> Split(qs[i].name) in c.pool
  {
    hide Split;
    for i := 0 to |qs|
      invariant forall l :: l in old(c.pool) ==> l in c.pool
      invariant forall j :: 0 <= j < i ==> Split(qs[j].name) in c.pool
    {
      c.Prepare(qs[i].name);
    }
  }

  ghost predicate AllPrepared(pool: seq<Labels>, rs: seq<Record>)
  {
    forall i :: 0 <= i < |rs| ==> Prepared(pool, RecordNames(rs[i]))
  }

  lemma StillPrepared(before: seq<Labels>, after: seq<Labels>, rs: seq<Record>)
    requires AllPrepared(before, rs) && forall l :: l in before ==> l in after
    ensures AllPrepared(after, rs)
  {
    hide Split, RecordNames;
  }

  /** Every name of the message, then the pool is put in order. */
  method PrepareMessage(m: Message) returns (c: NameCompressor)
    ensures fresh(c) && c.Ready() && c.dict == map[]
    ensures forall i :: 0 <= i < |m.questions| ==> Split(m.questions[i].name) in c.pool
    ensures AllPrepared(c.pool, m.answers) && AllPrepared(c.pool, m.authorities) && AllPrepared(c.pool, m.additionals)
  {
    hide Split, Prepared, AllPrepared, RecordNames;
    c := new NameCompressor();
    PrepareQuestions(c, m.questions);
    PrepareRecords(c, m.answers);
    ghost var p1 := c.pool;
    PrepareRecords(c, m.authorities);
    ghost var p2 := c.pool;
    PrepareRecords(c, m.additionals);
    ghost var p3 := c.pool;
    c.Finally();
    StillPrepared(p1, c.pool, m.answers);
    StillPrepared(p2, c.pool, m.authorities);
    StillPrepared(p3, c.pool, m.additionals);
  }

  method PrepareRecords(c: NameCompressor, rs: seq<Record>)
    modifies c`pool
    ensures forall l :: l in old(c.pool) ==> l in c.pool
    ensures AllPrepared(c.pool, rs)
  {
    hide Split, RecordNames;
    for i := 0 to |rs|
      invariant forall l :: l in old(c.pool) ==> l in c.pool
      invariant forall j :: 0 <= j < i ==> Prepared(c.pool, RecordNames(rs[j]))
    {
      var names := RecordNames(rs[i]);
      for k := 0 to |names|
        invariant forall l :: l in old(c.pool) ==> l in c.pool
        invariant forall j :: 0 <= j < i ==> Prepared(c.pool, RecordNames(rs[j]))
        invariant forall j :: 0 <= j < k ==> Split(names[j]) in c.pool
      {
        c.Prepare(names[k]);
      }
    }
  }

  /** The second message is the first with its counts set and its sections sorted. */
  ghost predicate Rearranged(a: Message, b: Message)
  {
    && b.header == Counted(a).header
    && multiset(b.questions) == multiset(a.questions) && SortedBy(b.questions, QuestionLess)
    && multiset(b.answers) == multiset(a.answers) && SectionSorted(b.answers)
    && multiset(b.authorities) == multiset(a.authorities) && SectionSorted(b.authorities)
    && multiset(b.additionals) == multiset(a.additionals) && SectionSorted(b.additionals)
  }

  predicate HasUnknown(rs: seq<Record>) { exists i :: 0 <= i < |rs| && rs[i].data.NoData? }

  method SortSections(m: Message) returns (r: Message)
    ensures Rearranged(m, Counted(r)) && r.header == m.header && Counted(r).header == Counted(m).header
  {
    hide SectionSorted, SortedBy;
    SectionOrders();
    var qs := Sort(m.questions, QuestionLess);
    var a := SortRecords(m.answers);
    var b := SortRecords(m.authorities);
    var c := SortRecords(m.additionals);
    r := m.(questions := qs, answers := a, authorities := b, additionals := c);
  }

  /** Everything after the header. */
  method PutBody(buf: array<byte>, m: Message) returns (ok: bool, next: nat)
    requires buf.Length >= 12
    modifies buf
    ensures ok <==> 12 + |BodyOut(m).code| <= buf.Length
    ensures ok ==> next == 12 + |BodyOut(m).code| && buf[..next] == old(buf[..12]) + BodyOut(m).code
  {
    hide QuestionsOut, AfterRecords, BodyOut, Split, AllPrepared;
    var c := PrepareMessage(m);
    ghost var s0 := Session(buf[..12], map[]);
    ghost var q := QuestionsOut(12, map[], m.questions);
    ghost var s1 := Apply(s0, q);
    ghost var s2 := AfterRecords(s1, m.answers);
    ghost var s3 := AfterRecords(s2, m.authorities);
    RecordsInTurn(s1, m.answers + m.authorities, m.additionals);
    RecordsInTurn(s1, m.answers, m.authorities);
    BodyBytes(s0, m);
    Grows(s1, AllRecords(m));
    Grows(s2, m.authorities);
    Grows(s3, m.additionals);
    ok, next := PutQuestions(c, buf, m.questions, 12, s0);
    if !ok { return; }
    ok, next := PutRecords(c, buf, m.answers, next, s1);
    if !ok { return; }
    ok, next := PutRecords(c, buf, m.authorities, next, s2);
    if !ok { return; }
    ok, next := PutRecords(c, buf, m.additionals, next, s3);
    assert ok ==> next == |buf[..next]|;
  }

  lemma BodyBytes(s0: Session, m: Message)
    requires |s0.bytes| == 12 && s0.dict == map[]
    ensures AfterRecords(Apply(s0, QuestionsOut(12, map[], m.questions)), AllRecords(m)).bytes == s0.bytes + BodyOut(m).code
  {
    hide QuestionsOut, RecordsOut;
  }

  lemma RearrangedOk(a: Message, b: Message)
    requires Rearranged(a, b) && MessageOk(a)
    ensures MessageOk(b)
  {
    hide WellFormed, RecordOk, SectionSorted, SortedBy;
    forall q | q in b.questions ensures WellFormed(q.name) {
      assert q in multiset(b.questions);
      assert q in a.questions;
    }
    forall r | r in AllRecords(b) ensures RecordOk(r) {
      assert r in multiset(b.answers) || r in multiset(b.authorities) || r in multiset(b.additionals);
      assert r in a.answers || r in a.authorities || r in a.additionals;
      assert r in AllRecords(a);
    }
  }

  class Packet {
    var msg: Message

    constructor (m: Message)
      ensures msg == m
    {
      msg := m;
    }

    /** `message_t::write`. A record without data is refused; otherwise the sections are
        sorted and the write succeeds exactly when the encoding fits. Parsing the result
        gives the message as this call leaves it, with the data lengths filled in. */
    method Write(buf: array<byte>) returns (r: Result<nat>)
      modifies this, buf
      ensures buf.Length < 12 ==> r == Err(OutOfRange) && msg == Counted(old(msg))
      ensures buf.Length >= 12 && HasUnknown(AllRecords(old(msg))) ==> r == Err(InvalidDomainName) && msg == Counted(old(msg))
      ensures buf.Length >= 12 && !HasUnknown(AllRecords(old(msg))) ==>
                && Rearranged(old(msg), msg)
                && r == if |EncodeMessage(msg)| <= buf.Length then Ok(|EncodeMessage(msg)|) else Err(OutOfRange)
      ensures r.Ok? ==> buf[..r.value] == EncodeMessage(msg)
      ensures r.Ok? && r.value <= 0x4000 && MessageOk(old(msg)) ==>
                ParseMessage(buf[..r.value])
                == if FitAll(MessageNames(msg), 0, |MessageNames(msg)|) then Ok(FilledMessage(msg)) else Err(InvalidFormat)
    {
      hide Rearranged, MessageOk, MessageNames, FilledMessage, ParseMessage, FitAll, BodyOut, HeaderBytes, AllRecords;
      msg := Counted(msg);
      if buf.Length < 12 { return Err(OutOfRange); }
      var ok, next := WriteBytes(buf, HeaderBytes(msg.header), 0);
      WriteIsAppend(old(buf[..]), buf[..], 0, HeaderBytes(msg.header));
      SameRecords(old(msg));
      if HasUnknown(AllRecords(msg)) { return Err(InvalidDomainName); }
      ghost var was := old(msg);
      var sorted := SortSections(msg);
      SortedRearranged(was, msg, sorted);
      msg := sorted;
      ok, next := PutBody(buf, msg);
      if !ok { return Err(OutOfRange); }
      r := Ok(next);
      assert buf[..next] == EncodeMessage(msg);
      if next <= 0x4000 && MessageOk(was) {
        RearrangedOk(was, msg);
        MessageRoundTrip(msg);
      }
    }
  }

  lemma SameRecords(m: Message)
    ensures AllRecords(Counted(m)) == AllRecords(m)
  {
  }

  lemma SortedRearranged(was: Message, counted: Message, sorted: Message)
    requires counted == Counted(was) && Rearranged(counted, Counted(sorted)) && sorted.header == counted.header
    requires Counted(sorted).header == Counted(counted).header
    ensures Rearranged(was, sorted) && Counted(sorted).header == sorted.header
  {
    hide SectionSorted, SortedBy;
  }
}
