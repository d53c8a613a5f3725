/** Parsing what the writer emits gives the message back. */
module DnsRoundTrip {
  import opened Wire
  import opened DnsName
  import opened DnsCompression
  import opened DnsMessage

  // ---- what can be written, and the names it contains in the order they are written ----

  predicate RdataOk(data: Rdata)
  {
    match data
    case NoData => false
    case Hinfo(cpu, os) => cpu == [] && os == []
    case Wks(_, _, bitmap) => bitmap == []
    case A(_) => true
    case Aaaa(_) => true
    case Txt(_) => true
    case Cname(name) => WellFormed(name)
    case Ns(name) => WellFormed(name)
    case Ptr(name) => WellFormed(name)
    case Mx(_, exchange) => WellFormed(exchange)
    case Soa(mname, rname, _, _, _, _, _) => WellFormed(mname) && WellFormed(rname)
    case Srv(_, _, _, target) => WellFormed(target)
  }

  predicate RecordOk(r: Record) { WellFormed(r.name) && RdataOk(r.data) }

  /** HINFO and the WKS bitmap have no writer, so only their empty values can come back. */
  predicate MessageOk(m: Message)
  {
    && (forall i :: 0 <= i < |m.questions| ==> WellFormed(m.questions[i].name))
    && (forall i :: 0 <= i < |AllRecords(m)| ==> RecordOk(AllRecords(m)[i]))
  }

  /** The names that go through the compressor. */
  function RdataNames(data: Rdata): seq<Text>
  {
    match data
    case Cname(name) => [name]
    case Ns(name) => [name]
    case Ptr(name) => [name]
    case Mx(_, exchange) => [exchange]
    case Soa(mname, rname, _, _, _, _, _) => [mname, rname]
    case _ => []
  }

  function RecordNames(r: Record): seq<Text> { [r.name] + RdataNames(r.data) }

  function QuestionsNames(qs: seq<Question>): seq<Text>
  {
    if qs == [] then [] else [qs[0].name] + QuestionsNames(qs[1..])
  }

  function RecordsNames(rs: seq<Record>): seq<Text>
  {
    if rs == [] then [] else RecordNames(rs[0]) + RecordsNames(rs[1..])
  }

  function MessageNames(m: Message): seq<Text>
  {
    QuestionsNames(m.questions) + RecordsNames(AllRecords(m))
  }

  /** The i-th name needs few enough pointers for the parser. */
  predicate Fits(all: seq<Text>, i: nat)
    requires i < |all|
  {
    Chain(SplitAll(all), i) < MAX_DEPTH
  }

  predicate FitAll(all: seq<Text>, n: nat, m: nat)
    requires m <= |all|
  {
    forall i :: n <= i < m ==> Fits(all, i)
  }

  /** `part` is the stretch of `all` that starts at `n`. */
  predicate Stretch(all: seq<Text>, n: nat, part: seq<Text>)
  {
    n + |part| <= |all| && all[n..n + |part|] == part
  }

  lemma StretchConcat(all: seq<Text>, n: nat, a: seq<Text>, b: seq<Text>)
    requires Stretch(all, n, a + b)
    ensures Stretch(all, n, a) && Stretch(all, n + |a|, b)
  {
    var w := all[n..n + |a| + |b|];
    assert w[..|a|] == all[n..n + |a|] && w[|a|..] == all[n + |a|..n + |a| + |b|];
    assert (a + b)[..|a|] == a && (a + b)[|a|..] == b;
  }

  lemma StretchAt(all: seq<Text>, n: nat, part: seq<Text>, i: nat)
    requires Stretch(all, n, part) && i < |part|
    ensures all[n + i] == part[i]
  {
    assert all[n..n + |part|][i] == all[n + i];
  }

  // ---- the writer's invariant, along the list of names ----

  ghost predicate Good(s: Session, all: seq<Text>, n: nat)
  {
    && n <= |all| && Inv(s)
    && ChainsAgree(s.dict, SplitAll(all), n, ChainTable(SplitAll(all), |all|))
  }

  lemma BytesStep(s: Session, more: seq<byte>, all: seq<Text>, n: nat)
    requires Good(s, all, n)
    ensures Good(Session(s.bytes + more, s.dict), all, n)
  {
    InvFrame(s, more);
  }

  lemma NameStep(s: Session, all: seq<Text>, n: nat, s': Session, buf: seq<byte>, size: nat)
    requires Good(s, all, n) && n < |all| && WellFormed(all[n]) && |s.bytes| <= 0x4000
    requires s' == Apply(s, NameOut(|s.bytes|, s.dict, all[n]))
    requires s'.bytes <= buf && |s'.bytes| <= size <= |buf|
    ensures Good(s', all, n + 1)
    ensures ParseName(buf, size, |s.bytes|, 1, [])
         == if Fits(all, n) then Name(all[n], |s'.bytes|) else Bad(InvalidFormat, |s'.bytes|)
  {
    assert s' == WriteName(s, Split(all[n]));
    SplitFinish(all[n]);
    hide Inv, ChainsAgree, EncodeName, ChainOf, Chain, ChainTable, ParseName, Split, Dotted;
    WriteNameReads(s, all[n], s', buf, size);
    WriteNameAgrees(s, SplitAll(all), n);
    WriteNameInv(s, Split(all[n]));
  }

  // ---- record data ----

  lemma NameDataReads(s: Session, name: Text, all: seq<Text>, n: nat, s': Session, buf: seq<byte>)
    requires Good(s, all, n) && Stretch(all, n, [name]) && WellFormed(name)
    requires s' == Apply(s, NameOut(|s.bytes|, s.dict, name))
    requires |s'.bytes| <= 0x4000 && s'.bytes <= buf
    ensures Good(s', all, n + 1)
    ensures ParseNameData(buf, |s.bytes|, |s'.bytes|)
         == if FitAll(all, n, n + 1) then Ok(name) else Err(InvalidFormat)
  {
    hide Good, NameOut, ParseName, Fits, WellFormed;
    StretchAt(all, n, [name], 0);
    NameStep(s, all, n, s', buf, |s'.bytes|);
  }

  lemma MxReads(s: Session, data: Rdata, all: seq<Text>, n: nat, s': Session, buf: seq<byte>)
    requires data.Mx? && RdataOk(data)
    requires Good(s, all, n) && Stretch(all, n, RdataNames(data))
    requires s' == Apply(s, RdataOut(|s.bytes|, s.dict, data))
    requires |s'.bytes| <= 0x4000 && s'.bytes <= buf
    ensures Good(s', all, n + 1)
    ensures ParseMx(buf, |s.bytes|, |s'.bytes|) == if FitAll(all, n, n + 1) then Ok(data) else Err(InvalidFormat)
  {
    hide Good, NameOut, ParseNameData, FitAll, WellFormed, Be16;
    var pref := Be16(ToU16(data.preference));
    var s1 := Session(s.bytes + pref, s.dict);
    var o := NameOut(|s1.bytes|, s1.dict, data.exchange);
    BytesStep(s, pref, all, n);
    assert s.bytes + (pref + o.code) == s1.bytes + o.code;
    NameDataReads(s1, data.exchange, all, n, s', buf);
    assert Has(buf, |s.bytes|, pref) by { HasAppended(s.bytes, pref, o.code); HasPrefix(s'.bytes, buf, |s.bytes|, pref); }
    ReadBe16(buf, |s.bytes|, ToU16(data.preference));
  }

  lemma HasPrefix(a: seq<byte>, b: seq<byte>, p: nat, x: seq<byte>)
    requires Has(a, p, x) && a <= b
    ensures Has(b, p, x)
  {
  }

  lemma SoaReads(s: Session, data: Rdata, all: seq<Text>, n: nat, s': Session, buf: seq<byte>)
    requires data.Soa? && RdataOk(data)
    requires Good(s, all, n) && Stretch(all, n, RdataNames(data))
    requires s' == Apply(s, RdataOut(|s.bytes|, s.dict, data))
    requires |s'.bytes| <= 0x4000 && s'.bytes <= buf
    ensures Good(s', all, n + 2)
    ensures ParseSoa(buf, |s.bytes|, |s'.bytes|) == if FitAll(all, n, n + 2) then Ok(data) else Err(InvalidFormat)
  {
    hide Good, NameOut, ParseName, Fits, WellFormed, SoaNumbers, U32, Has, RdataOut;
    var s1 := Apply(s, NameOut(|s.bytes|, s.dict, data.mname));
    var s2 := Apply(s1, NameOut(|s1.bytes|, s1.dict, data.rname));
    SoaLayout(s, data, s1, s2, s', buf);
    StretchAt(all, n, RdataNames(data), 0);
    StretchAt(all, n, RdataNames(data), 1);
    NameStep(s, all, n, s1, buf, |s'.bytes|);
    NameStep(s1, all, n + 1, s2, buf, |s'.bytes|);
    BytesStep(s2, SoaNumbers(data), all, n + 2);
    SoaNumbersRead(buf, |s2.bytes|, data);
  }

  lemma SoaLayout(s: Session, data: Rdata, s1: Session, s2: Session, s': Session, buf: seq<byte>)
    requires data.Soa?
    requires s1 == Apply(s, NameOut(|s.bytes|, s.dict, data.mname))
    requires s2 == Apply(s1, NameOut(|s1.bytes|, s1.dict, data.rname))
    requires s' == Apply(s, RdataOut(|s.bytes|, s.dict, data)) && s'.bytes <= buf
    ensures s' == Session(s2.bytes + SoaNumbers(data), s2.dict)
    ensures Has(buf, |s2.bytes|, SoaNumbers(data)) && s1.bytes <= s2.bytes <= s'.bytes
  {
    hide NameOut, SoaNumbers;
    var numbers := SoaNumbers(data);
    assert s'.bytes == s2.bytes + numbers;
    assert buf[|s2.bytes|..|s2.bytes| + 20] == numbers;
  }

  lemma SoaNumbersRead(buf: seq<byte>, p: nat, data: Rdata)
    requires data.Soa? && Has(buf, p, SoaNumbers(data))
    ensures U32(buf, p) == data.serial && ToI32(U32(buf, p + 4)) == data.refresh && ToI32(U32(buf, p + 8)) == data.retry
    ensures ToI32(U32(buf, p + 12)) == data.expire && U32(buf, p + 16) == data.minimum
  {
    var a, b, c, d, e := Be32(data.serial), Be32(ToU32(data.refresh)), Be32(ToU32(data.retry)),
         Be32(ToU32(data.expire)), Be32(data.minimum);
    HasConcat(buf, p, a + b + c + d, e);
    HasConcat(buf, p, a + b + c, d);
    HasConcat(buf, p, a + b, c);
    HasConcat(buf, p, a, b);
    ReadBe32(buf, p, data.serial);
    ReadBe32(buf, p + 4, ToU32(data.refresh));
    ReadBe32(buf, p + 8, ToU32(data.retry));
    ReadBe32(buf, p + 12, ToU32(data.expire));
    ReadBe32(buf, p + 16, data.minimum);
  }

  /** A name written in full is a correct encoding without pointers. */
  lemma PlainNameReads(buf: seq<byte>, p: nat, name: Text, size: nat)
    requires WellFormed(name) && Has(buf, p, PlainName(name))
    requires p + |PlainName(name)| <= size <= |buf|
    ensures ParseName(buf, size, p, 1, []) == Name(name, p + |PlainName(name)|)
  {
    var labels := Split(name);
    HasConcat(buf, p, LabelBytes(labels), [0]);
    HasAt(buf, p + |LabelBytes(labels)|, [0], 0);
    LabelsThenRest(buf, p, p, labels, [], 0, p + |PlainName(name)|);
    assert labels + [] == labels;
    ParseWhole(buf, p, name, 0, p + |PlainName(name)|, size);
  }

  lemma SrvReads(buf: seq<byte>, p: nat, data: Rdata)
    requires data.Srv? && RdataOk(data) && Has(buf, p, SrvNumbers(data) + PlainName(data.target))
    ensures ParseSrv(buf, p, p + 6 + |PlainName(data.target)|) == Ok(data)
  {
    HasConcat(buf, p, SrvNumbers(data), PlainName(data.target));
    PlainNameReads(buf, p + 6, data.target, p + 6 + |PlainName(data.target)|);
    HasConcat(buf, p, Be16(data.priority) + Be16(data.weight), Be16(data.port));
    HasConcat(buf, p, Be16(data.priority), Be16(data.weight));
    ReadBe16(buf, p, data.priority);
    ReadBe16(buf, p + 2, data.weight);
    ReadBe16(buf, p + 4, data.port);
  }

  /** Data without compressed names. */
  lemma PlainReads(buf: seq<byte>, p: nat, d: Dict, data: Rdata)
    requires RdataOk(data) && RdataNames(data) == []
    requires Has(buf, p, RdataOut(p, d, data).code)
    ensures ParseRdata(buf, p, p + |RdataOut(p, d, data).code|, TypeCode(data)) == Ok(data)
  {
    match data
    case A(address) => ReadBe32(buf, p, address);
    case Wks(address, protocol, _) =>
      HasConcat(buf, p, Be32(address), [protocol]);
      HasAt(buf, p + 4, [protocol], 0);
      ReadBe32(buf, p, address);
    case Srv(_, _, _, _) => SrvReads(buf, p, data);
    case Aaaa(_) =>
    case Txt(_) =>
    case Hinfo(_, _) =>
  }

  lemma RdataReads(s: Session, data: Rdata, all: seq<Text>, n: nat, s': Session, buf: seq<byte>)
    requires RdataOk(data)
    requires Good(s, all, n) && Stretch(all, n, RdataNames(data))
    requires s' == Apply(s, RdataOut(|s.bytes|, s.dict, data))
    requires |s'.bytes| <= 0x4000 && s'.bytes <= buf
    ensures Good(s', all, n + |RdataNames(data)|)
    ensures ParseRdata(buf, |s.bytes|, |s'.bytes|, TypeCode(data))
         == if FitAll(all, n, n + |RdataNames(data)|) then Ok(data) else Err(InvalidFormat)
  {
    hide Good, NameOut, ParseNameData, ParseMx, ParseSoa, Fits, WellFormed;
    if data.Cname? {
      NameDataReads(s, data.cname, all, n, s', buf);
    } else if data.Ns? {
      NameDataReads(s, data.ns, all, n, s', buf);
    } else if data.Ptr? {
      NameDataReads(s, data.ptr, all, n, s', buf);
    } else if data.Mx? {
      MxReads(s, data, all, n, s', buf);
    } else if data.Soa? {
      SoaReads(s, data, all, n, s', buf);
    } else {
      var code := RdataOut(|s.bytes|, s.dict, data).code;
      BytesStep(s, code, all, n);
      assert Has(buf, |s.bytes|, code);
      PlainReads(buf, |s.bytes|, s.dict, data);
    }
  }

  // ---- records, questions, sections ----

  lemma FixedReads(buf: seq<byte>, p: nat, r: Record, rdlength: u16)
    requires Has(buf, p, Fixed(r, rdlength))
    ensures U16(buf, p) == TypeCode(r.data) && U16(buf, p + 2) == r.cls
    ensures ToI32(U32(buf, p + 4)) == r.ttl && U16(buf, p + 8) == rdlength
  {
    hide TypeCode;
    var a, b, c, d := Be16(TypeCode(r.data)), Be16(r.cls), Be32(ToU32(r.ttl)), Be16(rdlength);
    HasConcat(buf, p, a + b + c, d);
    HasConcat(buf, p, a + b, c);
    HasConcat(buf, p, a, b);
    ReadBe16(buf, p, TypeCode(r.data));
    ReadBe16(buf, p + 2, r.cls);
    ReadBe32(buf, p + 4, ToU32(r.ttl));
    ReadBe16(buf, p + 8, rdlength);
  }

  /** The record as the parser will show it: only the data length is new. */
  function Filled(pos: nat, d: Dict, r: Record): Record
  {
    r.(rdlength := |RecordRdata(pos, d, r).code| % 0x1_0000)
  }

  lemma RecordReads(s: Session, r: Record, all: seq<Text>, n: nat, s': Session, buf: seq<byte>)
    requires RecordOk(r) && Good(s, all, n) && Stretch(all, n, RecordNames(r))
    requires s' == Apply(s, RecordOut(|s.bytes|, s.dict, r))
    requires |s'.bytes| <= 0x4000 && s'.bytes <= buf
    ensures Good(s', all, n + |RecordNames(r)|)
    ensures ParseRecord(buf, |s.bytes|)
         == if FitAll(all, n, n + |RecordNames(r)|) then Ok(Read(Filled(|s.bytes|, s.dict, r), |s'.bytes|))
            else Err(InvalidFormat)
  {
    hide Good, NameOut, RdataOut, ParseName, ParseRdata, Fits, WellFormed, RdataOk, RdataNames, TypeCode, U16, U32,
         Fixed, Has, Stretch;
    var s1 := Apply(s, NameOut(|s.bytes|, s.dict, r.name));
    var rd := RecordRdata(|s.bytes|, s.dict, r);
    var fixed := Fixed(r, |rd.code|);
    var s2 := Session(s1.bytes + fixed, s1.dict);
    RecordLayout(s, r, s1, s2, s', buf);
    StretchConcat(all, n, [r.name], RdataNames(r.data));
    StretchAt(all, n, [r.name], 0);
    NameStep(s, all, n, s1, buf, |buf|);
    BytesStep(s1, fixed, all, n + 1);
    RdataReads(s2, r.data, all, n + 1, s', buf);
    FixedReads(buf, |s1.bytes|, r, |rd.code|);
  }

  lemma RecordLayout(s: Session, r: Record, s1: Session, s2: Session, s': Session, buf: seq<byte>)
    requires s1 == Apply(s, NameOut(|s.bytes|, s.dict, r.name))
    requires s2 == Session(s1.bytes + Fixed(r, |RecordRdata(|s.bytes|, s.dict, r).code|), s1.dict)
    requires s' == Apply(s, RecordOut(|s.bytes|, s.dict, r)) && s'.bytes <= buf
    ensures s' == Apply(s2, RdataOut(|s2.bytes|, s2.dict, r.data))
    ensures RecordRdata(|s.bytes|, s.dict, r) == RdataOut(|s2.bytes|, s2.dict, r.data)
    ensures Has(buf, |s1.bytes|, Fixed(r, |RecordRdata(|s.bytes|, s.dict, r).code|))
    ensures s1.bytes <= s2.bytes <= s'.bytes
  {
    hide NameOut, RdataOut, Fixed;
    var name, rd := NameOut(|s.bytes|, s.dict, r.name), RecordRdata(|s.bytes|, s.dict, r);
    var fixed := Fixed(r, |rd.code|);
    assert s.bytes + (name.code + fixed + rd.code) == s.bytes + name.code + fixed + rd.code;
    HasAppended(s1.bytes, fixed, rd.code);
    assert s1.bytes + (fixed + rd.code) == s'.bytes;
    HasPrefix(s'.bytes, buf, |s1.bytes|, fixed);
  }

  lemma QuestionReads(s: Session, q: Question, all: seq<Text>, n: nat, s': Session, buf: seq<byte>)
    requires WellFormed(q.name) && Good(s, all, n) && Stretch(all, n, [q.name])
    requires s' == Apply(s, QuestionOut(|s.bytes|, s.dict, q))
    requires |s'.bytes| <= 0x4000 && s'.bytes <= buf
    ensures Good(s', all, n + 1)
    ensures ParseQuestion(buf, |s.bytes|)
         == if FitAll(all, n, n + 1) then Ok(Read(q, |s'.bytes|)) else Err(InvalidFormat)
  {
    hide Good, NameOut, ParseName, Fits, WellFormed, Be16, U16;
    var name := NameOut(|s.bytes|, s.dict, q.name);
    var s1 := Apply(s, name);
    var typ, cls := Be16(q.typ), Be16(q.cls);
    assert s'.bytes == s1.bytes + (typ + cls);
    StretchAt(all, n, [q.name], 0);
    NameStep(s, all, n, s1, buf, |buf|);
    BytesStep(s1, typ + cls, all, n + 1);
    HasAppended(s1.bytes, typ, cls);
    HasPrefix(s'.bytes, buf, |s1.bytes|, typ);
    HasPrefix(s'.bytes, buf, |s1.bytes| + 2, cls);
    ReadBe16(buf, |s1.bytes|, q.typ);
    ReadBe16(buf, |s1.bytes| + 2, q.cls);
  }

  lemma FitSplit(all: seq<Text>, n: nat, k: nat, m: nat)
    requires n <= k <= m <= |all|
    ensures FitAll(all, n, m) <==> FitAll(all, n, k) && FitAll(all, k, m)
  {
    hide Fits;
  }

  ghost predicate SameButLength(a: seq<Record>, b: seq<Record>)
  {
    |a| == |b| && forall i :: 0 <= i < |a| ==> a[i].(rdlength := 0) == b[i].(rdlength := 0)
  }

  function FilledAll(pos: nat, d: Dict, rs: seq<Record>): (r: seq<Record>)
    ensures SameButLength(r, rs)
    decreases |rs|
  {
    if rs == [] then []
    else
      var first := RecordOut(pos, d, rs[0]);
      [Filled(pos, d, rs[0])] + FilledAll(pos + |first.code|, first.dict, rs[1..])
  }

  lemma {:induction false} RecordsRead(s: Session, rs: seq<Record>, all: seq<Text>, n: nat, s': Session, buf: seq<byte>)
    requires (forall i :: 0 <= i < |rs| ==> RecordOk(rs[i])) && Good(s, all, n) && Stretch(all, n, RecordsNames(rs))
    requires s' == Apply(s, RecordsOut(|s.bytes|, s.dict, rs))
    requires |s'.bytes| <= 0x4000 && s'.bytes <= buf
    ensures Good(s', all, n + |RecordsNames(rs)|)
    ensures ParseRecords(buf, |rs|, |s.bytes|)
         == if FitAll(all, n, n + |RecordsNames(rs)|) then Ok(Read(FilledAll(|s.bytes|, s.dict, rs), |s'.bytes|))
            else Err(InvalidFormat)
    decreases |rs|
  {
    hide Good, RecordOut, ParseRecord, Fits, FitAll, RecordOk, RecordNames, Filled;
    if rs == [] {
      assert s'.bytes == s.bytes;
      assert FitAll(all, n, n) by { EmptyFits(all, n); }
    } else {
      var first := RecordOut(|s.bytes|, s.dict, rs[0]);
      var s1 := Apply(s, first);
      var k := n + |RecordNames(rs[0])|;
      assert s' == Apply(s1, RecordsOut(|s1.bytes|, s1.dict, rs[1..])) by {
        var rest := RecordsOut(|s1.bytes|, s1.dict, rs[1..]).code;
        assert s.bytes + (first.code + rest) == s.bytes + first.code + rest;
      }
      StretchConcat(all, n, RecordNames(rs[0]), RecordsNames(rs[1..]));
      RecordReads(s, rs[0], all, n, s1, buf);
      RecordsRead(s1, rs[1..], all, k, s', buf);
      FitSplit(all, n, k, n + |RecordsNames(rs)|);
    }
  }

  lemma EmptyFits(all: seq<Text>, n: nat)
    requires n <= |all|
    ensures FitAll(all, n, n)
  {
  }

  lemma {:induction false} QuestionsRead(s: Session, qs: seq<Question>, all: seq<Text>, n: nat, s': Session, buf: seq<byte>)
    requires (forall i :: 0 <= i < |qs| ==> WellFormed(qs[i].name)) && Good(s, all, n) && Stretch(all, n, QuestionsNames(qs))
    requires s' == Apply(s, QuestionsOut(|s.bytes|, s.dict, qs))
    requires |s'.bytes| <= 0x4000 && s'.bytes <= buf
    ensures Good(s', all, n + |QuestionsNames(qs)|)
    ensures ParseQuestions(buf, |qs|, |s.bytes|)
         == if FitAll(all, n, n + |QuestionsNames(qs)|) then Ok(Read(qs, |s'.bytes|)) else Err(InvalidFormat)
    decreases |qs|
  {
    hide Good, QuestionOut, ParseQuestion, Fits, FitAll, WellFormed;
    if qs == [] {
      assert s'.bytes == s.bytes;
      EmptyFits(all, n);
    } else {
      var first := QuestionOut(|s.bytes|, s.dict, qs[0]);
      var s1 := Apply(s, first);
      assert s' == Apply(s1, QuestionsOut(|s1.bytes|, s1.dict, qs[1..])) by {
        var rest := QuestionsOut(|s1.bytes|, s1.dict, qs[1..]).code;
        assert s.bytes + (first.code + rest) == s.bytes + first.code + rest;
      }
      StretchConcat(all, n, [qs[0].name], QuestionsNames(qs[1..]));
      QuestionReads(s, qs[0], all, n, s1, buf);
      QuestionsRead(s1, qs[1..], all, n + 1, s', buf);
      FitSplit(all, n, n + 1, n + |QuestionsNames(qs)|);
      assert qs == [qs[0]] + qs[1..];
    }
  }

  // ---- whole messages ----

  lemma {:induction false} RecordsAreLong(pos: nat, d: Dict, rs: seq<Record>)
    ensures |RecordsOut(pos, d, rs).code| >= 11 * |rs|
    decreases |rs|
  {
    hide RecordOut;
    if rs != [] {
      var first := RecordOut(pos, d, rs[0]);
      RecordsAreLong(pos + |first.code|, first.dict, rs[1..]);
    }
  }

  lemma {:induction false} QuestionsAreLong(pos: nat, d: Dict, qs: seq<Question>)
    ensures |QuestionsOut(pos, d, qs).code| >= 5 * |qs|
    decreases |qs|
  {
    hide QuestionOut;
    if qs != [] {
      var first := QuestionOut(pos, d, qs[0]);
      QuestionsAreLong(pos + |first.code|, first.dict, qs[1..]);
    }
  }

  lemma HeaderReads(buf: seq<byte>, h: Header)
    requires Has(buf, 0, HeaderBytes(h))
    ensures ParseHeader(buf) == h
  {
    var a, b, c, d, e, f := Be16(h.id), [h.flags0, h.flags1], Be16(h.questionsCount), Be16(h.answersCount),
                            Be16(h.authoritiesCount), Be16(h.additionalsCount);
    HasConcat(buf, 0, a + b + c + d + e, f);
    HasConcat(buf, 0, a + b + c + d, e);
    HasConcat(buf, 0, a + b + c, d);
    HasConcat(buf, 0, a + b, c);
    HasConcat(buf, 0, a, b);
    HasAt(buf, 2, b, 0);
    HasAt(buf, 2, b, 1);
    ReadBe16(buf, 0, h.id);
    ReadBe16(buf, 4, h.questionsCount);
    ReadBe16(buf, 6, h.answersCount);
    ReadBe16(buf, 8, h.authoritiesCount);
    ReadBe16(buf, 10, h.additionalsCount);
  }

  /** The message that comes back: counts and data lengths filled in, nothing else changed. */
  function FilledMessage(m: Message): Message
  {
    var q := QuestionsOut(12, map[], m.questions);
    var rs := FilledAll(12 + |q.code|, q.dict, AllRecords(m));
    var a, b := |m.answers|, |m.answers| + |m.authorities|;
    Counted(m).(answers := rs[..a], authorities := rs[a..b], additionals := rs[b..])
  }

  lemma FilledSame(m: Message)
    ensures var f := FilledMessage(m);
            && f.questions == m.questions
            && SameButLength(f.answers, m.answers)
            && SameButLength(f.authorities, m.authorities)
            && SameButLength(f.additionals, m.additionals)
  {
    hide QuestionsOut, FilledAll;
    var q := QuestionsOut(12, map[], m.questions);
    var rs := FilledAll(12 + |q.code|, q.dict, AllRecords(m));
  }

  /** Parsing a written message of up to 2^14 bytes gives it back, with the counts and the data
      lengths filled in, if every compressed name needs fewer than 20 pointers; otherwise
      the parser refuses it. */
  lemma MessageRoundTrip(m: Message)
    requires MessageOk(m) && |EncodeMessage(m)| <= 0x4000
    ensures ParseMessage(EncodeMessage(m))
         == if FitAll(MessageNames(m), 0, |MessageNames(m)|) then Ok(FilledMessage(m)) else Err(InvalidFormat)
  {
    hide QuestionsOut, RecordsOut, ParseQuestions, ParseRecords, FitAll, MessageNames, MessageOk, FilledAll,
         HeaderBytes, ParseHeader, Has, QuestionsNames, AllRecords, EncodeMessage;
    var h, all := Counted(m).header, MessageNames(m);
    var q := QuestionsOut(12, map[], m.questions);
    var s0 := Session(HeaderBytes(h), map[]);
    var s1 := Apply(s0, q);
    var s2 := Apply(s1, RecordsOut(|s1.bytes|, s1.dict, AllRecords(m)));
    MessageLayout(m, s0, s1, s2);
    BodyReads(m, s0, s1, s2, all);
    HeaderReads(s2.bytes, h);
  }

  /** The encoding is the header, the questions and the records; the counts are not truncated. */
  lemma MessageLayout(m: Message, s0: Session, s1: Session, s2: Session)
    requires |EncodeMessage(m)| <= 0x4000
    requires s0 == Session(HeaderBytes(Counted(m).header), map[])
    requires s1 == Apply(s0, QuestionsOut(12, map[], m.questions))
    requires s2 == Apply(s1, RecordsOut(|s1.bytes|, s1.dict, AllRecords(m)))
    ensures EncodeMessage(m) == s2.bytes && Has(s2.bytes, 0, HeaderBytes(Counted(m).header))
    ensures |AllRecords(m)| == |m.answers| + |m.authorities| + |m.additionals| < 0x1_0000
    ensures |m.questions| < 0x1_0000
  {
    hide QuestionsOut, RecordsOut, HeaderBytes, Counted;
    QuestionsAreLong(12, map[], m.questions);
    RecordsAreLong(|s1.bytes|, s1.dict, AllRecords(m));
    var h, q, r := HeaderBytes(Counted(m).header), QuestionsOut(12, map[], m.questions).code,
                   RecordsOut(|s1.bytes|, s1.dict, AllRecords(m)).code;
    assert h + (q + r) == h + q + r;
  }

  lemma WholeStretch(all: seq<Text>)
    ensures Stretch(all, 0, all)
  {
  }

  lemma EmptyGood(s: Session, all: seq<Text>)
    requires s.dict == map[]
    ensures Good(s, all, 0)
  {
    hide ChainTable;
  }

  lemma BodyReads(m: Message, s0: Session, s1: Session, s2: Session, all: seq<Text>)
    requires MessageOk(m) && s0.dict == map[] && all == MessageNames(m)
    requires s1 == Apply(s0, QuestionsOut(|s0.bytes|, map[], m.questions))
    requires s2 == Apply(s1, RecordsOut(|s1.bytes|, s1.dict, AllRecords(m)))
    requires |s2.bytes| <= 0x4000
    ensures var k := |QuestionsNames(m.questions)|;
            && FitAll(all, 0, |all|) == (FitAll(all, 0, k) && FitAll(all, k, |all|))
            && ParseQuestions(s2.bytes, |m.questions|, |s0.bytes|)
               == (if FitAll(all, 0, k) then Ok(Read(m.questions, |s1.bytes|)) else Err(InvalidFormat))
            && ParseRecords(s2.bytes, |AllRecords(m)|, |s1.bytes|)
               == (if FitAll(all, k, |all|) then Ok(Read(FilledAll(|s1.bytes|, s1.dict, AllRecords(m)), |s2.bytes|))
                   else Err(InvalidFormat))
  {
    hide Fits, FitAll, ParseQuestions, ParseRecords, RecordsOut, QuestionsOut, QuestionsNames, RecordsNames, FilledAll,
         WellFormed, RecordOk, Good, Stretch;
    var k := |QuestionsNames(m.questions)|;
    assert all == QuestionsNames(m.questions) + RecordsNames(AllRecords(m));
    assert Stretch(all, 0, all) by { WholeStretch(all); }
    StretchConcat(all, 0, QuestionsNames(m.questions), RecordsNames(AllRecords(m)));
    EmptyGood(s0, all);
    FitSplit(all, 0, k, |all|);
    QuestionsRead(s0, m.questions, all, 0, s1, s2.bytes);
    RecordsRead(s1, AllRecords(m), all, k, s2, s2.bytes);
  }
}
