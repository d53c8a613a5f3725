/** DNS messages (section 4.1 of RFC 1035, and RFC 2782 for SRV): the data, the bytes the
    writer emits for it, and what the parser makes of any bytes. */
module DnsMessage {
  import opened Wire
  import opened DnsName
  import opened DnsCompression

  type Text = seq<byte>
  type Octets16 = s: seq<byte> | |s| == 16 witness seq(16, _ => 0)

  datatype Rdata =
    | NoData
    | A(address: u32)
    | Aaaa(octets: Octets16)
    | Cname(cname: Text)
    | Hinfo(cpu: Text, os: Text)
    | Mx(preference: i16, exchange: Text)
    | Ns(ns: Text)
    | Ptr(ptr: Text)
    | Soa(mname: Text, rname: Text, serial: u32, refresh: i32, retry: i32, expire: i32, minimum: u32)
    | Txt(txt: Text)
    | Wks(wksAddress: u32, protocol: byte, bitmap: seq<bool>)
    | Srv(priority: u16, weight: u16, port: u16, target: Text)

  datatype Question = Question(name: Text, typ: u16, cls: u16)
  datatype Record = Record(name: Text, cls: u16, ttl: i32, rdlength: u16, data: Rdata)

  /** The two flag bytes are copied through as they lie in memory. */
  datatype Header = Header(id: u16, flags0: byte, flags1: byte,
                           questionsCount: u16, answersCount: u16, authoritiesCount: u16, additionalsCount: u16)

  datatype Message = Message(header: Header, questions: seq<Question>,
                             answers: seq<Record>, authorities: seq<Record>, additionals: seq<Record>)

  function TypeCode(data: Rdata): u16
  {
    match data
    case NoData => 65280
    case A(_) => 1
    case Ns(_) => 2
    case Cname(_) => 5
    case Soa(_, _, _, _, _, _, _) => 6
    case Wks(_, _, _) => 11
    case Ptr(_) => 12
    case Hinfo(_, _) => 13
    case Mx(_, _) => 15
    case Txt(_) => 16
    case Aaaa(_) => 28
    case Srv(_, _, _, _) => 33
  }

  // ---- writing ----

  /** Bytes emitted at some position, and the names known after them. */
  datatype Out = Out(code: seq<byte>, dict: Dict)

  function Apply(s: Session, o: Out): Session { Session(s.bytes + o.code, o.dict) }

  function NameOut(pos: nat, d: Dict, name: Text): Out
  {
    var labels := Split(name);
    var code := EncodeName(d, labels);
    Out(code, d[labels := Entry(pos, pos + |code|, ChainOf(d, labels))])
  }

  /** SRV targets are written in full. */
  function PlainName(name: Text): seq<byte> { LabelBytes(Split(name)) + [0] }

  function SoaNumbers(data: Rdata): (r: seq<byte>)
    requires data.Soa?
    ensures |r| == 20
  {
    Be32(data.serial) + Be32(ToU32(data.refresh)) + Be32(ToU32(data.retry)) + Be32(ToU32(data.expire)) + Be32(data.minimum)
  }

  function SrvNumbers(data: Rdata): (r: seq<byte>)
    requires data.Srv?
    ensures |r| == 6
  {
    Be16(data.priority) + Be16(data.weight) + Be16(data.port)
  }

  function RdataOut(pos: nat, d: Dict, data: Rdata): Out
  {
    match data
    case NoData => Out([], d)
    case Hinfo(_, _) => Out([], d)
    case A(address) => Out(Be32(address), d)
    case Aaaa(octets) => Out(octets, d)
    case Txt(txt) => Out(txt, d)
    case Wks(address, protocol, _) => Out(Be32(address) + [protocol], d)
    case Srv(_, _, _, target) => Out(SrvNumbers(data) + PlainName(target), d)
    case Cname(name) => NameOut(pos, d, name)
    case Ns(name) => NameOut(pos, d, name)
    case Ptr(name) => NameOut(pos, d, name)
    case Mx(preference, exchange) =>
      var o := NameOut(pos + 2, d, exchange);
      Out(Be16(ToU16(preference)) + o.code, o.dict)
    case Soa(mname, rname, _, _, _, _, _) =>
      var m := NameOut(pos, d, mname);
      var r := NameOut(pos + |m.code|, m.dict, rname);
      Out(m.code + r.code + SoaNumbers(data), r.dict)
  }

  /** Type, class, time to live and the length of what follows. */
  function Fixed(r: Record, rdlength: nat): (b: seq<byte>)
    ensures |b| == 10
  {
    Be16(TypeCode(r.data)) + Be16(r.cls) + Be32(ToU32(r.ttl)) + Be16(rdlength)
  }

  function RecordRdata(pos: nat, d: Dict, r: Record): Out
  {
    var n := NameOut(pos, d, r.name);
    RdataOut(pos + |n.code| + 10, n.dict, r.data)
  }

  function RecordOut(pos: nat, d: Dict, r: Record): (o: Out)
    ensures |o.code| >= 11
  {
    var rd := RecordRdata(pos, d, r);
    Out(NameOut(pos, d, r.name).code + Fixed(r, |rd.code|) + rd.code, rd.dict)
  }

  function QuestionOut(pos: nat, d: Dict, q: Question): (o: Out)
    ensures |o.code| >= 5
  {
    var n := NameOut(pos, d, q.name);
    Out(n.code + (Be16(q.typ) + Be16(q.cls)), n.dict)
  }

  function QuestionsOut(pos: nat, d: Dict, qs: seq<Question>): Out
    decreases |qs|
  {
    if qs == [] then Out([], d)
    else
      var first := QuestionOut(pos, d, qs[0]);
      var rest := QuestionsOut(pos + |first.code|, first.dict, qs[1..]);
      Out(first.code + rest.code, rest.dict)
  }

  function RecordsOut(pos: nat, d: Dict, rs: seq<Record>): Out
    decreases |rs|
  {
    if rs == [] then Out([], d)
    else
      var first := RecordOut(pos, d, rs[0]);
      var rest := RecordsOut(pos + |first.code|, first.dict, rs[1..]);
      Out(first.code + rest.code, rest.dict)
  }

  function HeaderBytes(h: Header): (r: seq<byte>)
    ensures |r| == 12
  {
    Be16(h.id) + [h.flags0, h.flags1] + Be16(h.questionsCount) + Be16(h.answersCount)
    + Be16(h.authoritiesCount) + Be16(h.additionalsCount)
  }

  /** The counts are truncated to 16 bits. */
  function Counted(m: Message): Message
  {
    m.(header := m.header.(questionsCount := |m.questions| % 0x1_0000, answersCount := |m.answers| % 0x1_0000,
                           authoritiesCount := |m.authorities| % 0x1_0000, additionalsCount := |m.additionals| % 0x1_0000))
  }

  function AllRecords(m: Message): seq<Record> { m.answers + m.authorities + m.additionals }

  /** Questions first, then the three record sections, through one dictionary. */
  function BodyOut(m: Message): Out
  {
    var q := QuestionsOut(12, map[], m.questions);
    var r := RecordsOut(12 + |q.code|, q.dict, AllRecords(m));
    Out(q.code + r.code, r.dict)
  }

  function EncodeMessage(m: Message): seq<byte>
  {
    HeaderBytes(Counted(m).header) + BodyOut(m).code
  }

  // ---- parsing ----

  /** A name that must fill the whole of the record data. */
  function ParseNameData(buf: seq<byte>, p: nat, end: nat): Result<Text>
    requires end <= |buf|
  {
    var n := ParseName(buf, end, p, 1, []);
    if n.next != end then Err(InvalidFormat) else if n.Bad? then Err(n.error) else Ok(n.name)
  }

  function ParseSoa(buf: seq<byte>, p: nat, end: nat): Result<Rdata>
    requires p <= end <= |buf|
  {
    var m := ParseName(buf, end, p, 1, []);
    if m.Bad? then Err(m.error)
    else
      var r := ParseName(buf, end, m.next, 1, []);
      if r.Bad? then Err(r.error)
      else
        var o := r.next;
        if end - o < 20 then if o != end then Err(InvalidFormat) else Err(OutOfRange)
        else if o + 20 != end then Err(InvalidFormat)
        else Ok(Soa(m.name, r.name, U32(buf, o), ToI32(U32(buf, o + 4)), ToI32(U32(buf, o + 8)),
                    ToI32(U32(buf, o + 12)), U32(buf, o + 16)))
  }

  function ParseSrv(buf: seq<byte>, p: nat, end: nat): Result<Rdata>
    requires p <= end <= |buf|
  {
    if end - p <= 6 then Err(InvalidFormat)
    else
      var n := ParseName(buf, end, p + 6, 1, []);
      if n.Bad? then Err(n.error) else Ok(Srv(U16(buf, p), U16(buf, p + 2), U16(buf, p + 4), n.name))
  }

  function ParseMx(buf: seq<byte>, p: nat, end: nat): Result<Rdata>
    requires p <= end <= |buf|
  {
    if p + 2 > |buf| then Err(InvalidFormat)
    else
      match ParseNameData(buf, p + 2, end)
      case Ok(name) => Ok(Mx(ToI16(U16(buf, p)), name))
      case Err(e) => Err(e)
  }

  function MapName(r: Result<Text>, f: Text -> Rdata): Result<Rdata>
  {
    match r case Ok(name) => Ok(f(name)) case Err(e) => Err(e)
  }

  function ParseRdata(buf: seq<byte>, p: nat, end: nat, typ: u16): Result<Rdata>
    requires p <= end <= |buf|
  {
    match typ
    case 1 => if end - p != 4 then Err(InvalidFormat) else Ok(A(U32(buf, p)))
    case 2 => MapName(ParseNameData(buf, p, end), n => Ns(n))
    case 5 => MapName(ParseNameData(buf, p, end), n => Cname(n))
    case 6 => ParseSoa(buf, p, end)
    case 11 => if end - p < 5 then Err(OutOfRange) else Ok(Wks(U32(buf, p), buf[p + 4], []))
    case 12 => MapName(ParseNameData(buf, p, end), n => Ptr(n))
    case 13 => Ok(Hinfo([], []))
    case 15 => ParseMx(buf, p, end)
    case 16 => Ok(Txt(buf[p..end]))
    case 28 => if end - p != 16 then Err(InvalidFormat) else Ok(Aaaa(buf[p..end]))
    case 33 => ParseSrv(buf, p, end)
    case _ => Ok(NoData)
  }

  datatype Read<+T> = Read(item: T, next: nat)

  function ParseRecord(buf: seq<byte>, offset: nat): (r: Result<Read<Record>>)
    ensures r.Ok? ==> offset + 11 <= r.value.next <= |buf|
  {
    var n := ParseName(buf, |buf|, offset, 1, []);
    if n.Bad? then Err(n.error)
    else if |buf| - n.next < 10 then Err(OutOfRange)
    else
      var p := n.next + 10;
      var rdlength := U16(buf, p - 2);
      if p + rdlength > |buf| then Err(OutOfRange)
      else
        match ParseRdata(buf, p, p + rdlength, U16(buf, n.next))
        case Err(e) => Err(e)
        case Ok(data) =>
          Ok(Read(Record(n.name, U16(buf, p - 8), ToI32(U32(buf, p - 6)), rdlength, data), p + rdlength))
  }

  function ParseQuestion(buf: seq<byte>, offset: nat): (r: Result<Read<Question>>)
    ensures r.Ok? ==> offset + 5 <= r.value.next <= |buf|
  {
    var n := ParseName(buf, |buf|, offset, 1, []);
    if n.Bad? then Err(n.error)
    else if |buf| - n.next < 4 then Err(OutOfRange)
    else Ok(Read(Question(n.name, U16(buf, n.next), U16(buf, n.next + 2)), n.next + 4))
  }

  function ParseQuestions(buf: seq<byte>, count: nat, offset: nat): Result<Read<seq<Question>>>
  {
    if count == 0 then Ok(Read([], offset))
    else
      match ParseQuestion(buf, offset)
      case Err(e) => Err(e)
      case Ok(first) =>
        match ParseQuestions(buf, count - 1, first.next)
        case Err(e) => Err(e)
        case Ok(rest) => Ok(Read([first.item] + rest.item, rest.next))
  }

  function ParseRecords(buf: seq<byte>, count: nat, offset: nat): (r: Result<Read<seq<Record>>>)
    ensures r.Ok? ==> |r.value.item| == count
  {
    if count == 0 then Ok(Read([], offset))
    else
      match ParseRecord(buf, offset)
      case Err(e) => Err(e)
      case Ok(first) =>
        match ParseRecords(buf, count - 1, first.next)
        case Err(e) => Err(e)
        case Ok(rest) => Ok(Read([first.item] + rest.item, rest.next))
  }

  function ParseHeader(buf: seq<byte>): Header
    requires |buf| >= 12
  {
    Header(U16(buf, 0), buf[2], buf[3], U16(buf, 4), U16(buf, 6), U16(buf, 8), U16(buf, 10))
  }

  /** The three record sections follow one another, so they parse as one run of records. */
  function ParseMessage(buf: seq<byte>): Result<Message>
  {
    if |buf| < 12 then Err(OutOfRange)
    else
      var h := ParseHeader(buf);
      match ParseQuestions(buf, h.questionsCount, 12)
      case Err(e) => Err(e)
      case Ok(qs) =>
        match ParseRecords(buf, h.answersCount + h.authoritiesCount + h.additionalsCount, qs.next)
        case Err(e) => Err(e)
        case Ok(rs) =>
          var a, b := h.answersCount, h.answersCount + h.authoritiesCount;
          Ok(Message(h, qs.item, rs.item[..a], rs.item[a..b], rs.item[b..]))
  }
}
