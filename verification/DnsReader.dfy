/** The packet parser and the fast pre-check as they run. */
module DnsReader {
  import opened Wire
  import opened DnsName
  import opened DnsMessage

  lemma {:induction false} ParseRecordsConcat(buf: seq<byte>, a: nat, b: nat, offset: nat)
    ensures ParseRecords(buf, a + b, offset)
         == match ParseRecords(buf, a, offset)
            case Err(e) => Err(e)
            case Ok(x) =>
              match ParseRecords(buf, b, x.next)
              case Err(e) => Err(e)
              case Ok(y) => Ok(Read(x.item + y.item, y.next))
    decreases a
  {
    hide ParseRecord;
    if a > 0 {
      match ParseRecord(buf, offset)
      case Err(e) =>
      case Ok(first) =>
        ParseRecordsConcat(buf, a - 1, b, first.next);
        match ParseRecords(buf, a - 1, first.next)
        case Err(e) =>
        case Ok(x) =>
          match ParseRecords(buf, b, x.next)
          case Err(e) =>
          case Ok(y) => assert [first.item] + x.item + y.item == [first.item] + (x.item + y.item);
    } else {
      match ParseRecords(buf, b, offset)
      case Err(e) =>
      case Ok(y) => assert [] + y.item == y.item;
    }
  }

  /** One section of `count` records. */
  method ReadRecords(buf: seq<byte>, count: nat, offset: nat) returns (r: Result<Read<seq<Record>>>)
    ensures r == ParseRecords(buf, count, offset)
  {
    hide ParseRecord;
    var records, next := [], offset;
    for i := 0 to count
      invariant ParseRecords(buf, i, offset) == Ok(Read(records, next))
    {
      ParseRecordsConcat(buf, i, 1, offset);
      ParseRecordsConcat(buf, i, count - i, offset);
      var one := ParseRecord(buf, next);
      match one {
        case Err(e) => return Err(e);
        case Ok(record) =>
          assert ParseRecords(buf, 0, record.next) == Ok(Read([], record.next));
          assert [record.item] + [] == [record.item];
          records, next := records + [record.item], record.next;
      }
    }
    return Ok(Read(records, next));
  }

  lemma {:induction false} ParseQuestionsSnoc(buf: seq<byte>, n: nat, offset: nat)
    ensures ParseQuestions(buf, n + 1, offset)
         == match ParseQuestions(buf, n, offset)
            case Err(e) => Err(e)
            case Ok(x) =>
              match ParseQuestion(buf, x.next)
              case Err(e) => Err(e)
              case Ok(y) => Ok(Read(x.item + [y.item], y.next))
    decreases n
  {
    hide ParseQuestion;
    match ParseQuestion(buf, offset)
    case Err(e) =>
    case Ok(first) =>
      if n > 0 {
        ParseQuestionsSnoc(buf, n - 1, first.next);
        match ParseQuestions(buf, n - 1, first.next)
        case Err(e) =>
        case Ok(x) =>
          match ParseQuestion(buf, x.next)
          case Err(e) =>
          case Ok(y) => assert [first.item] + x.item + [y.item] == [first.item] + (x.item + [y.item]);
      } else {
        assert ParseQuestions(buf, 0, first.next) == Ok(Read([], first.next));
        assert [first.item] + [] == [] + [first.item];
      }
  }

  lemma {:induction false} ParseQuestionsErr(buf: seq<byte>, i: nat, n: nat, offset: nat)
    requires i <= n && ParseQuestions(buf, i, offset).Err?
    ensures ParseQuestions(buf, n, offset) == ParseQuestions(buf, i, offset)
    decreases n
  {
    hide ParseQuestion;
    if i < n {
      ParseQuestionsErr(buf, i, n - 1, offset);
      ParseQuestionsSnoc(buf, n - 1, offset);
    }
  }

  method ReadQuestions(buf: seq<byte>, count: nat, offset: nat) returns (r: Result<Read<seq<Question>>>)
    ensures r == ParseQuestions(buf, count, offset)
  {
    hide ParseQuestion;
    var questions, next := [], offset;
    for i := 0 to count
      invariant ParseQuestions(buf, i, offset) == Ok(Read(questions, next))
    {
      ParseQuestionsSnoc(buf, i, offset);
      var one := ParseQuestion(buf, next);
      match one {
        case Err(e) =>
          ParseQuestionsErr(buf, i + 1, count, offset);
          return Err(e);
        case Ok(question) =>
          questions, next := questions + [question.item], question.next;
      }
    }
    return Ok(Read(questions, next));
  }

  /** `message_t::parse`: the questions, then the three record sections in turn. */
  method ReadMessage(buf: seq<byte>) returns (r: Result<Message>)
    ensures r == ParseMessage(buf)
  {
    hide ParseRecords, ParseQuestions;
    if |buf| < 12 { return Err(OutOfRange); }
    var h := ParseHeader(buf);
    var qs := ReadQuestions(buf, h.questionsCount, 12);
    if qs.Err? { return Err(qs.error); }
    var na: nat, nb: nat, nc: nat := h.answersCount, h.authoritiesCount, h.additionalsCount;
    ParseRecordsConcat(buf, na + nb, nc, qs.value.next);
    ParseRecordsConcat(buf, na, nb, qs.value.next);
    var a := ReadRecords(buf, na, qs.value.next);
    if a.Err? { return Err(a.error); }
    var b := ReadRecords(buf, nb, a.value.next);
    if b.Err? { return Err(b.error); }
    var c := ReadRecords(buf, nc, b.value.next);
    if c.Err? { return Err(c.error); }
    ghost var all := a.value.item + b.value.item + c.value.item;
    assert all[..na] == a.value.item && all[na..na + nb] == b.value.item && all[na + nb..] == c.value.item;
    return Ok(Message(h, qs.value.item, a.value.item, b.value.item, c.value.item));
  }

  // ---- the fast pre-check ----

  /** Skips a name: labels are stepped over whatever their two top bits, a pointer is not followed. */
  function SkipName(buf: seq<byte>, iter: nat): (r: Option<nat>)
    ensures r.Some? ==> iter < r.value <= |buf|
    decreases if iter < |buf| then |buf| - iter else 0
  {
    if iter >= |buf| then None
    else if buf[iter] >= 0xC0 then if iter + 2 > |buf| then None else Some(iter + 2)
    else if buf[iter] == 0 then Some(iter + 1)
    else SkipName(buf, iter + buf[iter] + 1)
  }

  function SkipQuestions(buf: seq<byte>, count: nat, iter: nat): Option<nat>
  {
    if count == 0 then Some(iter)
    else
      match SkipName(buf, iter)
      case None => None
      case Some(p) => if p + 4 > |buf| then None else SkipQuestions(buf, count - 1, p + 4)
  }

  function SkipRecords(buf: seq<byte>, count: nat, iter: nat): Option<nat>
  {
    if count == 0 then Some(iter)
    else
      match SkipName(buf, iter)
      case None => None
      case Some(p) =>
        if p + 10 > |buf| || p + 10 + U16(buf, p + 8) > |buf| then None
        else SkipRecords(buf, count - 1, p + 10 + U16(buf, p + 8))
  }

  predicate PossibleValid(buf: seq<byte>)
  {
    && |buf| >= 12
    && var q := SkipQuestions(buf, U16(buf, 4), 12);
    && q.Some?
    && SkipRecords(buf, U16(buf, 6) + U16(buf, 8) + U16(buf, 10), q.value).Some?
  }

  method FastSkipName(buf: seq<byte>, start: nat) returns (ok: bool, iter: nat)
    ensures ok <==> SkipName(buf, start).Some?
    ensures ok ==> iter == SkipName(buf, start).value
  {
    iter := start;
    while iter < |buf|
      invariant SkipName(buf, start) == SkipName(buf, iter)
    {
      var len := buf[iter];
      if len >= 0xC0 {
        iter := iter + 2;
        return iter <= |buf|, iter;
      } else if len == 0 {
        return true, iter + 1;
      } else {
        iter := iter + len + 1;
      }
    }
    return false, iter;
  }

  /** `message_t::possible_valid`. */
  method FastCheck(buf: seq<byte>) returns (ok: bool)
    ensures ok <==> PossibleValid(buf)
  {
    hide SkipName;
    if |buf| < 12 { return false; }
    var iter: nat := 12;
    var i: nat, count: nat := 0, U16(buf, 4);
    while i < count
      invariant i <= count
      invariant SkipQuestions(buf, count, 12) == SkipQuestions(buf, count - i, iter)
    {
      ok, iter := FastSkipName(buf, iter);
      if !ok { return false; }
      iter := iter + 4;
      if iter > |buf| { return false; }
      i := i + 1;
    }
    ghost var start := iter;
    i, count := 0, U16(buf, 6) + U16(buf, 8) + U16(buf, 10);
    while i < count
      invariant i <= count
      invariant SkipRecords(buf, count, start) == SkipRecords(buf, count - i, iter)
    {
      ok, iter := FastSkipName(buf, iter);
      if !ok { return false; }
      if iter + 10 > |buf| { return false; }
      iter := iter + 10 + U16(buf, iter + 8);
      if iter > |buf| { return false; }
      i := i + 1;
    }
    return true;
  }

  /** Whatever the full parser reads as a name, the pre-check skips to the same place. */
  lemma {:induction false} SkipWhatParses(buf: seq<byte>, start: nat, iter: nat, depth: nat, acc: seq<byte>)
    requires start < |buf| && start <= iter
    requires ParseLabels(buf, |buf|, start, iter, depth, acc).Name?
    ensures SkipName(buf, iter) == Some(ParseLabels(buf, |buf|, start, iter, depth, acc).next)
    decreases |buf| - iter
  {
    if 0 < buf[iter] < 0x40 {
      var more := acc + buf[iter + 1..iter + 1 + buf[iter]] + [DOT];
      SkipWhatParses(buf, start, iter + 1 + buf[iter], depth, more);
    }
  }

  lemma SkipParsedName(buf: seq<byte>, start: nat)
    requires ParseName(buf, |buf|, start, 1, []).Name?
    ensures SkipName(buf, start) == Some(ParseName(buf, |buf|, start, 1, []).next)
  {
    SkipWhatParses(buf, start, start, 1, []);
  }

  lemma {:induction false} SkipParsedQuestions(buf: seq<byte>, count: nat, offset: nat)
    requires ParseQuestions(buf, count, offset).Ok?
    ensures SkipQuestions(buf, count, offset) == Some(ParseQuestions(buf, count, offset).value.next)
  {
    hide ParseName, SkipName;
    if count > 0 {
      SkipParsedName(buf, offset);
      SkipParsedQuestions(buf, count - 1, ParseQuestion(buf, offset).value.next);
    }
  }

  lemma {:induction false} SkipParsedRecords(buf: seq<byte>, count: nat, offset: nat)
    requires ParseRecords(buf, count, offset).Ok?
    ensures SkipRecords(buf, count, offset) == Some(ParseRecords(buf, count, offset).value.next)
  {
    hide ParseName, SkipName, ParseRdata;
    if count > 0 {
      SkipParsedName(buf, offset);
      SkipParsedRecords(buf, count - 1, ParseRecord(buf, offset).value.next);
    }
  }

  /** The pre-check never turns away a packet that the full parser would accept. */
  lemma PreCheckKeepsValid(buf: seq<byte>)
    requires ParseMessage(buf).Ok?
    ensures PossibleValid(buf)
  {
    hide ParseQuestions, ParseRecords, SkipQuestions, SkipRecords;
    var h := ParseHeader(buf);
    SkipParsedQuestions(buf, h.questionsCount, 12);
    SkipParsedRecords(buf, h.answersCount + h.authoritiesCount + h.additionalsCount,
                      ParseQuestions(buf, h.questionsCount, 12).value.next);
  }
}
