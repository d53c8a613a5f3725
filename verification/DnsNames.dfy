/** Which names survive being written and read: exactly the well-formed ones. The parser accepts more,
    the root among them, which the writer then spells as three zero bytes. */
module DnsNames {
  import opened Wire
  import opened DnsName
  import opened DnsCompression
  import opened DnsMessage
  import opened DnsRoundTrip

  // ---- what the parser can return ----

  predicate ShortPieces(s: seq<byte>) { forall p :: p in Pieces(s) ==> |p| <= 63 }

  /** Never empty, below the limit, no piece over 63 bytes; pieces may be empty, as in the root. */
  predicate Readable(name: seq<byte>) { name != [] && |name| < MAX_NAME && ShortPieces(name) }

  /** One more byte in front. */
  function Push(c: byte, pieces: Labels): Labels
    requires pieces != []
  {
    if c == DOT then [[]] + pieces else [[c] + pieces[0]] + pieces[1..]
  }

  lemma PiecesCons(c: byte, s: seq<byte>)
    ensures Pieces([c] + s) == Push(c, Pieces(s))
  {
    assert ([c] + s)[1..] == s;
  }

  lemma PushConcat(c: byte, pieces: Labels, more: Labels)
    requires pieces != []
    ensures Push(c, pieces + more) == Push(c, pieces) + more
  {
    assert (pieces + more)[1..] == pieces[1..] + more;
  }

  lemma {:induction false} PiecesJoin(x: seq<byte>, y: seq<byte>)
    ensures Pieces(x + [DOT] + y) == Pieces(x) + Pieces(y)
  {
    if x == [] {
      assert x + [DOT] + y == [DOT] + y && Pieces(x) == [[]];
      PiecesCons(DOT, y);
    } else {
      hide Pieces, Push;
      var c, tail := x[0], x[1..];
      PiecesJoin(tail, y);
      assert x == [c] + tail;
      assert x + [DOT] + y == [c] + (tail + [DOT] + y);
      PiecesCons(c, tail);
      PiecesCons(c, tail + [DOT] + y);
      PushConcat(c, Pieces(tail), Pieces(y));
    }
  }

  lemma {:induction false} PiecesShort(s: seq<byte>)
    ensures forall p :: p in Pieces(s) ==> |p| <= |s|
  {
    if s != [] {
      PiecesShort(s[1..]);
      var rest := Pieces(s[1..]);
      forall p | p in Pieces(s) ensures |p| <= |s| {
        assert rest[0] in rest;
        assert forall q :: q in rest[1..] ==> q in rest;
      }
    }
  }

  /** What the parser has accumulated: nothing, or a readable name and a dot. */
  predicate Accumulated(acc: seq<byte>)
  {
    acc == [] || (acc[|acc| - 1] == DOT && Readable(acc[..|acc| - 1]))
  }

  lemma ShortJoin(x: seq<byte>, l: seq<byte>)
    requires ShortPieces(x) && |l| <= 63
    ensures ShortPieces(l) && ShortPieces(x + [DOT] + l)
  {
    hide Pieces;
    ShortLabel(l);
    PiecesJoin(x, l);
  }

  lemma ShortLabel(l: seq<byte>)
    requires |l| <= 63
    ensures ShortPieces(l)
  {
    hide Pieces;
    PiecesShort(l);
  }

  lemma AccumulateLabel(acc: seq<byte>, l: seq<byte>)
    requires Accumulated(acc) && LabelOk(l) && |acc + l + [DOT]| <= MAX_NAME
    ensures Accumulated(acc + l + [DOT])
  {
    hide ShortPieces;
    var more := acc + l + [DOT];
    assert more[..|more| - 1] == acc + l;
    if acc == [] {
      assert acc + l == l;
      assert ShortPieces(l) by { ShortLabel(l); }
    } else {
      var x := acc[..|acc| - 1];
      assert acc + l == x + [DOT] + l;
      ShortJoin(x, l);
    }
  }

  lemma FinishReadable(acc: seq<byte>)
    requires Accumulated(acc) && |acc| <= MAX_NAME
    ensures Readable(Finish(acc))
  {
    if acc == [] {
      assert [DOT][1..] == [] && Pieces([DOT]) == [[]] + Pieces([]);
    }
  }

  lemma {:induction false} ParsedLabels(buf: seq<byte>, size: nat, start: nat, iter: nat, depth: nat, acc: seq<byte>)
    requires start < size <= |buf| && start <= iter && Accumulated(acc) && |acc| <= MAX_NAME
    ensures var r := ParseLabels(buf, size, start, iter, depth, acc); r.Name? ==> Readable(r.name)
    decreases size, 0, if iter < size then size - iter else 0
  {
    hide Accumulated, Readable, Finish;
    if iter < size {
      if buf[iter] == 0 {
        FinishReadable(acc);
      } else if buf[iter] >= 0xC0 {
        if iter + 1 < size && PointerAt(buf, iter) < start { ParsedName(buf, start, PointerAt(buf, iter), depth + 1, acc); }
      } else if buf[iter] < 0x40 && iter + 1 + buf[iter] <= size {
        var l := buf[iter + 1..iter + 1 + buf[iter]];
        if |acc + l + [DOT]| <= MAX_NAME {
          AccumulateLabel(acc, l);
          ParsedLabels(buf, size, start, iter + 1 + buf[iter], depth, acc + l + [DOT]);
        }
      }
    }
  }

  /** Every name the parser returns is readable. */
  lemma {:induction false} ParsedName(buf: seq<byte>, size: nat, start: nat, depth: nat, acc: seq<byte>)
    requires size <= |buf| && Accumulated(acc) && |acc| <= MAX_NAME
    ensures var r := ParseName(buf, size, start, depth, acc); r.Name? ==> Readable(r.name)
    decreases size, 1, 0
  {
    hide Accumulated, Readable;
    if depth <= MAX_DEPTH && start < size { ParsedLabels(buf, size, start, start, depth, acc); }
  }

  // ---- an empty label ends the name ----

  predicate AtMost63(labels: Labels) { forall i :: 0 <= i < |labels| ==> |labels[i]| <= 63 }

  lemma FirstLabel(buf: seq<byte>, iter: nat, labels: Labels)
    requires labels != [] && |labels[0]| <= 63 && Has(buf, iter, LabelBytes(labels) + [0])
    ensures iter < |buf| && buf[iter] == |labels[0]|
    ensures |LabelBytes(labels)| == 1 + |labels[0]| + |LabelBytes(labels[1..])|
    ensures Has(buf, iter + 1 + |labels[0]|, LabelBytes(labels[1..]) + [0])
  {
    var head, rest := [|labels[0]| % 0x100] + labels[0], LabelBytes(labels[1..]);
    assert LabelBytes(labels) + [0] == head + (rest + [0]);
    HasConcat(buf, iter, head, rest + [0]);
    HasAt(buf, iter, head, 0);
  }

  /** One label of the parser's loop. */
  lemma LabelStep(buf: seq<byte>, size: nat, start: nat, iter: nat, depth: nat, acc: seq<byte>) returns (more: seq<byte>)
    requires start < size <= |buf| && start <= iter < |buf| && 0 < buf[iter] < 0x40
    ensures ParseLabels(buf, size, start, iter, depth, acc).Name? ==>
              ParseLabels(buf, size, start, iter, depth, acc) == ParseLabels(buf, size, start, iter + 1 + buf[iter], depth, more)
  {
    if iter + 1 + buf[iter] <= size { more := acc + buf[iter + 1..iter + 1 + buf[iter]] + [DOT]; } else { more := []; }
  }

  /** Some label is empty. */
  predicate Gap(labels: Labels) { exists i :: 0 <= i < |labels| && labels[i] == [] }

  lemma LaterGap(labels: Labels)
    requires AtMost63(labels) && Gap(labels)
    ensures labels != [] && |labels[0]| <= 63
    ensures labels[0] != [] ==> AtMost63(labels[1..]) && Gap(labels[1..])
  {
    var i :| 0 <= i < |labels| && labels[i] == [];
    if labels[0] != [] { assert labels[1..][i - 1] == []; }
  }

  lemma ZeroStops(buf: seq<byte>, size: nat, start: nat, iter: nat, depth: nat, acc: seq<byte>)
    requires start < size <= |buf| && start <= iter < |buf| && buf[iter] == 0
    ensures var r := ParseLabels(buf, size, start, iter, depth, acc); r.Name? ==> r.next == iter + 1
  {
  }

  lemma {:induction false} StopsEarly(buf: seq<byte>, size: nat, start: nat, iter: nat, labels: Labels, depth: nat, acc: seq<byte>)
    requires start < size <= |buf| && start <= iter && Has(buf, iter, LabelBytes(labels) + [0])
    requires AtMost63(labels) && Gap(labels)
    ensures var r := ParseLabels(buf, size, start, iter, depth, acc); r.Name? ==> r.next < iter + |LabelBytes(labels)| + 1
    decreases |labels|
  {
    hide Has, LabelBytes, ParseLabels, AtMost63, Gap;
    LaterGap(labels);
    FirstLabel(buf, iter, labels);
    if labels[0] == [] {
      ZeroStops(buf, size, start, iter, depth, acc);
    } else {
      var more := LabelStep(buf, size, start, iter, depth, acc);
      StopsEarly(buf, size, start, iter + 1 + |labels[0]|, labels[1..], depth, more);
    }
  }

  // ---- writing and reading ----

  lemma NothingKnown(name: seq<byte>)
    ensures EncodeName(map[], Split(name)) == PlainName(name)
  {
    var labels := Split(name);
    CutUnique({}, labels, 0, |labels|);
    assert labels[..|labels|] == labels;
  }

  /** Written after any bytes through a fresh compressor, a name reads back, up to where its writer
      stopped, if and only if it is well-formed. */
  lemma NameSurvives(pre: seq<byte>, name: seq<byte>)
    ensures var buf := pre + EncodeName(map[], Split(name));
            ParseName(buf, |buf|, |pre|, 1, []) == Name(name, |buf|) <==> WellFormed(name)
  {
    hide ParseName, LabelsOk, Readable;
    NothingKnown(name);
    var buf := pre + PlainName(name);
    assert Has(buf, |pre|, PlainName(name));
    if WellFormed(name) {
      PlainNameReads(buf, |pre|, name, |buf|);
    } else if ParseName(buf, |buf|, |pre|, 1, []) == Name(name, |buf|) {
      ParsedName(buf, |buf|, |pre|, 1, []);
      NotWellFormed(name);
      ReadsShort(buf, pre, name);
    }
  }

  lemma NotWellFormed(name: seq<byte>)
    requires Readable(name) && !WellFormed(name)
    ensures AtMost63(Split(name)) && Gap(Split(name))
  {
  }

  lemma BeginsWithLabels(buf: seq<byte>, start: nat)
    requires start < |buf|
    ensures ParseName(buf, |buf|, start, 1, []) == ParseLabels(buf, |buf|, start, start, 1, [])
  {
    hide ParseLabels;
  }

  lemma ReadsShort(buf: seq<byte>, pre: seq<byte>, name: seq<byte>)
    requires buf == pre + PlainName(name) && AtMost63(Split(name)) && Gap(Split(name))
    ensures ParseName(buf, |buf|, |pre|, 1, []) != Name(name, |buf|)
  {
    hide AtMost63, Split, LabelBytes, ParseName, ParseLabels;
    assert Has(buf, |pre|, LabelBytes(Split(name)) + [0]);
    BeginsWithLabels(buf, |pre|);
    StopsEarly(buf, |buf|, |pre|, |pre|, Split(name), 1, []);
  }

  /** Of the names the parser returns, those survive being written and read again that have no empty label. */
  lemma ParsedSurvives(was: seq<byte>, start: nat, pre: seq<byte>)
    requires ParseName(was, |was|, start, 1, []).Name?
    ensures var name := ParseName(was, |was|, start, 1, []).name;
            var buf := pre + EncodeName(map[], Split(name));
            ParseName(buf, |buf|, |pre|, 1, []) == Name(name, |buf|) <==> !Gap(Split(name))
  {
    hide ParseName, EncodeName, Pieces;
    var name := ParseName(was, |was|, start, 1, []).name;
    ParsedName(was, |was|, start, 1, []);
    NameSurvives(pre, name);
  }

  /** The root: one zero byte reads as ".", which is written as three, of which one is read. */
  lemma RootGrows()
    ensures ParseName([0], 1, 0, 1, []) == Name([DOT], 1)
    ensures EncodeName(map[], Split([DOT])) == [0, 0, 0]
    ensures ParseName([0, 0, 0], 3, 0, 1, []) == Name([DOT], 1)
  {
    NothingKnown([DOT]);
    assert [DOT][1..] == [] && Pieces([DOT]) == [[]] + Pieces([]);
    assert LabelBytes([[]]) == [0] + [] + LabelBytes([]);
    var empty: Label := [];
    assert [empty, empty][1..] == [empty];
  }
}
