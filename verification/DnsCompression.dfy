/** Name compression as a value: what the compressor emits for each name, and why
    every emitted name reads back. The binary search that finds the suffixes is in
    DnsCompressor; here a suffix is simply looked up in the names written so far. */
module DnsCompression {
  import opened Wire
  import opened DnsName

  /** Where a name was last written, where that ends, and how many pointers it takes to read it. */
  datatype Entry = Entry(pos: nat, end: nat, chain: nat)
  type Dict = map<Labels, Entry>

  /** The bytes written so far and the names among them. */
  datatype Session = Session(bytes: seq<byte>, dict: Dict)

  /** The first position from `k` on whose suffix is a known name, or the length if none is. */
  function Cut(known: set<Labels>, labels: Labels, k: nat): (r: nat)
    requires k <= |labels|
    ensures k <= r <= |labels|
    ensures forall j :: k <= j < r ==> labels[j..] !in known
    ensures r < |labels| ==> labels[r..] in known
    decreases |labels| - k
  {
    if k == |labels| || labels[k..] in known then k else Cut(known, labels, k + 1)
  }

  lemma {:induction false} CutUnique(known: set<Labels>, labels: Labels, k: nat, r: nat)
    requires k <= r <= |labels|
    requires forall j :: k <= j < r ==> labels[j..] !in known
    requires r < |labels| ==> labels[r..] in known
    ensures Cut(known, labels, k) == r
    decreases |labels| - k
  {
    if k < r { CutUnique(known, labels, k + 1, r); }
  }

  function LabelBytes(labels: Labels): seq<byte>
  {
    if labels == [] then [] else [|labels[0]| % 0x100] + labels[0] + LabelBytes(labels[1..])
  }

  /** A 16-bit big-endian offset whose two top bits are then forced to one. */
  function PointerBytes(pos: nat): (r: seq<byte>)
    ensures |r| == 2
  {
    [0xC0 + pos / 0x100 % 0x40, pos % 0x100]
  }

  /** What ends a name: a pointer to the known name that spells the rest, or the zero byte. */
  function Tail(d: Dict, rest: Labels): (r: seq<byte>)
    requires rest != [] ==> rest in d
    ensures 1 <= |r| <= 2
  {
    if rest != [] then PointerBytes(d[rest].pos) else [0]
  }

  function EncodeName(d: Dict, labels: Labels): (r: seq<byte>)
    ensures r != []
  {
    var k := Cut(d.Keys, labels, 0);
    LabelBytes(labels[..k]) + Tail(d, labels[k..])
  }

  function ChainOf(d: Dict, labels: Labels): nat
  {
    TailChain(d, labels[Cut(d.Keys, labels, 0)..])
  }

  function TailChain(d: Dict, rest: Labels): nat
    requires rest != [] ==> rest in d
  {
    if rest != [] then d[rest].chain + 1 else 0
  }

  /** A repeated name replaces its own entry, so the next pointer aims at the pointer. */
  function WriteName(s: Session, labels: Labels): Session
  {
    var bytes := s.bytes + EncodeName(s.dict, labels);
    Session(bytes, s.dict[labels := Entry(|s.bytes|, |bytes|, ChainOf(s.dict, labels))])
  }

  ghost predicate EntryOk(buf: seq<byte>, labels: Labels, e: Entry)
  {
    labels != [] && EncodedAt(buf, e.pos, e.pos, labels, e.chain, e.end)
  }

  /** Every known name is correctly encoded where the dictionary says. */
  ghost predicate Inv(s: Session)
  {
    forall l :: l in s.dict ==> EntryOk(s.bytes, l, s.dict[l])
  }

  lemma {:induction false} LabelBytesAppend(labels: Labels, l: Label)
    ensures LabelBytes(labels + [l]) == LabelBytes(labels) + ([|l| % 0x100] + l)
  {
    var tail := [|l| % 0x100] + l;
    if labels == [] {
      assert labels + [l] == [l] && [l][1..] == [];
      assert LabelBytes([l]) == tail + [] == tail;
    } else {
      LabelBytesAppend(labels[1..], l);
      var first, rest := [|labels[0]| % 0x100] + labels[0], LabelBytes(labels[1..]);
      assert (labels + [l])[0] == labels[0] && (labels + [l])[1..] == labels[1..] + [l];
      assert first + (rest + tail) == (first + rest) + tail;
    }
  }

  lemma LabelThenRest(buf: seq<byte>, start: nat, iter: nat, l: Label, rest: Labels, chain: nat, end: nat)
    requires start <= iter && LabelOk(l) && Has(buf, iter, [|l| % 0x100] + l)
    requires EncodedAt(buf, start, iter + 1 + |l|, rest, chain, end)
    ensures EncodedAt(buf, start, iter, [l] + rest, chain, end)
  {
    HasConcat(buf, iter, [|l| % 0x100], l);
    HasAt(buf, iter, [|l| % 0x100], 0);
    assert ([l] + rest)[1..] == rest;
  }

  /** Labels in place, followed by a correct encoding of the rest. */
  lemma {:induction false} LabelsThenRest(buf: seq<byte>, start: nat, iter: nat, front: Labels, rest: Labels, chain: nat, end: nat)
    requires start <= iter && LabelsOk(front)
    requires Has(buf, iter, LabelBytes(front))
    requires EncodedAt(buf, start, iter + |LabelBytes(front)|, rest, chain, end)
    ensures EncodedAt(buf, start, iter, front + rest, chain, end)
    decreases |front|
  {
    hide EncodedAt;
    if front == [] {
      assert front + rest == rest;
    } else {
      var head := [|front[0]| % 0x100] + front[0];
      HasConcat(buf, iter, head, LabelBytes(front[1..]));
      LabelsThenRest(buf, start, iter + |head|, front[1..], rest, chain, end);
      assert front + rest == [front[0]] + (front[1..] + rest);
      LabelThenRest(buf, start, iter, front[0], front[1..] + rest, chain, end);
    }
  }

  /** The pointer or the terminator encodes the labels that are left. */
  lemma TailEncodes(s: Session, rest: Labels, buf: seq<byte>, iter: nat)
    requires Inv(s) && |s.bytes| <= 0x4000 && s.bytes <= buf
    requires rest != [] ==> rest in s.dict
    requires |s.bytes| <= iter && Has(buf, iter, Tail(s.dict, rest))
    ensures EncodedAt(buf, |s.bytes|, iter, rest, TailChain(s.dict, rest), iter + |Tail(s.dict, rest)|)
  {
    HasAt(buf, iter, Tail(s.dict, rest), 0);
    if rest != [] {
      var e := s.dict[rest];
      assert EntryOk(s.bytes, rest, e);
      HasAt(buf, iter, PointerBytes(e.pos), 1);
      assert PointerAt(buf, iter) == e.pos;
      EncodedFrame(s.bytes, buf, e.pos, e.pos, rest, e.chain, e.end);
      assert TargetAt(buf, |s.bytes|, e.pos, rest, e.chain);
    }
  }

  /** The bytes emitted for a name are a correct encoding of it. */
  lemma WriteNameEncodes(s: Session, labels: Labels)
    requires Inv(s) && LabelsOk(labels) && labels != []
    requires |s.bytes| <= 0x4000
    ensures EntryOk(WriteName(s, labels).bytes, labels, WriteName(s, labels).dict[labels])
  {
    var k := Cut(s.dict.Keys, labels, 0);
    assert labels == labels[..k] + labels[k..];
    CodeEncodes(s, labels[..k], labels[k..], WriteName(s, labels).bytes);
  }

  lemma CodeEncodes(s: Session, front: Labels, rest: Labels, buf: seq<byte>)
    requires Inv(s) && LabelsOk(front) && |s.bytes| <= 0x4000
    requires rest != [] ==> rest in s.dict
    requires buf == s.bytes + (LabelBytes(front) + Tail(s.dict, rest))
    ensures EncodedAt(buf, |s.bytes|, |s.bytes|, front + rest, TailChain(s.dict, rest), |buf|)
  {
    hide EncodedAt, Inv, LabelBytes, Tail, TailChain, Has;
    var start, inPlace, tail := |s.bytes|, LabelBytes(front), Tail(s.dict, rest);
    HasAppended(s.bytes, inPlace, tail);
    TailEncodes(s, rest, buf, start + |inPlace|);
    LabelsThenRest(buf, start, start, front, rest, TailChain(s.dict, rest), |buf|);
  }

  /** Appending bytes disturbs no earlier name. */
  lemma EntryFrame(bytes: seq<byte>, more: seq<byte>, labels: Labels, e: Entry)
    requires EntryOk(bytes, labels, e)
    ensures EntryOk(bytes + more, labels, e)
  {
    assert bytes[..e.end] == (bytes + more)[..e.end];
    EncodedFrame(bytes, bytes + more, e.pos, e.pos, labels, e.chain, e.end);
  }

  lemma InvFrame(s: Session, more: seq<byte>)
    requires Inv(s)
    ensures Inv(Session(s.bytes + more, s.dict))
  {
    forall l | l in s.dict ensures EntryOk(s.bytes + more, l, s.dict[l]) {
      EntryFrame(s.bytes, more, l, s.dict[l]);
    }
  }

  lemma WriteNameInv(s: Session, labels: Labels)
    requires Inv(s) && LabelsOk(labels) && labels != []
    requires |s.bytes| <= 0x4000
    ensures Inv(WriteName(s, labels))
  {
    WriteNameEncodes(s, labels);
    InvFrame(s, EncodeName(s.dict, labels));
  }

  /** In any buffer that extends what was written, a name just written reads back as itself
      and ends where the writer stopped, if and only if its chain fits the depth limit. */
  lemma WriteNameReads(s: Session, name: seq<byte>, s': Session, buf: seq<byte>, size: nat)
    requires Inv(s) && WellFormed(name) && |s.bytes| <= 0x4000
    requires s' == WriteName(s, Split(name))
    requires s'.bytes <= buf && |s'.bytes| <= size <= |buf|
    ensures ParseName(buf, size, |s.bytes|, 1, [])
            == if ChainOf(s.dict, Split(name)) < MAX_DEPTH then Name(name, |s'.bytes|)
               else Bad(InvalidFormat, |s'.bytes|)
  {
    var labels := Split(name);
    var chain := ChainOf(s.dict, labels);
    WriteNameEncodes(s, labels);
    assert EncodedAt(s'.bytes, |s.bytes|, |s.bytes|, labels, chain, |s'.bytes|);
    assert buf[..|s'.bytes|] == s'.bytes[..|s'.bytes|];
    EncodedFrame(s'.bytes, buf, |s.bytes|, |s.bytes|, labels, chain, |s'.bytes|);
    ParseWhole(buf, |s.bytes|, name, chain, |s'.bytes|, size);
  }

  // ---- whole runs ----

  /** The first `n` names, written one after the other. */
  function WriteNames(s: Session, names: seq<Labels>, n: nat): Session
    requires n <= |names|
  {
    if n == 0 then s else WriteName(WriteNames(s, names, n - 1), names[n - 1])
  }

  function Known(names: seq<Labels>, n: nat): set<Labels>
    requires n <= |names|
  {
    if n == 0 then {} else Known(names, n - 1) + {names[n - 1]}
  }

  /** The last of the first `n` names that equals `l`. */
  function LastUse(names: seq<Labels>, n: nat, l: Labels): (r: nat)
    requires n <= |names| && l in Known(names, n)
    ensures r < n && names[r] == l
  {
    if names[n - 1] == l then n - 1 else LastUse(names, n - 1, l)
  }

  /** The pointers needed to read the next name, given those of the first `n`: none if no
      suffix of it was written before, else one more than the last name equal to its
      longest known suffix needs. */
  function NextChain(names: seq<Labels>, n: nat, table: seq<nat>): nat
    requires n < |names| && n <= |table|
  {
    var k := Cut(Known(names, n), names[n], 0);
    if k == |names[n]| then 0 else 1 + table[LastUse(names, n, names[n][k..])]
  }

  /** The pointers needed to read each of the first `n` names, from the list of names alone. */
  function ChainTable(names: seq<Labels>, n: nat): (r: seq<nat>)
    requires n <= |names|
    ensures |r| == n
  {
    if n == 0 then []
    else
      var table := ChainTable(names, n - 1);
      table + [NextChain(names, n - 1, table)]
  }

  function Chain(names: seq<Labels>, i: nat): nat
    requires i < |names|
  {
    ChainTable(names, |names|)[i]
  }

  lemma {:induction false} TablePrefix(names: seq<Labels>, i: nat, n: nat)
    requires i <= n <= |names|
    ensures ChainTable(names, i) == ChainTable(names, n)[..i]
    decreases n
  {
    if i < n { TablePrefix(names, i, n - 1); }
  }

  lemma ChainIsNext(names: seq<Labels>, i: nat)
    requires i < |names|
    ensures Chain(names, i) == NextChain(names, i, ChainTable(names, |names|))
  {
    TablePrefix(names, i, |names|);
    TablePrefix(names, i + 1, |names|);
    assert ChainTable(names, i + 1)[i] == NextChain(names, i, ChainTable(names, i));
  }

  /** The dictionary's chain lengths are those of the table, by last use. */
  ghost predicate ChainsAgree(d: Dict, names: seq<Labels>, n: nat, table: seq<nat>)
    requires n <= |names| && n <= |table|
  {
    && d.Keys == Known(names, n)
    && forall l :: l in d ==> d[l].chain == table[LastUse(names, n, l)]
  }

  lemma ChainOfNext(d: Dict, names: seq<Labels>, n: nat, table: seq<nat>)
    requires n < |names| && n <= |table| && ChainsAgree(d, names, n, table)
    ensures ChainOf(d, names[n]) == NextChain(names, n, table)
  {
    var k := Cut(d.Keys, names[n], 0);
    if k < |names[n]| { assert names[n][k..] in d; }
  }

  lemma NextAgrees(d: Dict, names: seq<Labels>, n: nat, e: Entry, table: seq<nat>)
    requires n < |names| && n < |table| && ChainsAgree(d, names, n, table)
    requires e.chain == table[n]
    ensures ChainsAgree(d[names[n] := e], names, n + 1, table)
  {
    var d' := d[names[n] := e];
    assert d'.Keys == d.Keys + {names[n]};
    forall l | l in d' ensures d'[l].chain == table[LastUse(names, n + 1, l)] {
      if l != names[n] { assert LastUse(names, n + 1, l) == LastUse(names, n, l); }
    }
  }

  /** Writing the next name of a list keeps the dictionary in step with the list's table. */
  lemma WriteNameAgrees(s: Session, names: seq<Labels>, n: nat)
    requires n < |names| && ChainsAgree(s.dict, names, n, ChainTable(names, |names|))
    ensures ChainOf(s.dict, names[n]) == Chain(names, n)
    ensures ChainsAgree(WriteName(s, names[n]).dict, names, n + 1, ChainTable(names, |names|))
  {
    var table := ChainTable(names, |names|);
    ChainIsNext(names, n);
    ChainOfNext(s.dict, names, n, table);
    NextAgrees(s.dict, names, n, WriteName(s, names[n]).dict[names[n]], table);
  }

  lemma {:induction false} WriteNamesDict(s: Session, names: seq<Labels>, n: nat)
    requires n <= |names| && s.dict == map[]
    ensures ChainsAgree(WriteNames(s, names, n).dict, names, n, ChainTable(names, |names|))
  {
    if n > 0 {
      WriteNamesDict(s, names, n - 1);
      WriteNameAgrees(WriteNames(s, names, n - 1), names, n - 1);
    }
  }

  ghost predicate Writable(names: seq<Labels>)
  {
    forall i :: 0 <= i < |names| ==> names[i] != [] && LabelsOk(names[i])
  }

  lemma {:induction false} WriteNamesInv(s: Session, names: seq<Labels>, n: nat)
    requires n <= |names| && Writable(names) && Inv(s)
    requires |WriteNames(s, names, n).bytes| <= 0x4000
    ensures Inv(WriteNames(s, names, n))
  {
    hide Inv, WriteName, LabelsOk;
    if n > 0 {
      WriteNamesPrefix(s, names, n - 1, n);
      WriteNamesInv(s, names, n - 1);
      WriteNameInv(WriteNames(s, names, n - 1), names[n - 1]);
    }
  }

  /** Later names only append. */
  lemma {:induction false} WriteNamesPrefix(s: Session, names: seq<Labels>, i: nat, n: nat)
    requires i <= n <= |names|
    ensures WriteNames(s, names, i).bytes <= WriteNames(s, names, n).bytes
    decreases n
  {
    hide EncodeName, ChainOf;
    if i < n { WriteNamesPrefix(s, names, i, n - 1); }
  }

  function SplitAll(names: seq<seq<byte>>): (r: seq<Labels>)
    ensures |r| == |names| && forall j :: 0 <= j < |names| ==> r[j] == Split(names[j])
  {
    seq(|names|, i requires 0 <= i < |names| => Split(names[i]))
  }

  /** Any number of names written through one compressor after any bytes: the finished
      buffer, read where the i-th name starts, gives that name and stops where its writer
      stopped if its chain is below the limit, and is refused if it is not. */
  lemma NamesRoundTrip(bytes: seq<byte>, names: seq<seq<byte>>, i: nat)
    requires i < |names| && forall j :: 0 <= j < |names| ==> WellFormed(names[j])
    requires |WriteNames(Session(bytes, map[]), SplitAll(names), |names|).bytes| <= 0x4000
    ensures var s, all := Session(bytes, map[]), SplitAll(names);
            var final := WriteNames(s, all, |names|).bytes;
            var end := |WriteNames(s, all, i + 1).bytes|;
            ParseName(final, |final|, |WriteNames(s, all, i).bytes|, 1, [])
            == if Chain(all, i) < MAX_DEPTH then Name(names[i], end) else Bad(InvalidFormat, end)
  {
    var s0, all := Session(bytes, map[]), SplitAll(names);
    var final := WriteNames(s0, all, |names|).bytes;
    WriteNamesPrefix(s0, all, i, |names|);
    WriteNamesPrefix(s0, all, i + 1, |names|);
    WriteNamesInv(s0, all, i);
    WriteNamesDict(s0, all, i);
    WriteNameAgrees(WriteNames(s0, all, i), all, i);
    WriteNameReads(WriteNames(s0, all, i), names[i], WriteNames(s0, all, i + 1), final, |final|);
  }

  /** Each repetition of one name costs one more pointer, so the twenty-first is unreadable. */
  lemma {:induction false} RepeatChain(names: seq<Labels>, l: Labels, i: nat)
    requires l != [] && i < |names| && forall j :: 0 <= j < |names| ==> names[j] == l
    ensures Chain(names, i) == i
    decreases i
  {
    ChainIsNext(names, i);
    if i > 0 {
      RepeatChain(names, l, i - 1);
      assert l[0..] == l && names[i - 1] == l;
      CutUnique(Known(names, i), l, 0, 0);
    } else {
      CutUnique({}, l, 0, |l|);
    }
  }
}
