/** Where compression and the parser's limits meet. */
module DnsLimits {
  import opened Wire
  import opened DnsName
  import opened DnsCompression

  /** What the parser makes of the two bytes of a pointer. */
  function Target(pointer: seq<byte>): int
    requires |pointer| == 2
  {
    var high: int := pointer[0];
    (high - 0xC0) * 0x100 + pointer[1]
  }

  /** A pointer leads back to its offset exactly when the offset fits in 14 bits. */
  lemma PointerExact(pos: nat)
    ensures Target(PointerBytes(pos)) == pos <==> pos < 0x4000
  {
  }

  lemma {:induction false} AsLongAsDotted(labels: Labels)
    ensures |LabelBytes(labels)| == |Dotted(labels)|
  {
    if labels != [] { AsLongAsDotted(labels[1..]); }
  }

  lemma {:induction false} PrefixIsShorter(labels: Labels, k: nat)
    requires k <= |labels|
    ensures |LabelBytes(labels[..k])| <= |LabelBytes(labels)|
  {
    if k > 0 {
      PrefixIsShorter(labels[1..], k - 1);
      assert labels[..k][1..] == labels[1..][..k - 1];
    }
  }

  lemma EncodedLength(d: Dict, name: seq<byte>)
    requires WellFormed(name)
    ensures |EncodeName(d, Split(name))| <= |name| + 3
  {
    var labels := Split(name);
    DottedPieces(name);
    AsLongAsDotted(labels);
    PrefixIsShorter(labels, Cut(d.Keys, labels, 0));
  }

  function Copies(name: seq<byte>, n: nat): seq<seq<byte>> { seq(n, _ => name) }

  lemma {:induction false} CopiesLength(bytes: seq<byte>, name: seq<byte>, n: nat, k: nat)
    requires WellFormed(name) && k <= n
    ensures |WriteNames(Session(bytes, map[]), SplitAll(Copies(name, n)), k).bytes| <= |bytes| + k * (|name| + 3)
  {
    hide EncodeName, LabelsOk;
    if k > 0 {
      CopiesLength(bytes, name, n, k - 1);
      var s := WriteNames(Session(bytes, map[]), SplitAll(Copies(name, n)), k - 1);
      EncodedLength(s.dict, name);
      assert k * (|name| + 3) == (k - 1) * (|name| + 3) + (|name| + 3);
    }
  }

  /** The first twenty copies of a name in one message read back; the parser refuses the twenty-first
      and all after it, because each copy points at the one before. Names are short enough that
      twenty-one copies of any of them fit. */
  lemma CopiesReadable(name: seq<byte>, n: nat, i: nat)
    requires WellFormed(name) && i < n && n * (|name| + 3) <= 0x4000
    ensures var s, all := Session([], map[]), SplitAll(Copies(name, n));
            var final := WriteNames(s, all, n).bytes;
            var end := |WriteNames(s, all, i + 1).bytes|;
            ParseName(final, |final|, |WriteNames(s, all, i).bytes|, 1, [])
            == if i < 20 then Name(name, end) else Bad(InvalidFormat, end)
  {
    hide ParseName, WriteNames, Chain;
    var names := Copies(name, n);
    CopiesLength([], name, n, n);
    NamesRoundTrip([], names, i);
    NamesHaveLabels(name);
    RepeatChain(SplitAll(names), Split(name), i);
  }

  lemma NamesHaveLabels(name: seq<byte>)
    requires WellFormed(name)
    ensures Split(name) != []
  {
  }
}
