/** The name compressor as it runs: a sorted pool of names, the offset of each one's last
    occurrence, and a binary search whose range narrows as the suffix gets shorter. */
module DnsCompressor {
  import opened Wire
  import opened Order
  import opened DnsName
  import opened DnsCompression

  predicate ByteLess(a: byte, b: byte) { a < b }

  predicate LabelLess(a: Label, b: Label) { LexLess(a, b, ByteLess) }

  /** Names compare by their labels from the last to the first. */
  predicate NameLess(x: Labels, y: Labels) { LexLess(Reverse(x), Reverse(y), LabelLess) }

  lemma LabelOrder()
    ensures TotalOrder(LabelLess)
  {
    LexWeakOrder(ByteLess);
    var lex := (x: Label, y: Label) => LexLess(x, y, ByteLess);
    assert forall a: Label, b: Label :: lex(a, b) == LabelLess(a, b);
    forall a: Label, b: Label ensures a == b || LabelLess(a, b) || LabelLess(b, a) {
      LexTrichotomy(a, b, ByteLess);
    }
  }

  lemma NameOrder()
    ensures TotalOrder(NameLess)
  {
    LabelOrder();
    LexWeakOrder(LabelLess);
    var lex := (x: Labels, y: Labels) => LexLess(x, y, LabelLess);
    assert forall a: Labels, b: Labels :: NameLess(a, b) == lex(Reverse(a), Reverse(b));
    forall a: Labels, b: Labels ensures a == b || NameLess(a, b) || NameLess(b, a) {
      LexTrichotomy(Reverse(a), Reverse(b), LabelLess);
      if Reverse(a) == Reverse(b) { ReverseInjective(a, b); }
    }
  }

  /** The order's laws for three names. */
  lemma Compare(a: Labels, b: Labels, c: Labels)
    ensures NameLess(a, c) ==> NameLess(a, b) || NameLess(b, c)
    ensures NameLess(a, c) ==> !NameLess(c, a)
    ensures a == c || NameLess(a, c) || NameLess(c, a)
  {
    NameOrder();
  }

  /** A shorter suffix of the same name always compares lower. */
  lemma SuffixLess(labels: Labels, k: nat)
    requires k < |labels|
    ensures NameLess(labels[k + 1..], labels[k..])
  {
    LabelOrder();
    assert labels[k + 1..] == labels[k..][1..];
    ReverseSuffix(labels[k..], 1);
    LexPrefix(Reverse(labels[k..]), |labels| - k - 1, LabelLess);
  }

  ghost predicate StrictlySorted(pool: seq<Labels>)
  {
    forall i, j :: 0 <= i < j < |pool| ==> NameLess(pool[i], pool[j])
  }

  /** Every pool entry that the search range leaves out is above the suffix. */
  ghost predicate Narrowed(pool: seq<Labels>, end: nat, suffix: Labels)
  {
    end <= |pool| && forall j :: end <= j < |pool| ==> NameLess(suffix, pool[j])
  }

  ghost predicate IsLowerBound(pool: seq<Labels>, end: nat, x: Labels, it: nat)
  {
    && it <= end <= |pool|
    && (forall j :: 0 <= j < it ==> NameLess(pool[j], x))
    && (forall j :: it <= j < end ==> !NameLess(pool[j], x))
  }

  /** The narrowed search decides exactly what a scan of the whole pool would, and the
      position it returns is a valid end of the range for the next, shorter suffix. */
  lemma NarrowedSearch(pool: seq<Labels>, end: nat, labels: Labels, k: nat, it: nat)
    requires StrictlySorted(pool) && k < |labels|
    requires Narrowed(pool, end, labels[k..])
    requires IsLowerBound(pool, end, labels[k..], it)
    ensures labels[k..] in pool <==> it < end && pool[it] == labels[k..]
    ensures Narrowed(pool, it, labels[k + 1..]) && Narrowed(pool, end, labels[k + 1..])
  {
    var x, y := labels[k..], labels[k + 1..];
    SuffixLess(labels, k);
    if it < end { Compare(x, x, pool[it]); }
    forall j | 0 <= j < |pool| && pool[j] == x ensures j == it && it < end {
      Compare(x, x, x);
    }
    forall j | it <= j < |pool| ensures NameLess(y, pool[j]) {
      Compare(y, pool[j], x);
      Compare(y, x, pool[j]);
      Compare(x, x, pool[j]);
    }
  }

  class NameCompressor {
    var pool: seq<Labels>
    var offsets: seq<int>

    /** The same knowledge by name, with the chain each name needs. */
    ghost var dict: Dict

    ghost predicate Ready()
      reads this
    {
      && |offsets| == |pool| && StrictlySorted(pool)
      && (forall i :: 0 <= i < |pool| ==> offsets[i] == if pool[i] in dict then dict[pool[i]].pos else -1)
      && (forall l :: l in dict ==> l in pool)
    }

    constructor ()
      ensures pool == [] && offsets == [] && dict == map[]
    {
      pool, offsets, dict := [], [], map[];
    }

    method Prepare(name: seq<byte>)
      modifies this`pool
      ensures pool == old(pool) + [Split(name)]
    {
      pool := pool + [Split(name)];
    }

    /** Sort and drop duplicates: the pool keeps exactly the prepared names. */
    method Finally()
      requires offsets == [] && dict == map[]
      modifies this
      ensures Ready() && dict == map[]
      ensures forall l :: l in pool <==> l in old(pool)
    {
      if pool == [] { return; }
      NameOrder();
      var sorted := Sort(pool, NameLess);
      assert forall l :: l in sorted <==> l in multiset(sorted);
      assert forall l :: l in old(pool) <==> l in multiset(old(pool));
      pool := Unique(sorted);
      offsets := seq(|pool|, _ => -1);
    }

    /** `std::unique` on a sorted sequence. */
    static method Unique(sorted: seq<Labels>) returns (r: seq<Labels>)
      requires sorted != [] && SortedBy(sorted, NameLess)
      ensures StrictlySorted(r)
      ensures forall l :: l in r <==> l in sorted
    {
      r := [sorted[0]];
      for i := 1 to |sorted|
        invariant StrictlySorted(r) && r != []
        invariant r[|r| - 1] == sorted[i - 1]
        invariant forall l :: l in r <==> l in sorted[..i]
      {
        assert sorted[..i + 1] == sorted[..i] + [sorted[i]];
        if sorted[i] != r[|r| - 1] {
          AppendAbove(r, sorted[i]);
          r := r + [sorted[i]];
        }
      }
      assert sorted[..|sorted|] == sorted;
    }

    static lemma AppendAbove(s: seq<Labels>, x: Labels)
      requires StrictlySorted(s) && s != []
      requires x != s[|s| - 1] && !NameLess(x, s[|s| - 1])
      ensures StrictlySorted(s + [x])
    {
      forall i | 0 <= i < |s| ensures NameLess(s[i], x) {
        Compare(s[|s| - 1], x, x);
        Compare(s[i], x, s[|s| - 1]);
      }
    }

    /** `std::lower_bound` over the first `end` names. */
    method LowerBound(end: nat, x: Labels) returns (it: nat)
      requires StrictlySorted(pool) && end <= |pool|
      ensures IsLowerBound(pool, end, x, it)
    {
      var lo, hi := 0, end;
      while lo < hi
        invariant 0 <= lo <= hi <= end
        invariant forall j :: 0 <= j < lo ==> NameLess(pool[j], x)
        invariant forall j :: hi <= j < end ==> !NameLess(pool[j], x)
      {
        var mid := (lo + hi) / 2;
        if NameLess(pool[mid], x) {
          forall j | lo <= j < mid ensures NameLess(pool[j], x) {
            Compare(pool[j], x, pool[mid]);
            Compare(pool[mid], x, x);
          }
          lo := mid + 1;
        } else {
          forall j | mid < j < hi ensures !NameLess(pool[j], x) {
            Compare(pool[mid], x, pool[j]);
            Compare(x, x, pool[j]);
          }
          hi := mid;
        }
      }
      it := lo;
    }

    /** Looks the suffix from `k` up in the first `end` names: the offset where that name was
        last written, or -1, and the end of the range for the next suffix. */
    method FindSuffix(end: nat, labels: Labels, k: nat) returns (at: int, end': nat)
      requires Ready() && k < |labels| && Narrowed(pool, end, labels[k..])
      ensures labels[k..] in dict ==> at == dict[labels[k..]].pos
      ensures labels[k..] !in dict ==> at == -1
      ensures Narrowed(pool, end', labels[k + 1..])
    {
      var it := LowerBound(end, labels[k..]);
      NarrowedSearch(pool, end, labels, k, it);
      if it == end { return -1, end; }
      if pool[it] == labels[k..] { return offsets[it], it; }
      return -1, it;
    }

    /** Records where the name at index `whole` of the pool was last written. */
    method Remember(whole: nat, offset: nat, ghost next: nat)
      requires Ready() && whole < |pool|
      modifies this`offsets, this`dict
      ensures Ready()
      ensures dict == old(dict)[pool[whole] := Entry(offset, next, ChainOf(old(dict), pool[whole]))]
    {
      forall i | 0 <= i < |pool| && pool[i] == pool[whole] ensures i == whole {
        Compare(pool[i], pool[i], pool[whole]);
      }
      offsets := offsets[whole := offset];
      dict := dict[pool[whole] := Entry(offset, next, ChainOf(dict, pool[whole]))];
    }

    /** Writes labels until a suffix is a known name: `at` is then its offset. */
    method WriteLabels(buf: array<byte>, labels: Labels, offset: nat) returns (ok: bool, k: nat, at: int, next: nat)
      requires Ready() && offset <= buf.Length
      modifies buf
      ensures !ok ==> offset + |EncodeName(dict, labels)| > buf.Length
      ensures ok ==> k == Cut(dict.Keys, labels, 0) && (k < |labels| ==> at == dict[labels[k..]].pos)
      ensures ok ==> next == offset + |LabelBytes(labels[..k])| && Has(buf[..], offset, LabelBytes(labels[..k]))
      ensures offset <= next <= buf.Length && SameOutside(old(buf[..]), buf[..], offset, next)
    {
      hide EncodeName, StrictlySorted, LabelBytes, Has, Narrowed;
      NothingWritten(buf[..], pool, offset, labels);
      ghost var cut := Cut(dict.Keys, labels, 0);
      var end: nat := |pool|;
      next, k, at := offset, 0, -1;
      while k < |labels|
        invariant k <= cut
        invariant next == offset + |LabelBytes(labels[..k])| <= buf.Length
        invariant Has(buf[..], offset, LabelBytes(labels[..k]))
        invariant SameOutside(old(buf[..]), buf[..], offset, next)
        invariant Narrowed(pool, end, labels[k..])
      {
        at, end := FindSuffix(end, labels, k);
        CodeFits(dict, labels, k);
        if at != -1 { return true, k, at, next; }
        ghost var was, from := buf[..], next;
        ok, next := WriteBytes(buf, [|labels[k]| % 0x100] + labels[k], next);
        if !ok { return; }
        assert labels[..k + 1] == labels[..k] + [labels[k]];
        LabelBytesAppend(labels[..k], labels[k]);
        TwoWrites(old(buf[..]), was, buf[..], offset, from, next,
                  LabelBytes(labels[..k]), [|labels[k]| % 0x100] + labels[k]);
        k := k + 1;
      }
      ok := true;
    }

    static lemma NothingWritten(buf: seq<byte>, pool: seq<Labels>, offset: nat, labels: Labels)
      requires offset <= |buf|
      ensures LabelBytes(labels[..0]) == [] && Has(buf, offset, LabelBytes(labels[..0]))
      ensures Narrowed(pool, |pool|, labels[0..])
    {
    }

    /** One name, written at `offset`. It fails exactly when its encoding does not fit;
        then nothing is remembered and no earlier byte has changed. Otherwise the buffer
        holds the encoding that a linear lookup of the suffixes would give. */
    method WriteName(buf: array<byte>, name: seq<byte>, offset: nat) returns (ok: bool, next: nat)
      requires Ready() && Split(name) in pool && offset <= buf.Length
      modifies this`offsets, this`dict, buf
      ensures Ready()
      ensures ok <==> offset + |EncodeName(old(dict), Split(name))| <= buf.Length
      ensures offset <= next <= buf.Length && SameOutside(old(buf[..]), buf[..], offset, next)
      ensures ok ==>
                Session(buf[..next], dict)
                == DnsCompression.WriteName(Session(old(buf[..offset]), old(dict)), Split(name))
      ensures !ok ==> dict == old(dict)
    {
      hide Cut, LabelBytes, Split, ChainOf, PointerBytes, Has, StrictlySorted, IsLowerBound;
      var labels := Split(name);
      var whole := LowerBound(|pool|, labels);
      LookupWhole(labels, whole);
      var k, at;
      ok, k, at, next := WriteLabels(buf, labels, offset);
      if !ok { return; }
      ghost var was, from := buf[..], next;
      var tail := if k < |labels| then PointerBytes(at) else [0];
      ok, next := WriteBytes(buf, tail, next);
      if !ok { return; }
      TwoWrites(old(buf[..]), was, buf[..], offset, from, next, LabelBytes(labels[..k]), tail);
      WriteIsAppend(old(buf[..]), buf[..], offset, LabelBytes(labels[..k]) + tail);
      Remember(whole, offset, next);
    }

    lemma LookupWhole(labels: Labels, it: nat)
      requires StrictlySorted(pool) && labels in pool
      requires IsLowerBound(pool, |pool|, labels, it)
      ensures it < |pool| && pool[it] == labels
    {
      var j :| 0 <= j < |pool| && pool[j] == labels;
      Compare(labels, labels, labels);
    }

    /** The labels before the cut are part of the encoding. */
    static lemma CodeFits(d: Dict, labels: Labels, k: nat)
      requires k <= Cut(d.Keys, labels, 0)
      ensures |EncodeName(d, labels)| > |LabelBytes(labels[..k])|
      ensures k < Cut(d.Keys, labels, 0)
              ==> |EncodeName(d, labels)| > |LabelBytes(labels[..k])| + 1 + |labels[k]|
    {
      var cut := Cut(d.Keys, labels, 0);
      LabelBytesMonotone(labels, k, cut);
      if k < cut {
        LabelBytesMonotone(labels, k + 1, cut);
        assert labels[..k + 1] == labels[..k] + [labels[k]];
        LabelBytesAppend(labels[..k], labels[k]);
      }
    }

    static lemma {:induction false} LabelBytesMonotone(labels: Labels, k: nat, m: nat)
      requires k <= m <= |labels|
      ensures |LabelBytes(labels[..k])| <= |LabelBytes(labels[..m])|
      decreases m - k
    {
      if k < m {
        assert labels[..m] == labels[..m - 1] + [labels[m - 1]];
        LabelBytesAppend(labels[..m - 1], labels[m - 1]);
        LabelBytesMonotone(labels, k, m - 1);
      }
    }
  }

  /** A checked copy into the buffer. */
  method WriteBytes(buf: array<byte>, bytes: seq<byte>, offset: nat) returns (ok: bool, next: nat)
    requires offset <= buf.Length
    modifies buf
    ensures ok <==> offset + |bytes| <= buf.Length
    ensures next == if ok then offset + |bytes| else offset
    ensures ok ==> Has(buf[..], offset, bytes)
    ensures SameOutside(old(buf[..]), buf[..], offset, next)
  {
    if offset + |bytes| > buf.Length { return false, offset; }
    for i := 0 to |bytes|
      invariant forall j :: 0 <= j < i ==> buf[offset + j] == bytes[j]
      invariant forall j :: 0 <= j < buf.Length && !(offset <= j < offset + i) ==> buf[j] == old(buf[j])
    {
      buf[offset + i] := bytes[i];
    }
    return true, offset + |bytes|;
  }
}
