/** Domain names: dotted strings, label sequences, and their compressed wire form
    (section 4.1.4 of RFC 1035) as the packet parser reads it. */
module DnsName {
  import opened Wire

  type Label = seq<byte>
  type Labels = seq<Label>

  const DOT: byte := 46

  /** The parser gives up once it has followed this many levels of names. */
  const MAX_DEPTH: nat := 20

  const MAX_NAME: nat := 255

  datatype Error = OutOfRange | InvalidFormat | InvalidDomainName
  datatype Result<+T> = Ok(value: T) | Err(error: Error)

  /** What reading a name leaves: the name or an error, and the caller's offset, which a
      failure moves only when it happens behind a pointer. */
  datatype NameRead = Name(name: seq<byte>, next: nat) | Bad(error: Error, next: nat)

  // ---- strings and labels ----

  /** `std::views::split(name, '.')`: the empty string has no pieces at all. */
  function Split(name: seq<byte>): Labels
  {
    if name == [] then [] else Pieces(name)
  }

  function Pieces(s: seq<byte>): (r: Labels)
    ensures r != []
  {
    if s == [] then [[]]
    else
      var rest := Pieces(s[1..]);
      if s[0] == DOT then [[]] + rest else [[s[0]] + rest[0]] + rest[1..]
  }

  /** Every label followed by a dot: what the parser accumulates. */
  function Dotted(labels: Labels): seq<byte>
  {
    if labels == [] then [] else labels[0] + [DOT] + Dotted(labels[1..])
  }

  /** The parser's last step: an empty name is the root, otherwise the final dot goes. */
  function Finish(acc: seq<byte>): seq<byte>
  {
    if acc == [] then [DOT]
    else if acc[|acc| - 1] == DOT then acc[..|acc| - 1]
    else acc
  }

  predicate LabelOk(l: Label) { 1 <= |l| <= 63 }

  predicate LabelsOk(labels: Labels)
  {
    forall i :: 0 <= i < |labels| ==> LabelOk(labels[i])
  }

  /** A name that has a wire form: labels of 1..63 bytes, at most 255 bytes with the final dot. */
  predicate WellFormed(name: seq<byte>)
  {
    name != [] && |name| < MAX_NAME && LabelsOk(Split(name))
  }

  lemma {:induction false} DottedPieces(s: seq<byte>)
    ensures Dotted(Pieces(s)) == s + [DOT]
  {
    if s != [] {
      var rest := Pieces(s[1..]);
      DottedPieces(s[1..]);
      assert s == [s[0]] + s[1..];
      if s[0] == DOT {
        assert ([[]] + rest)[1..] == rest;
      } else {
        assert ([[s[0]] + rest[0]] + rest[1..])[1..] == rest[1..];
        assert Dotted(rest) == rest[0] + [DOT] + Dotted(rest[1..]);
        assert Dotted(Pieces(s)) == [s[0]] + Dotted(rest);
      }
    }
  }

  /** Splitting loses nothing: the parser's reassembly gives the string back. */
  lemma SplitFinish(name: seq<byte>)
    requires name != []
    ensures Split(name) != [] && |Dotted(Split(name))| == |name| + 1
    ensures Finish(Dotted(Split(name))) == name
  {
    DottedPieces(name);
  }

  // ---- reading ----

  /** The two bits that mark a pointer, stripped the way the parser does it. */
  function PointerAt(buf: seq<byte>, p: nat): (r: nat)
    requires p + 2 <= |buf| && buf[p] >= 0xC0
    ensures r < 0x4000
  {
    U16(buf, p) - 0xC000
  }

  /** `__parse_name`, with `acc` the name accumulated by the callers. */
  function ParseName(buf: seq<byte>, size: nat, start: nat, depth: nat, acc: seq<byte>): (r: NameRead)
    requires size <= |buf|
    ensures r.Name? ==> start < r.next <= size
    decreases size, 1, 0
  {
    if depth > MAX_DEPTH then Bad(InvalidFormat, start)
    else if start >= size then Bad(OutOfRange, start)
    else ParseLabels(buf, size, start, start, depth, acc)
  }

  /** Its loop. A pointer must aim below the name's own start, and the name it
      aims at is read in the window that ends there, so the window shrinks. */
  function ParseLabels(buf: seq<byte>, size: nat, start: nat, iter: nat, depth: nat, acc: seq<byte>): (r: NameRead)
    requires start < size <= |buf| && start <= iter
    ensures r.Name? ==> iter < r.next <= size
    decreases size, 0, if iter < size then size - iter else 0
  {
    if iter >= size then Bad(InvalidFormat, start)
    else if buf[iter] == 0 then Name(Finish(acc), iter + 1)
    else if buf[iter] >= 0xC0 then
      if iter + 1 >= size then Bad(OutOfRange, start)
      else if PointerAt(buf, iter) >= start then Bad(InvalidFormat, start)
      else ParseName(buf, start, PointerAt(buf, iter), depth + 1, acc).(next := iter + 2)
    else if buf[iter] < 0x40 then
      if iter + 1 + buf[iter] > size then Bad(OutOfRange, start)
      else
        var more := acc + buf[iter + 1..iter + 1 + buf[iter]] + [DOT];
        if |more| > MAX_NAME then Bad(InvalidFormat, start)
        else ParseLabels(buf, size, start, iter + 1 + buf[iter], depth, more)
    else Bad(InvalidFormat, start)
  }

  /** The parser as it runs: one loop over the labels, recursion on a pointer. */
  method ReadName(name: seq<byte>, buf: seq<byte>, size: nat, offset: nat, depth: nat) returns (r: NameRead)
    requires size <= |buf|
    ensures r == ParseName(buf, size, offset, depth, name)
    decreases size
  {
    if depth > MAX_DEPTH { return Bad(InvalidFormat, offset); }
    if offset >= size { return Bad(OutOfRange, offset); }
    var acc, iter := name, offset;
    while iter < size
      invariant offset <= iter
      invariant ParseName(buf, size, offset, depth, name) == ParseLabels(buf, size, offset, iter, depth, acc)
      decreases size - iter
    {
      var len := buf[iter];
      if len == 0 {
        return Name(Finish(acc), iter + 1);
      }
      if len >= 0xC0 {
        if iter + 1 >= size { return Bad(OutOfRange, offset); }
        var ptr := PointerAt(buf, iter);
        if ptr >= offset { return Bad(InvalidFormat, offset); }
        r := ReadName(acc, buf, offset, ptr, depth + 1);
        return r.(next := iter + 2);
      } else if len < 0x40 {
        if iter + 1 + len > size { return Bad(OutOfRange, offset); }
        acc := acc + buf[iter + 1..iter + 1 + len] + [DOT];
        if |acc| > MAX_NAME { return Bad(InvalidFormat, offset); }
        iter := iter + 1 + len;
      } else {
        return Bad(InvalidFormat, offset);
      }
    }
    return Bad(InvalidFormat, offset);
  }

  // ---- what a correct encoding is ----

  /** From `iter` on, the name that begins at `start` spells `labels`: some labels
      in place, then either the zero byte or a pointer to an earlier name that
      spells the rest and ends no later than `start`. `chain` counts the pointers
      on the way and `end` is the first byte after the name. */
  ghost predicate EncodedAt(buf: seq<byte>, start: nat, iter: nat, labels: Labels, chain: nat, end: nat)
    decreases start, 1, |labels|
  {
    && start <= iter < end <= |buf|
    && if labels == [] then chain == 0 && buf[iter] == 0 && end == iter + 1
       else if buf[iter] >= 0xC0 then
         && end == iter + 2 && chain > 0
         && PointerAt(buf, iter) < start
         && TargetAt(buf, start, PointerAt(buf, iter), labels, chain - 1)
       else
         && LabelOk(labels[0])
         && buf[iter] == |labels[0]|
         && Has(buf, iter + 1, labels[0])
         && EncodedAt(buf, start, iter + 1 + |labels[0]|, labels[1..], chain, end)
  }

  ghost predicate TargetAt(buf: seq<byte>, limit: nat, start: nat, labels: Labels, chain: nat)
    requires start < limit
    decreases limit, 0, 0
  {
    exists end: nat :: end <= limit && EncodedAt(buf, start, start, labels, chain, end)
  }

  /** Reading a correct encoding gives its labels back and stops where it ends,
      exactly when the chain of pointers fits the depth limit. */
  lemma {:induction false} ParseEncoded(buf: seq<byte>, start: nat, iter: nat, labels: Labels, chain: nat, end: nat,
                                        size: nat, depth: nat, acc: seq<byte>)
    requires EncodedAt(buf, start, iter, labels, chain, end)
    requires end <= size <= |buf| && depth <= MAX_DEPTH
    requires |acc| + |Dotted(labels)| <= MAX_NAME
    ensures ParseLabels(buf, size, start, iter, depth, acc)
         == if depth + chain <= MAX_DEPTH then Name(Finish(acc + Dotted(labels)), end)
            else Bad(InvalidFormat, end)
    decreases start, |labels|
  {
    if labels == [] {
      assert acc + [] == acc;
    } else if buf[iter] >= 0xC0 {
      var ptr := PointerAt(buf, iter);
      if depth < MAX_DEPTH {
        assert TargetAt(buf, start, ptr, labels, chain - 1);
        var e: nat :| e <= start && EncodedAt(buf, ptr, ptr, labels, chain - 1, e);
        ParseEncoded(buf, ptr, ptr, labels, chain - 1, e, start, depth + 1, acc);
      }
    } else {
      var more := acc + labels[0] + [DOT];
      assert acc + Dotted(labels) == more + Dotted(labels[1..]);
      assert buf[iter + 1..iter + 1 + buf[iter]] == labels[0];
      ParseEncoded(buf, start, iter + 1 + |labels[0]|, labels[1..], chain, end, size, depth, more);
    }
  }

  /** An encoding depends on no byte at or after its end: later writes cannot change it. */
  lemma {:induction false} EncodedFrame(buf: seq<byte>, buf': seq<byte>, start: nat, iter: nat, labels: Labels,
                                        chain: nat, end: nat)
    requires EncodedAt(buf, start, iter, labels, chain, end)
    requires end <= |buf'| && buf[..end] == buf'[..end]
    ensures EncodedAt(buf', start, iter, labels, chain, end)
    decreases start, |labels|
  {
    assert forall i :: 0 <= i < end ==> buf[i] == buf[..end][i] == buf'[..end][i] == buf'[i];
    if labels == [] {
    } else if buf[iter] >= 0xC0 {
      var ptr := PointerAt(buf, iter);
      assert ptr == PointerAt(buf', iter);
      assert TargetAt(buf, start, ptr, labels, chain - 1);
      var e: nat :| e <= start && EncodedAt(buf, ptr, ptr, labels, chain - 1, e);
      assert buf[..e] == buf[..end][..e] == buf'[..end][..e] == buf'[..e];
      EncodedFrame(buf, buf', ptr, ptr, labels, chain - 1, e);
      assert TargetAt(buf', start, ptr, labels, chain - 1);
    } else {
      var q := iter + 1 + |labels[0]|;
      EncodedFrame(buf, buf', start, q, labels[1..], chain, end);
      assert buf[iter + 1..q] == buf[..end][iter + 1..q] == buf'[..end][iter + 1..q] == buf'[iter + 1..q];
    }
  }

  /** A whole name, read the way a record field is: from a fresh string at depth 1. */
  lemma ParseWhole(buf: seq<byte>, start: nat, name: seq<byte>, chain: nat, end: nat, size: nat)
    requires WellFormed(name) && EncodedAt(buf, start, start, Split(name), chain, end)
    requires end <= size <= |buf|
    ensures ParseName(buf, size, start, 1, [])
         == if chain < MAX_DEPTH then Name(name, end) else Bad(InvalidFormat, end)
  {
    SplitFinish(name);
    assert [] + Dotted(Split(name)) == Dotted(Split(name));
    ParseEncoded(buf, start, start, Split(name), chain, end, size, 1, []);
  }
}
