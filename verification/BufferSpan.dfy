/** Writing into the room around a buffer's content, which other buffers on the same storage may see. */
module BufferSpan {
  import opened Wire
  import opened BufferStore

  function Overwrite(bytes: seq<byte>, at: nat, data: seq<byte>): (r: seq<byte>)
    requires at + |data| <= |bytes|
    ensures |r| == |bytes| && r[at..at + |data|] == data
  {
    bytes[..at] + data + bytes[at + |data|..]
  }

  lemma OverwriteAt(bytes: seq<byte>, at: nat, data: seq<byte>, k: nat)
    requires at + |data| <= |bytes| && k < |bytes|
    ensures Overwrite(bytes, at, data)[k] == if at <= k < at + |data| then data[k - at] else bytes[k]
  {
  }

  lemma CutBack(bytes: seq<byte>, offset: nat, size: nat, n: nat)
    requires offset + size <= |bytes| && n <= size
    ensures bytes[offset..offset + size][..size - n] == bytes[offset..offset + size - n]
  {
  }

  /** Two windows that differ somewhere. */
  lemma WindowsDiffer(a: seq<byte>, b: seq<byte>, offset: nat, size: nat, k: nat)
    requires |a| == |b| && offset + size <= |a| && offset <= k < offset + size && a[k] != b[k]
    ensures a[offset..offset + size] != b[offset..offset + size]
  {
    assert a[offset..offset + size][k - offset] == a[k] && b[offset..offset + size][k - offset] == b[k];
  }

  function WrittenThrough(s: Store, b: nat, at: nat, data: seq<byte>): Store
    requires Live(s, b) && at + |data| <= Capacity(s, b)
  {
    match s.buffers[b].backing
    case Nothing => s
    case Raw(m) => s.(regions := s.regions[m := Overwrite(s.regions[m], at, data)])
    case Shared(id) => Filled(s, id, Overwrite(s.blocks[id].bytes, at, data))
  }

  lemma WriteKeeps(s: Store, b: nat, at: nat, data: seq<byte>)
    requires Ok(s) && Live(s, b) && at + |data| <= Capacity(s, b)
    ensures Ok(WrittenThrough(s, b, at, data))
  {
    hide Holders;
    var t := WrittenThrough(s, b, at, data);
    forall x | x in t.blocks ensures Counted(t, x) {
      assert Counted(s, x);
    }
  }

  /** The window of `c` meets the span of `n` bytes at `at` in the storage of `b`. */
  predicate Meets(s: Store, b: nat, c: nat, at: nat, n: nat)
    requires b in s.buffers && c in s.buffers
  {
    var w := s.buffers[c];
    w.backing == s.buffers[b].backing && at < w.offset + w.size && w.offset < at + n && n > 0 && w.size > 0
  }

  /** What every other buffer shows is unchanged. */
  ghost predicate OthersKeep(s: Store, t: Store, b: nat)
  {
    forall c :: c in s.buffers && c != b && Live(s, c) && Fits(s, c) ==>
      Live(t, c) && Fits(t, c) && Content(t, c) == Content(s, c)
  }

  lemma StillLive(s: Store, b: nat, at: nat, data: seq<byte>, c: nat)
    requires Live(s, b) && at + |data| <= Capacity(s, b) && Live(s, c)
    ensures var t := WrittenThrough(s, b, at, data);
            && Live(t, c) && t.buffers == s.buffers
            && Bytes(t, t.buffers[c].backing)
               == (if s.buffers[c].backing == s.buffers[b].backing then Overwrite(Bytes(s, s.buffers[c].backing), at, data)
                   else Bytes(s, s.buffers[c].backing))
  {
  }

  /** A write outside a window does not show in it. */
  lemma ApartKeeps(s: Store, b: nat, at: nat, data: seq<byte>, c: nat)
    requires Live(s, b) && at + |data| <= Capacity(s, b) && Live(s, c) && Fits(s, c) && !Meets(s, b, c, at, |data|)
    ensures var t := WrittenThrough(s, b, at, data); Live(t, c) && Fits(t, c) && Content(t, c) == Content(s, c)
  {
    hide WrittenThrough;
    StillLive(s, b, at, data, c);
  }

  /** Where a window meets the span, some bytes written there do show. */
  lemma MeetingShows(s: Store, b: nat, at: nat, n: nat, c: nat) returns (data: seq<byte>)
    requires Live(s, b) && at + n <= Capacity(s, b) && Live(s, c) && Fits(s, c) && Meets(s, b, c, at, n)
    ensures |data| == n
    ensures var t := WrittenThrough(s, b, at, data); Live(t, c) && Fits(t, c) && Content(t, c) != Content(s, c)
  {
    hide WrittenThrough, Overwrite;
    var w, bytes := s.buffers[c], Bytes(s, s.buffers[c].backing);
    var k := if at < w.offset then w.offset else at;
    data := seq(n, i requires 0 <= i < n => if bytes[at + i] == 0 then 1 else 0);
    StillLive(s, b, at, data, c);
    OverwriteAt(bytes, at, data, k);
    WindowsDiffer(Overwrite(bytes, at, data), bytes, w.offset, w.size, k);
  }

  /** Whatever is written into a span leaves the contents of all other buffers alone if and only if no
      other buffer's window meets it. */
  lemma SpanIsPrivate(s: Store, b: nat, at: nat, n: nat)
    requires Live(s, b) && at + n <= Capacity(s, b)
    ensures (forall data: seq<byte> :: |data| == n ==> OthersKeep(s, WrittenThrough(s, b, at, data), b))
            <==> forall c :: c in s.buffers && c != b && Live(s, c) && Fits(s, c) ==> !Meets(s, b, c, at, n)
  {
    hide WrittenThrough, Fits, Content, Meets;
    if forall c :: c in s.buffers && c != b && Live(s, c) && Fits(s, c) ==> !Meets(s, b, c, at, n) {
      forall data: seq<byte> | |data| == n ensures OthersKeep(s, WrittenThrough(s, b, at, data), b) {
        forall c | c in s.buffers && c != b && Live(s, c) && Fits(s, c)
          ensures var t := WrittenThrough(s, b, at, data); Live(t, c) && Fits(t, c) && Content(t, c) == Content(s, c)
        {
          ApartKeeps(s, b, at, data, c);
        }
      }
    } else {
      var c :| c in s.buffers && c != b && Live(s, c) && Fits(s, c) && Meets(s, b, c, at, n);
      var data := MeetingShows(s, b, at, n, c);
      assert !OthersKeep(s, WrittenThrough(s, b, at, data), b);
    }
  }

  /** A write into the room before or after its content does not change what the buffer itself shows. */
  lemma OwnContentKept(s: Store, b: nat, at: nat, data: seq<byte>)
    requires Live(s, b) && Fits(s, b) && at + |data| <= Capacity(s, b)
    requires at + |data| <= s.buffers[b].offset || s.buffers[b].offset + s.buffers[b].size <= at
    ensures var t := WrittenThrough(s, b, at, data); Live(t, b) && Fits(t, b) && Content(t, b) == Content(s, b)
  {
    ApartKeeps(s, b, at, data, b);
  }

  lemma ElsewhereAt(s: Store, t: Store, except: set<nat>, c: nat)
    requires Elsewhere(s, t, except) && c in s.buffers && c !in except && Live(s, c)
    ensures Live(t, c) && t.buffers[c] == s.buffers[c] && Bytes(t, t.buffers[c].backing) == Bytes(s, s.buffers[c].backing)
  {
  }
}
