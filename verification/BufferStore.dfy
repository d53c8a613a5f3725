/** Buffers over reference-counted blocks, as one value: who holds what, and what is free. */
module BufferStore {
  import opened Wire

  /** A shared block, and whether it goes back to the pool when its last holder leaves. */
  datatype Block = Block(bytes: seq<byte>, refs: nat, pooled: bool)

  /** Memory the caller owns, a shared block, or nothing at all. */
  datatype Backing = Nothing | Raw(region: nat) | Shared(block: nat)

  datatype Buffer = Buffer(backing: Backing, offset: nat, size: nat, pooled: bool)

  datatype Store = Store(
    blocks: map<nat, Block>, regions: map<nat, seq<byte>>, buffers: map<nat, Buffer>,
    freeBlocks: seq<nat>, freeBuffers: seq<nat>, next: nat)

  ghost function Holders(buffers: map<nat, Buffer>, id: nat): set<nat>
  {
    set b | b in buffers && buffers[b].backing == Shared(id)
  }

  ghost predicate Distinct(s: seq<nat>) { forall i, j :: 0 <= i < j < |s| ==> s[i] != s[j] }

  /** A buffer reaches only what exists, and never a free block. */
  predicate Backed(s: Store, backing: Backing)
  {
    match backing
    case Nothing => true
    case Raw(m) => m in s.regions
    case Shared(id) => id in s.blocks && id !in s.freeBlocks
  }

  /** A block in use counts its holders; a free one is held by nobody, by `Backed`. */
  ghost predicate Counted(s: Store, id: nat)
    requires id in s.blocks
  {
    if id in s.freeBlocks then s.blocks[id].pooled && s.blocks[id].refs == 1
    else s.blocks[id].refs == |Holders(s.buffers, id)| && s.blocks[id].refs > 0
  }

  predicate Idle(b: Buffer) { b.backing.Nothing? && b.size == 0 && b.pooled }

  ghost predicate Ok(s: Store)
  {
    && (forall b :: b in s.buffers ==> Backed(s, s.buffers[b].backing))
    && (forall id :: id in s.blocks ==> Counted(s, id))
    && (forall id :: id in s.freeBlocks ==> id in s.blocks)
    && (forall b :: b in s.freeBuffers ==> b in s.buffers && Idle(s.buffers[b]))
    && Distinct(s.freeBlocks) && Distinct(s.freeBuffers)
    && (forall id :: id in s.blocks ==> id < s.next)
    && (forall b :: b in s.buffers ==> b < s.next)
  }

  // ---- what a buffer shows ----

  function Bytes(s: Store, backing: Backing): seq<byte>
    requires Backed(s, backing)
  {
    match backing
    case Nothing => []
    case Raw(m) => s.regions[m]
    case Shared(id) => s.blocks[id].bytes
  }

  predicate Live(s: Store, b: nat) { b in s.buffers && Backed(s, s.buffers[b].backing) }

  function Capacity(s: Store, b: nat): nat
    requires Live(s, b)
  {
    |Bytes(s, s.buffers[b].backing)|
  }

  /** The window lies within the storage. */
  predicate Fits(s: Store, b: nat)
    requires Live(s, b)
  {
    s.buffers[b].offset + s.buffers[b].size <= Capacity(s, b)
  }

  function Content(s: Store, b: nat): seq<byte>
    requires Live(s, b) && Fits(s, b)
  {
    var w := s.buffers[b];
    Bytes(s, w.backing)[w.offset..w.offset + w.size]
  }

  function HeadRoom(s: Store, b: nat): nat
    requires Live(s, b)
  {
    s.buffers[b].offset
  }

  function TailRoom(s: Store, b: nat): nat
    requires Live(s, b) && Fits(s, b)
  {
    Capacity(s, b) - s.buffers[b].offset - s.buffers[b].size
  }

  /** Every other buffer is what it was, over the very same bytes. */
  ghost predicate Elsewhere(s: Store, t: Store, except: set<nat>)
  {
    && t.regions == s.regions
    && forall b :: b in s.buffers && b !in except ==>
         && b in t.buffers && t.buffers[b] == s.buffers[b]
         && (Live(s, b) ==> Live(t, b) && Bytes(t, t.buffers[b].backing) == Bytes(s, s.buffers[b].backing))
  }

  lemma ElsewhereTrans(s: Store, t: Store, u: Store, first: set<nat>, second: set<nat>)
    requires Elsewhere(s, t, first) && Elsewhere(t, u, second)
    ensures Elsewhere(s, u, first + second)
  {
  }

  /** Buffers that did not exist need no excuse. */
  lemma ElsewhereDrop(s: Store, t: Store, except: set<nat>, b: nat)
    requires Elsewhere(s, t, except) && b !in s.buffers
    ensures Elsewhere(s, t, except - {b})
  {
  }

  lemma LiveOk(s: Store, b: nat)
    requires Ok(s) && b in s.buffers
    ensures Live(s, b)
    ensures s.buffers[b].backing.Shared? ==>
              var id := s.buffers[b].backing.block;
              s.blocks[id].refs == |Holders(s.buffers, id)| && s.blocks[id].refs > 0
  {
    if s.buffers[b].backing.Shared? { assert Counted(s, s.buffers[b].backing.block); }
  }

  // ---- taking and dropping hold ----

  /** One more buffer `b`, not there before. */
  lemma HoldersAdd(buffers: map<nat, Buffer>, b: nat, w: Buffer, id: nat)
    requires b !in buffers
    ensures Holders(buffers[b := w], id) == Holders(buffers, id) + (if w.backing == Shared(id) then {b} else {})
    ensures |Holders(buffers[b := w], id)| == |Holders(buffers, id)| + (if w.backing == Shared(id) then 1 else 0)
  {
  }

  lemma HoldersDrop(buffers: map<nat, Buffer>, b: nat, id: nat)
    requires b in buffers
    ensures Holders(buffers - {b}, id) == Holders(buffers, id) - {b}
    ensures |Holders(buffers - {b}, id)|
         == |Holders(buffers, id)| - (if buffers[b].backing == Shared(id) then 1 else 0)
  {
  }

  /** A buffer that changes only its window, or the same backing under another name. */
  lemma HoldersSame(buffers: map<nat, Buffer>, b: nat, w: Buffer, id: nat)
    requires b in buffers && (buffers[b].backing == Shared(id) <==> w.backing == Shared(id))
    ensures Holders(buffers[b := w], id) == Holders(buffers, id)
  {
  }

  lemma HoldersGain(buffers: map<nat, Buffer>, b: nat, w: Buffer, id: nat)
    requires b in buffers && buffers[b].backing != Shared(id) && w.backing == Shared(id)
    ensures |Holders(buffers[b := w], id)| == |Holders(buffers, id)| + 1
  {
    assert Holders(buffers[b := w], id) == Holders(buffers, id) + {b};
  }

  lemma HoldersSwap(buffers: map<nat, Buffer>, a: nat, b: nat, id: nat)
    requires a in buffers && b in buffers && a != b
    ensures |Holders(buffers[a := buffers[b]][b := buffers[a]], id)| == |Holders(buffers, id)|
  {
    var h := Holders(buffers, id);
    var swapped := buffers[a := buffers[b]][b := buffers[a]];
    var ha, hb := a in h, b in h;
    if ha == hb {
      assert Holders(swapped, id) == h;
    } else if ha {
      assert Holders(swapped, id) == h - {a} + {b};
    } else {
      assert Holders(swapped, id) == h - {b} + {a};
    }
  }

  /** In order except that block `id` counts one reference more than it has holders. */
  ghost predicate Owing(s: Store, id: nat)
  {
    && (forall b :: b in s.buffers ==> Backed(s, s.buffers[b].backing))
    && (forall x :: x in s.blocks && x != id ==> Counted(s, x))
    && id in s.blocks && id !in s.freeBlocks && s.blocks[id].refs == |Holders(s.buffers, id)| + 1
    && (forall x :: x in s.freeBlocks ==> x in s.blocks)
    && (forall b :: b in s.freeBuffers ==> b in s.buffers && Idle(s.buffers[b]))
    && Distinct(s.freeBlocks) && Distinct(s.freeBuffers)
    && (forall x :: x in s.blocks ==> x < s.next)
    && (forall b :: b in s.buffers ==> b < s.next)
  }

  function Allocated(s: Store, bytes: seq<byte>, pooled: bool): Store
  {
    s.(blocks := s.blocks[s.next := Block(bytes, 1, pooled)], next := s.next + 1)
  }

  lemma NoHolders(s: Store, id: nat)
    requires Ok(s) && (id !in s.blocks || id in s.freeBlocks)
    ensures Holders(s.buffers, id) == {}
  {
    forall b | b in s.buffers ensures s.buffers[b].backing != Shared(id) {
      assert Backed(s, s.buffers[b].backing);
    }
  }

  lemma AllocateOwes(s: Store, bytes: seq<byte>, pooled: bool)
    requires Ok(s)
    ensures Owing(Allocated(s, bytes, pooled), s.next) && Elsewhere(s, Allocated(s, bytes, pooled), {})
  {
    NoHolders(s, s.next);
    var t := Allocated(s, bytes, pooled);
    forall x | x in t.blocks && x != s.next ensures Counted(t, x) {
      assert Counted(s, x);
    }
  }

  function Added(s: Store, w: Buffer): Store { s.(buffers := s.buffers[s.next := w], next := s.next + 1) }

  /** A new buffer takes the reference that is owed. */
  lemma AttachNew(s: Store, id: nat, w: Buffer)
    requires Owing(s, id) && w.backing == Shared(id)
    ensures Ok(Added(s, w)) && Elsewhere(s, Added(s, w), {})
    ensures s.next !in s.buffers && s.next !in s.freeBuffers && Live(Added(s, w), s.next)
  {
    hide Holders;
    var t := Added(s, w);
    assert s.next !in s.buffers;
    forall x | x in t.blocks ensures Counted(t, x) {
      HoldersAdd(s.buffers, s.next, w, x);
      assert x != id ==> Counted(s, x);
    }
  }

  lemma AddUnshared(s: Store, w: Buffer)
    requires Ok(s) && !w.backing.Shared? && Backed(s, w.backing)
    ensures Ok(Added(s, w)) && Elsewhere(s, Added(s, w), {})
    ensures s.next !in s.buffers && s.next !in s.freeBuffers && Live(Added(s, w), s.next)
  {
    hide Holders;
    var t := Added(s, w);
    assert s.next !in s.buffers;
    forall x | x in t.blocks ensures Counted(t, x) {
      HoldersAdd(s.buffers, s.next, w, x);
      assert Counted(s, x);
    }
  }

  /** An unbacked buffer takes it. */
  lemma AttachTo(s: Store, id: nat, b: nat, w: Buffer)
    requires Owing(s, id) && b in s.buffers && b !in s.freeBuffers
    requires s.buffers[b].backing.Nothing? && w.backing == Shared(id)
    ensures Ok(s.(buffers := s.buffers[b := w])) && Elsewhere(s, s.(buffers := s.buffers[b := w]), {b})
  {
    hide Holders;
    var t := s.(buffers := s.buffers[b := w]);
    forall x | x in t.blocks ensures Counted(t, x) {
      if x == id {
        HoldersGain(s.buffers, b, w, id);
      } else {
        HoldersSame(s.buffers, b, w, x);
        assert Counted(s, x);
      }
    }
  }

  function Reference(s: Store, id: nat, refs: nat): Store
    requires id in s.blocks
  {
    s.(blocks := s.blocks[id := s.blocks[id].(refs := refs)])
  }

  lemma AddRefOwes(s: Store, id: nat)
    requires Ok(s) && id in s.blocks && id !in s.freeBlocks
    ensures Owing(Reference(s, id, s.blocks[id].refs + 1), id)
    ensures Elsewhere(s, Reference(s, id, s.blocks[id].refs + 1), {})
  {
    assert Counted(s, id);
    forall x | x in s.blocks && x != id ensures Counted(Reference(s, id, s.blocks[id].refs + 1), x) {
      assert Counted(s, x);
    }
  }

  function Dropped(s: Store, b: nat): Store { s.(buffers := s.buffers - {b}) }

  lemma DropShared(s: Store, b: nat)
    requires Ok(s) && b in s.buffers && b !in s.freeBuffers && s.buffers[b].backing.Shared?
    ensures Owing(Dropped(s, b), s.buffers[b].backing.block) && Elsewhere(s, Dropped(s, b), {b})
  {
    hide Holders;
    var t := Dropped(s, b);
    var id := s.buffers[b].backing.block;
    assert Backed(s, s.buffers[b].backing);
    forall x | x in s.blocks
      ensures x != id ==> Counted(t, x)
      ensures x == id ==> t.blocks[x].refs == |Holders(t.buffers, x)| + 1
    {
      HoldersDrop(s.buffers, b, x);
      assert Counted(s, x);
    }
  }

  lemma DropUnshared(s: Store, b: nat)
    requires Ok(s) && b in s.buffers && b !in s.freeBuffers && !s.buffers[b].backing.Shared?
    ensures Ok(Dropped(s, b)) && Elsewhere(s, Dropped(s, b), {b})
  {
    hide Holders;
    var t := Dropped(s, b);
    forall x | x in s.blocks ensures Counted(t, x) {
      HoldersDrop(s.buffers, b, x);
      assert Counted(s, x);
    }
  }

  /** What `release` leaves of the store. */
  function Released(s: Store, id: nat): Store
    requires id in s.blocks
  {
    var block := s.blocks[id];
    if block.refs > 1 then Reference(s, id, block.refs - 1)
    else if block.pooled then Reference(s, id, 1).(freeBlocks := [id] + s.freeBlocks)
    else s.(blocks := s.blocks - {id})
  }

  lemma Unheld(buffers: map<nat, Buffer>, id: nat, b: nat)
    requires |Holders(buffers, id)| == 0 && b in buffers
    ensures buffers[b].backing != Shared(id)
  {
    assert b !in Holders(buffers, id);
  }

  lemma LessSettles(s: Store, id: nat)
    requires Owing(s, id) && s.blocks[id].refs > 1
    ensures Ok(Reference(s, id, s.blocks[id].refs - 1)) && Elsewhere(s, Reference(s, id, s.blocks[id].refs - 1), {})
  {
    hide Holders;
    var t := Reference(s, id, s.blocks[id].refs - 1);
    forall x | x in t.blocks ensures Counted(t, x) {
      if x != id { assert Counted(s, x); }
    }
  }

  lemma PoolingSettles(s: Store, id: nat)
    requires Owing(s, id) && s.blocks[id].refs == 1 && s.blocks[id].pooled
    ensures Ok(Reference(s, id, 1).(freeBlocks := [id] + s.freeBlocks))
    ensures Elsewhere(s, Reference(s, id, 1).(freeBlocks := [id] + s.freeBlocks), {})
  {
    hide Holders;
    var t := Reference(s, id, 1).(freeBlocks := [id] + s.freeBlocks);
    forall x | x in t.blocks ensures Counted(t, x) {
      if x != id { assert Counted(s, x); }
    }
    forall b | b in s.buffers ensures s.buffers[b].backing != Shared(id) {
      Unheld(s.buffers, id, b);
    }
  }

  lemma DestroyingSettles(s: Store, id: nat)
    requires Owing(s, id) && s.blocks[id].refs == 1
    ensures Ok(s.(blocks := s.blocks - {id})) && Elsewhere(s, s.(blocks := s.blocks - {id}), {})
  {
    hide Holders;
    var t := s.(blocks := s.blocks - {id});
    forall x | x in t.blocks ensures Counted(t, x) {
      assert Counted(s, x);
    }
    forall b | b in s.buffers ensures s.buffers[b].backing != Shared(id) {
      Unheld(s.buffers, id, b);
    }
  }

  /** Releasing settles the debt: a block somebody else holds stays as it is, the last hold frees it. */
  lemma ReleaseSettles(s: Store, id: nat)
    requires Owing(s, id)
    ensures Ok(Released(s, id)) && Elsewhere(s, Released(s, id), {})
  {
    hide Ok, Elsewhere, Holders;
    if s.blocks[id].refs > 1 {
      LessSettles(s, id);
    } else if s.blocks[id].pooled {
      PoolingSettles(s, id);
    } else {
      DestroyingSettles(s, id);
    }
  }

  function Swapped(s: Store, a: nat, b: nat): Store
    requires a in s.buffers && b in s.buffers
  {
    s.(buffers := s.buffers[a := s.buffers[b]][b := s.buffers[a]])
  }

  lemma SwapKeeps(s: Store, a: nat, b: nat)
    requires Ok(s) && a in s.buffers && b in s.buffers && a != b && a !in s.freeBuffers && b !in s.freeBuffers
    ensures Ok(Swapped(s, a, b)) && Elsewhere(s, Swapped(s, a, b), {a, b})
  {
    hide Holders;
    var t := Swapped(s, a, b);
    forall x | x in s.blocks ensures Counted(t, x) {
      HoldersSwap(s.buffers, a, b, x);
      assert Counted(s, x);
    }
  }

  lemma WindowKeeps(s: Store, b: nat, w: Buffer)
    requires Ok(s) && b in s.buffers && b !in s.freeBuffers && w.backing == s.buffers[b].backing
    ensures Ok(s.(buffers := s.buffers[b := w])) && Elsewhere(s, s.(buffers := s.buffers[b := w]), {b})
  {
    hide Holders;
    var t := s.(buffers := s.buffers[b := w]);
    forall x | x in s.blocks ensures Counted(t, x) {
      HoldersSame(s.buffers, b, w, x);
      assert Counted(s, x);
    }
  }

  function Filled(s: Store, id: nat, bytes: seq<byte>): Store
    requires id in s.blocks
  {
    s.(blocks := s.blocks[id := s.blocks[id].(bytes := bytes)])
  }

  /** Only its one holder sees a block with one reference change. */
  lemma FillKeeps(s: Store, b: nat, bytes: seq<byte>)
    requires Ok(s) && b in s.buffers && s.buffers[b].backing.Shared?
    requires s.buffers[b].backing.block in s.blocks && s.blocks[s.buffers[b].backing.block].refs == 1
    ensures Ok(Filled(s, s.buffers[b].backing.block, bytes)) && Elsewhere(s, Filled(s, s.buffers[b].backing.block, bytes), {b})
  {
    var id := s.buffers[b].backing.block;
    var t := Filled(s, id, bytes);
    LiveOk(s, b);
    forall x | x in t.blocks ensures Counted(t, x) {
      assert Counted(s, x);
    }
    forall c | c in s.buffers && c != b ensures s.buffers[c].backing != Shared(id) {
      if s.buffers[c].backing == Shared(id) {
        assert b in Holders(s.buffers, id) && c in Holders(s.buffers, id);
        OneMember(Holders(s.buffers, id), b, c);
      }
    }
  }

  lemma OneMember(s: set<nat>, a: nat, b: nat)
    requires |s| == 1 && a in s && b in s
    ensures a == b
  {
    if a != b {
      assert {a, b} <= s && |{a, b}| == 2;
      Smaller({a, b}, s);
    }
  }

  lemma Smaller(a: set<nat>, b: set<nat>)
    requires a <= b
    ensures |a| <= |b|
  {
    assert b == a + (b - a);
  }

  function TakenBlock(s: Store, i: nat): Store
    requires i < |s.freeBlocks| && s.freeBlocks[i] in s.blocks
  {
    Reference(s, s.freeBlocks[i], 1).(freeBlocks := s.freeBlocks[..i] + s.freeBlocks[i + 1..])
  }

  /** A block taken from the free list is owed to whoever asked. */
  lemma TakeOwes(s: Store, i: nat)
    requires Ok(s) && i < |s.freeBlocks| && s.freeBlocks[i] in s.blocks
    ensures Owing(TakenBlock(s, i), s.freeBlocks[i]) && Elsewhere(s, TakenBlock(s, i), {})
  {
    var id := s.freeBlocks[i];
    var t := TakenBlock(s, i);
    assert id in s.freeBlocks;
    NoHolders(s, id);
    DistinctWithout(s.freeBlocks, i);
    forall x | x in t.blocks && x != id ensures Counted(t, x) {
      assert Counted(s, x);
    }
  }

  lemma DistinctWithout(s: seq<nat>, i: nat)
    requires Distinct(s) && i < |s|
    ensures var t := s[..i] + s[i + 1..]; Distinct(t) && s[i] !in t && forall x :: x in s && x != s[i] ==> x in t
  {
    var t := s[..i] + s[i + 1..];
    forall j | 0 <= j < |t| ensures t[j] != s[i] && t[j] == s[if j < i then j else j + 1] {
    }
    forall x | x in s && x != s[i] ensures x in t {
      var k :| 0 <= k < |s| && s[k] == x;
      assert t[if k < i then k else k - 1] == x;
    }
  }

  lemma ElsewhereSelf(s: Store)
    ensures Elsewhere(s, s, {})
  {
  }

  lemma MoveElsewhere(s: Store, t: Store, u: Store, v: Store, b: nat, c: nat)
    requires Elsewhere(s, t, {}) && Elsewhere(t, u, {b, c}) && Elsewhere(u, v, {c}) && c !in s.buffers
    ensures Elsewhere(s, v, {b})
  {
  }

  lemma GrowElsewhere(s: Store, s1: Store, s2: Store, b: nat, t: nat)
    requires Elsewhere(s, s1, {}) && Elsewhere(s1, s2, {t}) && t !in s.buffers && Live(s, b)
    ensures Elsewhere(s, s2, {}) && Live(s2, b)
  {
  }

  /** The buffer now has what the temporary had; everyone else has what they had. */
  lemma GrowDone(s: Store, s2: Store, s3: Store, s4: Store, b: nat, t: nat)
    requires Elsewhere(s, s2, {}) && Elsewhere(s2, s3, {b, t}) && Elsewhere(s3, s4, {t})
    requires t !in s.buffers && b != t && Live(s2, b) && Live(s2, t) && s3 == Swapped(s2, b, t)
    ensures Elsewhere(s, s4, {b})
    ensures Live(s4, b) && s4.buffers[b] == s2.buffers[t]
    ensures Bytes(s4, s4.buffers[b].backing) == Bytes(s2, s2.buffers[t].backing)
  {
  }

  lemma ElsewhereThen(s: Store, t: Store, u: Store)
    requires Elsewhere(s, t, {}) && Elsewhere(t, u, {})
    ensures Elsewhere(s, u, {})
  {
  }

  lemma ElsewhereSame(s: Store, b: nat)
    ensures Elsewhere(s, s, {b})
  {
  }

  lemma ElsewhereMore(s: Store, t: Store, b: nat)
    requires Elsewhere(s, t, {})
    ensures Elsewhere(s, t, {b})
  {
  }

  lemma FreeIsPooled(s: Store, id: nat)
    requires Ok(s) && id in s.freeBlocks
    ensures id in s.blocks && s.blocks[id].pooled
  {
    assert Counted(s, id);
  }

  function TakenBuffer(s: Store): Store
    requires s.freeBuffers != []
  {
    s.(freeBuffers := s.freeBuffers[1..])
  }

  lemma TakeBuffer(s: Store)
    requires Ok(s) && s.freeBuffers != []
    ensures Ok(TakenBuffer(s)) && Elsewhere(s, TakenBuffer(s), {})
    ensures var b := s.freeBuffers[0]; Live(s, b) && Idle(s.buffers[b]) && b !in s.freeBuffers[1..]
  {
    var t := TakenBuffer(s);
    assert s.freeBuffers[0] in s.freeBuffers;
    forall x | x in s.blocks ensures Counted(t, x) {
      assert Counted(s, x);
    }
  }

  lemma GetElsewhere(s: Store, t: Store, u: Store, v: Store, b: nat)
    requires Elsewhere(s, t, {}) && Elsewhere(t, u, {}) && Elsewhere(u, v, {b})
    ensures Elsewhere(s, v, {b})
  {
  }

  function PutBack(s: Store, b: nat): Store
    requires b in s.buffers
  {
    s.(buffers := s.buffers[b := s.buffers[b].(backing := Nothing, size := 0)], freeBuffers := [b] + s.freeBuffers)
  }

  lemma PutElsewhere(s: Store, b: nat)
    requires b in s.buffers
    ensures Elsewhere(s, PutBack(s, b), {b})
  {
  }

  /** Handing a buffer back leaves its block, if it has one, with a reference too many. */
  lemma PutOwes(s: Store, b: nat)
    requires Ok(s) && b in s.buffers && b !in s.freeBuffers && s.buffers[b].pooled
    ensures Elsewhere(s, PutBack(s, b), {b})
    ensures if s.buffers[b].backing.Shared? then Owing(PutBack(s, b), s.buffers[b].backing.block) else Ok(PutBack(s, b))
  {
    hide Counted, Holders, Distinct, Elsewhere;
    PutElsewhere(s, b);
    assert Backed(s, s.buffers[b].backing);
    forall x | x in s.blocks
      ensures s.buffers[b].backing != Shared(x) ==> Counted(PutBack(s, b), x)
      ensures s.buffers[b].backing == Shared(x) ==> s.blocks[x].refs == |Holders(PutBack(s, b).buffers, x)| + 1
    {
      PutCounts(s, b, x);
    }
    DistinctMore(b, s.freeBuffers);
  }

  lemma DistinctMore(b: nat, s: seq<nat>)
    requires Distinct(s) && b !in s
    ensures Distinct([b] + s)
  {
  }

  lemma PutCounts(s: Store, b: nat, x: nat)
    requires b in s.buffers && x in s.blocks && Counted(s, x) && Backed(s, s.buffers[b].backing)
    ensures s.buffers[b].backing != Shared(x) ==> Counted(PutBack(s, b), x)
    ensures s.buffers[b].backing == Shared(x) ==> s.blocks[x].refs == |Holders(PutBack(s, b).buffers, x)| + 1
  {
    hide Holders;
    var w := PutBack(s, b).buffers[b];
    if s.buffers[b].backing == Shared(x) {
      HoldersLoss(s.buffers, b, w, x);
    } else {
      HoldersSame(s.buffers, b, w, x);
    }
  }

  lemma HoldersLoss(buffers: map<nat, Buffer>, b: nat, w: Buffer, id: nat)
    requires b in buffers && buffers[b].backing == Shared(id) && w.backing != Shared(id)
    ensures |Holders(buffers[b := w], id)| == |Holders(buffers, id)| - 1
  {
    assert Holders(buffers[b := w], id) == Holders(buffers, id) - {b};
  }

  /** In every reachable state a block in use counts exactly the buffers on it, and nobody is on a
      free one. */
  lemma CountFacts(s: Store, id: nat)
    requires Ok(s) && id in s.blocks
    ensures id in s.freeBlocks ==> Holders(s.buffers, id) == {}
    ensures id !in s.freeBlocks ==> s.blocks[id].refs == |Holders(s.buffers, id)| && Holders(s.buffers, id) != {}
  {
    assert Counted(s, id);
    if id in s.freeBlocks { NoHolders(s, id); }
  }
}
