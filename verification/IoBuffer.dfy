/** Buffers with head and tail room over shared blocks, and the pool that recycles both. */
module IoBuffer {
  import opened Wire
  import opened BufferStore
  import opened BufferSpan

  /** The buffer shows the same bytes, every other buffer is untouched, and no buffer came or went. */
  ghost predicate SameBytes(s: Store, t: Store, b: nat)
    requires Live(s, b) && Fits(s, b)
  {
    && Live(t, b) && Fits(t, b) && Content(t, b) == Content(s, b)
    && Elsewhere(s, t, {b}) && t.buffers.Keys == s.buffers.Keys && t.freeBuffers == s.freeBuffers
  }

  predicate TooSmall(blocks: map<nat, Block>, id: nat, capacity: nat)
  {
    id in blocks && |blocks[id].bytes| < capacity
  }

  class Heap {
    const maxSize: nat
    var blocks: map<nat, Block>
    var regions: map<nat, seq<byte>>
    var buffers: map<nat, Buffer>
    var freeBlocks: seq<nat>
    var freeBuffers: seq<nat>
    var next: nat

    function Now(): Store
      reads this
    {
      Store(blocks, regions, buffers, freeBlocks, freeBuffers, next)
    }

    ghost predicate Valid()
      reads this
    {
      Ok(Now())
    }

    /** A buffer somebody owns: not one the pool keeps. */
    ghost predicate InUse(b: nat)
      reads this
    {
      Live(Now(), b) && b !in freeBuffers
    }

    constructor (maxSize: nat, regions: map<nat, seq<byte>>)
      ensures Valid() && this.maxSize == maxSize
      ensures Now() == Store(map[], regions, map[], [], [], 0)
    {
      this.maxSize, this.regions := maxSize, regions;
      blocks, buffers, freeBlocks, freeBuffers, next := map[], map[], [], [], 0;
    }

    // ---- blocks ----

    /** `shared_block::allocate`. */
    method Allocate(capacity: nat, pooled: bool) returns (id: nat)
      requires Valid()
      modifies `blocks, `next
      ensures Owing(Now(), id) && Elsewhere(old(Now()), Now(), {})
      ensures id == old(next) && blocks[id].refs == 1 && blocks[id].pooled == pooled && |blocks[id].bytes| == capacity
      ensures next == old(next) + 1 && blocks == old(blocks)[id := blocks[id]]
    {
      hide Ok, Owing, Elsewhere;
      var bytes: seq<byte> := seq(capacity, _ => 0);
      AllocateOwes(Now(), bytes, pooled);
      id := next;
      blocks := blocks[next := Block(bytes, 1, pooled)];
      next := next + 1;
    }

    /** `shared_block::release`, for a hold already given up. */
    method Release(id: nat)
      requires Owing(Now(), id)
      modifies `blocks, `freeBlocks
      ensures Valid() && Elsewhere(old(Now()), Now(), {})
      ensures id in old(blocks) && Now() == Released(old(Now()), id)
    {
      ReleaseSettles(Now(), id);
      hide Ok, Elsewhere;
      var block := blocks[id];
      if block.refs > 1 {
        blocks := blocks[id := block.(refs := block.refs - 1)];
      } else if block.pooled {
        blocks := blocks[id := block.(refs := 1)];
        freeBlocks := [id] + freeBlocks;
      } else {
        blocks := blocks - {id};
      }
    }

    // ---- making, copying, moving, dropping ----

    /** A new buffer on a block that owes its reference. */
    method Hold(id: nat, w: Buffer) returns (b: nat)
      requires Owing(Now(), id) && w.backing == Shared(id)
      modifies `buffers, `next
      ensures Valid() && Elsewhere(old(Now()), Now(), {})
      ensures b == old(next) && buffers == old(buffers)[b := w]
      ensures b !in old(buffers) && InUse(b)
    {
      hide Ok, Owing, Elsewhere;
      AttachNew(Now(), id, w);
      b := next;
      buffers := buffers[next := w];
      next := next + 1;
    }

    /** A new buffer on memory of the caller's, or on nothing. */
    method Wrap(w: Buffer) returns (b: nat)
      requires Valid() && !w.backing.Shared? && Backed(Now(), w.backing)
      modifies `buffers, `next
      ensures Valid() && Elsewhere(old(Now()), Now(), {})
      ensures b == old(next) && buffers == old(buffers)[b := w]
      ensures b !in old(buffers) && InUse(b)
    {
      hide Ok, Elsewhere;
      AddUnshared(Now(), w);
      b := next;
      buffers := buffers[next := w];
      next := next + 1;
    }

    /** `make_raw`: the caller answers for the window. */
    method MakeRaw(region: nat, offset: nat, size: nat) returns (b: nat)
      requires Valid() && region in regions
      modifies `buffers, `next
      ensures Valid() && Elsewhere(old(Now()), Now(), {})
      ensures InUse(b) && b !in old(buffers) && buffers == old(buffers)[b := Buffer(Raw(region), offset, size, false)]
      ensures Fits(Now(), b) <==> offset + size <= |regions[region]|
    {
      hide Ok, Elsewhere;
      b := Wrap(Buffer(Raw(region), offset, size, false));
    }

    /** `make_shared`. */
    method MakeShared(capacity: nat) returns (b: nat)
      requires Valid()
      modifies `blocks, `buffers, `next
      ensures Valid() && Elsewhere(old(Now()), Now(), {})
      ensures InUse(b) && b !in old(buffers) && buffers.Keys == old(buffers).Keys + {b}
      ensures buffers[b].backing.Shared? && buffers[b] == Buffer(buffers[b].backing, 0, 0, false)
      ensures blocks[buffers[b].backing.block].refs == 1 && Capacity(Now(), b) == capacity
    {
      hide Ok, Owing, Elsewhere;
      ghost var s := Now();
      var id := Allocate(capacity, false);
      ghost var t := Now();
      b := Hold(id, Buffer(Shared(id), 0, 0, false));
      ElsewhereThen(s, t, Now());
    }

    /** Write into a block nobody else holds, and set the window there. */
    method Fill(b: nat, offset: nat, data: seq<byte>)
      requires Valid() && InUse(b) && buffers[b].backing.Shared? && blocks[buffers[b].backing.block].refs == 1
      requires offset + |data| <= Capacity(Now(), b)
      modifies `blocks, `buffers
      ensures Valid() && Elsewhere(old(Now()), Now(), {b}) && InUse(b)
      ensures buffers == old(buffers)[b := old(buffers)[b].(offset := offset, size := |data|)]
      ensures Capacity(Now(), b) == old(Capacity(Now(), b)) && Fits(Now(), b) && Content(Now(), b) == data
      ensures blocks[buffers[b].backing.block].refs == 1
    {
      hide Ok, Elsewhere;
      ghost var s := Now();
      var id := buffers[b].backing.block;
      FillKeeps(s, b, Overwrite(blocks[id].bytes, offset, data));
      blocks := blocks[id := blocks[id].(bytes := Overwrite(blocks[id].bytes, offset, data))];
      ghost var t := Now();
      WindowKeeps(t, b, buffers[b].(offset := offset, size := |data|));
      buffers := buffers[b := buffers[b].(offset := offset, size := |data|)];
      ElsewhereTrans(s, t, Now(), {b}, {b});
      assert {b} + {b} == {b};
    }

    /** `make_shared` with data: refused exactly when the data would not fit. */
    method MakeSharedWith(capacity: nat, data: seq<byte>, offset: nat) returns (r: Option<nat>)
      requires Valid()
      modifies `blocks, `buffers, `next
      ensures Valid() && Elsewhere(old(Now()), Now(), {})
      ensures r.None? <==> offset + |data| > capacity
      ensures r.None? ==> Now() == old(Now())
      ensures r.Some? ==>
                && InUse(r.value) && r.value !in old(buffers) && Capacity(Now(), r.value) == capacity
                && Fits(Now(), r.value) && Content(Now(), r.value) == data && HeadRoom(Now(), r.value) == offset
    {
      hide Ok, Elsewhere;
      ghost var s := Now();
      ElsewhereSelf(s);
      if offset + |data| > capacity { return None; }
      var b := MakeShared(capacity);
      ghost var t := Now();
      Fill(b, offset, data);
      ElsewhereTrans(s, t, Now(), {}, {b});
      ElsewhereDrop(s, Now(), {} + {b}, b);
      assert {} + {b} - {b} == {};
      return Some(b);
    }

    /** The copy constructor: one more holder of the same bytes, outside the pool. */
    method Copy(b: nat) returns (c: nat)
      requires Valid() && InUse(b)
      modifies `blocks, `buffers, `next
      ensures Valid() && Elsewhere(old(Now()), Now(), {})
      ensures InUse(c) && c !in old(buffers) && buffers == old(buffers)[c := old(buffers)[b].(pooled := false)]
    {
      hide Ok, Owing, Elsewhere;
      ghost var s := Now();
      var w := buffers[b].(pooled := false);
      if w.backing.Shared? {
        var id := w.backing.block;
        AddRefOwes(s, id);
        blocks := blocks[id := blocks[id].(refs := blocks[id].refs + 1)];
        ghost var t := Now();
        c := Hold(id, w);
        ElsewhereThen(s, t, Now());
      } else {
        c := Wrap(w);
      }
    }

    /** The destructor: a block loses a holder, and the last holder frees it. */
    method Destroy(b: nat)
      requires Valid() && InUse(b)
      modifies `blocks, `buffers, `freeBlocks
      ensures Valid() && Elsewhere(old(Now()), Now(), {b})
      ensures buffers == old(buffers) - {b}
      ensures Now() == if old(buffers)[b].backing.Shared?
                       then Released(Dropped(old(Now()), b), old(buffers)[b].backing.block) else Dropped(old(Now()), b)
    {
      hide Ok, Owing, Elsewhere, Released;
      ghost var s := Now();
      var backing := buffers[b].backing;
      if backing.Shared? { DropShared(s, b); } else { DropUnshared(s, b); }
      buffers := buffers - {b};
      if backing.Shared? {
        ghost var t := Now();
        Release(backing.block);
        ElsewhereTrans(s, t, Now(), {b}, {});
        assert {b} + {} == {b};
      }
    }

    /** `swap`: all members, the pool pointer included. */
    method Swap(a: nat, b: nat)
      requires Valid() && InUse(a) && InUse(b) && a != b
      modifies `buffers
      ensures Valid() && Elsewhere(old(Now()), Now(), {a, b}) && Now() == Swapped(old(Now()), a, b)
    {
      hide Ok, Elsewhere;
      SwapKeeps(Now(), a, b);
      buffers := buffers[a := buffers[b]][b := buffers[a]];
    }

    /** The move constructor: the hold changes hands and the source is left empty. */
    method Move(b: nat) returns (c: nat)
      requires Valid() && InUse(b)
      modifies `buffers, `next
      ensures Valid() && Elsewhere(old(Now()), Now(), {b}) && blocks == old(blocks)
      ensures InUse(c) && c !in old(buffers) && InUse(b)
      ensures buffers == old(buffers)[b := Buffer(Nothing, 0, 0, old(buffers)[b].pooled)][c := old(buffers)[b].(pooled := false)]
    {
      hide Ok, Elsewhere;
      ghost var s := Now();
      var w := buffers[b];
      c := Wrap(Buffer(Nothing, 0, 0, w.pooled));
      ghost var t := Now();
      Swap(b, c);
      ghost var u := Now();
      WindowKeeps(u, c, w.(pooled := false));
      buffers := buffers[c := w.(pooled := false)];
      MoveElsewhere(s, t, u, Now(), b, c);
    }

    // ---- growing ----

    /** How `ensure_shared`, `reshape`, `prepare_front` and `prepare_back` grow: a new block takes
        over the bytes, and the old hold is given up through the temporary. */
    method Grow(b: nat, capacity: nat, offset: nat)
      requires Valid() && InUse(b) && Fits(Now(), b) && offset + buffers[b].size <= capacity
      modifies `blocks, `buffers, `next, `freeBlocks
      ensures Valid() && SameBytes(old(Now()), Now(), b)
      ensures Capacity(Now(), b) == capacity && buffers[b].offset == offset && buffers[b].backing.Shared? && !buffers[b].pooled
    {
      hide Ok, Elsewhere, Released;
      ghost var s := Now();
      var data := Content(Now(), b);
      var t := MakeShared(capacity);
      ghost var s1 := Now();
      Fill(t, offset, data);
      ghost var s2 := Now();
      GrowElsewhere(s, s1, s2, b, t);
      Swap(b, t);
      ghost var s3 := Now();
      Destroy(t);
      GrowDone(s, s2, s3, Now(), b, t);
    }

    /** `clone`: a buffer of its own with the same bytes at the same place. */
    method Clone(b: nat) returns (c: nat)
      requires Valid() && InUse(b) && Fits(Now(), b)
      modifies `blocks, `buffers, `next
      ensures Valid() && Elsewhere(old(Now()), Now(), {})
      ensures InUse(c) && c !in old(buffers) && Fits(Now(), c) && Capacity(Now(), c) == old(Capacity(Now(), b))
      ensures Content(Now(), c) == old(Content(Now(), b)) && HeadRoom(Now(), c) == old(HeadRoom(Now(), b))
      ensures buffers[c].backing.Shared? && blocks[buffers[c].backing.block].refs == 1
    {
      hide Ok, Elsewhere;
      ghost var s := Now();
      var data, offset, capacity := Content(Now(), b), buffers[b].offset, Capacity(Now(), b);
      c := MakeShared(capacity);
      ghost var t := Now();
      Fill(c, offset, data);
      ElsewhereTrans(s, t, Now(), {}, {c});
      ElsewhereDrop(s, Now(), {} + {c}, c);
      assert {} + {c} - {c} == {};
    }

    /** `ensure_shared`. */
    method EnsureShared(b: nat, required: nat)
      requires Valid() && InUse(b) && Fits(Now(), b)
      modifies `blocks, `buffers, `next, `freeBlocks
      ensures Valid() && SameBytes(old(Now()), Now(), b)
      ensures Capacity(Now(), b) >= required && HeadRoom(Now(), b) == old(HeadRoom(Now(), b))
    {
      hide Ok, Elsewhere;
      ElsewhereSame(Now(), b);
      if Capacity(Now(), b) < required { Grow(b, required, buffers[b].offset); }
    }

    /** `reshape`: moves the bytes in place only when nobody else holds the block. */
    method Reshape(b: nat, head: nat, tail: nat)
      requires Valid() && InUse(b) && Fits(Now(), b)
      modifies `blocks, `buffers, `next, `freeBlocks
      ensures Valid() && SameBytes(old(Now()), Now(), b)
      ensures HeadRoom(Now(), b) == head && TailRoom(Now(), b) >= tail
    {
      hide Ok, Elsewhere;
      var required := head + tail + buffers[b].size;
      if Capacity(Now(), b) >= required && buffers[b].backing.Shared? && blocks[buffers[b].backing.block].refs == 1 {
        Fill(b, head, Content(Now(), b));
      } else {
        Grow(b, required, head);
      }
    }

    /** `prepare_front`: where the caller may write `n` bytes before the content. */
    method PrepareFront(b: nat, n: nat) returns (at: nat)
      requires Valid() && InUse(b) && Fits(Now(), b)
      modifies `blocks, `buffers, `next, `freeBlocks
      ensures Valid() && SameBytes(old(Now()), Now(), b)
      ensures HeadRoom(Now(), b) >= n && at == HeadRoom(Now(), b) - n
      ensures TailRoom(Now(), b) == old(TailRoom(Now(), b))
      ensures n <= old(HeadRoom(Now(), b)) ==> Now() == old(Now())
    {
      hide Ok, Elsewhere;
      ElsewhereSame(Now(), b);
      if buffers[b].offset < n { Grow(b, Capacity(Now(), b) + (n - buffers[b].offset), n); }
      at := buffers[b].offset - n;
    }

    /** `prepare_back`: where the caller may write `n` bytes after it. */
    method PrepareBack(b: nat, n: nat) returns (at: nat)
      requires Valid() && InUse(b) && Fits(Now(), b)
      modifies `blocks, `buffers, `next, `freeBlocks
      ensures Valid() && SameBytes(old(Now()), Now(), b)
      ensures TailRoom(Now(), b) >= n && at == HeadRoom(Now(), b) + buffers[b].size
      ensures HeadRoom(Now(), b) == old(HeadRoom(Now(), b))
      ensures n <= old(TailRoom(Now(), b)) ==> Now() == old(Now())
    {
      hide Ok, Elsewhere;
      ElsewhereSame(Now(), b);
      if TailRoom(Now(), b) < n { Grow(b, Capacity(Now(), b) + (n - TailRoom(Now(), b)), buffers[b].offset); }
      at := buffers[b].offset + buffers[b].size;
    }

    /** The caller writes into a span that `prepare_front` or `prepare_back` returned: nothing tells it
        whether the block is shared. `BufferSpan.SpanIsPrivate` says what that does to others. */
    method Write(b: nat, at: nat, data: seq<byte>)
      requires Valid() && InUse(b) && at + |data| <= Capacity(Now(), b)
      modifies `blocks, `regions
      ensures Valid() && InUse(b) && Now() == WrittenThrough(old(Now()), b, at, data)
    {
      hide Ok;
      WriteKeeps(Now(), b, at, data);
      match buffers[b].backing
      case Nothing =>
      case Raw(m) => regions := regions[m := Overwrite(regions[m], at, data)];
      case Shared(id) => blocks := blocks[id := blocks[id].(bytes := Overwrite(blocks[id].bytes, at, data))];
    }

    // ---- moving the ends of the window ----

    method SetWindow(b: nat, offset: nat, size: nat)
      requires Valid() && InUse(b)
      modifies `buffers
      ensures Valid() && Elsewhere(old(Now()), Now(), {b}) && InUse(b)
      ensures buffers == old(buffers)[b := old(buffers)[b].(offset := offset, size := size)]
    {
      hide Ok, Elsewhere;
      WindowKeeps(Now(), b, buffers[b].(offset := offset, size := size));
      buffers := buffers[b := buffers[b].(offset := offset, size := size)];
    }

    /** `commit_front`: the content grows by what stands before it. */
    method CommitFront(b: nat, n: nat) returns (ok: bool)
      requires Valid() && InUse(b) && Fits(Now(), b)
      modifies `buffers
      ensures Valid() && InUse(b) && Fits(Now(), b) && Elsewhere(old(Now()), Now(), {b})
      ensures ok <==> n <= old(HeadRoom(Now(), b))
      ensures !ok ==> Now() == old(Now())
      ensures buffers[b].backing == old(buffers)[b].backing
      ensures ok ==> HeadRoom(Now(), b) == old(HeadRoom(Now(), b)) - n && TailRoom(Now(), b) == old(TailRoom(Now(), b))
                     && |Content(Now(), b)| == n + |old(Content(Now(), b))| && Content(Now(), b)[n..] == old(Content(Now(), b))
    {
      hide Ok, Elsewhere;
      ElsewhereSame(Now(), b);
      ok := n <= buffers[b].offset;
      if ok { SetWindow(b, buffers[b].offset - n, buffers[b].size + n); }
    }

    /** `consume_front`. */
    method ConsumeFront(b: nat, n: nat) returns (ok: bool)
      requires Valid() && InUse(b) && Fits(Now(), b)
      modifies `buffers
      ensures Valid() && InUse(b) && Fits(Now(), b) && Elsewhere(old(Now()), Now(), {b})
      ensures ok <==> n <= |old(Content(Now(), b))|
      ensures !ok ==> Now() == old(Now())
      ensures buffers[b].backing == old(buffers)[b].backing
      ensures ok ==> HeadRoom(Now(), b) == old(HeadRoom(Now(), b)) + n && TailRoom(Now(), b) == old(TailRoom(Now(), b))
                     && Content(Now(), b) == old(Content(Now(), b))[n..]
    {
      hide Ok, Elsewhere;
      ElsewhereSame(Now(), b);
      ok := n <= buffers[b].size;
      if ok { SetWindow(b, buffers[b].offset + n, buffers[b].size - n); }
    }

    /** `commit_back`: the content grows by what stands after it. */
    method CommitBack(b: nat, n: nat) returns (ok: bool)
      requires Valid() && InUse(b) && Fits(Now(), b)
      modifies `buffers
      ensures Valid() && InUse(b) && Fits(Now(), b) && Elsewhere(old(Now()), Now(), {b})
      ensures ok <==> n <= old(TailRoom(Now(), b))
      ensures !ok ==> Now() == old(Now())
      ensures buffers[b].backing == old(buffers)[b].backing
      ensures ok ==> HeadRoom(Now(), b) == old(HeadRoom(Now(), b)) && TailRoom(Now(), b) == old(TailRoom(Now(), b)) - n
                     && old(Content(Now(), b)) <= Content(Now(), b) && |Content(Now(), b)| == |old(Content(Now(), b))| + n
    {
      hide Ok, Elsewhere;
      ElsewhereSame(Now(), b);
      ok := n <= TailRoom(Now(), b);
      if ok { SetWindow(b, buffers[b].offset, buffers[b].size + n); }
    }

    /** `consume_back`. */
    method ConsumeBack(b: nat, n: nat) returns (ok: bool)
      requires Valid() && InUse(b) && Fits(Now(), b)
      modifies `buffers
      ensures Valid() && InUse(b) && Fits(Now(), b) && Elsewhere(old(Now()), Now(), {b})
      ensures ok <==> n <= |old(Content(Now(), b))|
      ensures !ok ==> Now() == old(Now())
      ensures buffers[b].backing == old(buffers)[b].backing
      ensures ok ==> HeadRoom(Now(), b) == old(HeadRoom(Now(), b)) && TailRoom(Now(), b) == old(TailRoom(Now(), b)) + n
                     && Content(Now(), b) == old(Content(Now(), b))[..|old(Content(Now(), b))| - n]
    {
      hide Ok, Elsewhere;
      ElsewhereSame(Now(), b);
      ok := n <= buffers[b].size;
      if ok { CutBack(Bytes(Now(), buffers[b].backing), buffers[b].offset, buffers[b].size, n); }
      if ok { SetWindow(b, buffers[b].offset, buffers[b].size - n); }
    }

    // ---- the pool ----

    /** `get_block`: the first free block large enough, or a new one. */
    method GetBlock(capacity: nat) returns (id: nat)
      requires Valid()
      modifies `blocks, `freeBlocks, `next
      ensures Owing(Now(), id) && Elsewhere(old(Now()), Now(), {})
      ensures |blocks[id].bytes| >= capacity && blocks[id].pooled && buffers == old(buffers)
      ensures id in old(freeBlocks) ==>
                exists i :: 0 <= i < |old(freeBlocks)| && old(freeBlocks)[i] == id
                  && freeBlocks == old(freeBlocks)[..i] + old(freeBlocks)[i + 1..]
                  && forall j :: 0 <= j < i ==> TooSmall(old(blocks), old(freeBlocks)[j], capacity)
      ensures id !in old(freeBlocks) ==>
                freeBlocks == old(freeBlocks) && forall x :: x in freeBlocks ==> TooSmall(blocks, x, capacity)
    {
      hide Elsewhere, Owing;
      for i := 0 to |freeBlocks|
        invariant forall j :: 0 <= j < i ==> TooSmall(blocks, freeBlocks[j], capacity)
        invariant Now() == old(Now())
      {
        id := freeBlocks[i];
        if |blocks[id].bytes| >= capacity {
          TakeOwes(Now(), i);
          FreeIsPooled(Now(), id);
          assert id in freeBlocks;
          blocks := blocks[id := blocks[id].(refs := 1)];
          freeBlocks := freeBlocks[..i] + freeBlocks[i + 1..];
          return;
        }
      }
      assert next !in freeBlocks;
      forall x | x in freeBlocks ensures TooSmall(blocks, x, capacity) {
        var j :| 0 <= j < |freeBlocks| && freeBlocks[j] == x;
      }
      id := Allocate(capacity, true);
    }

    /** `io_buffer_pool::get`. What it returns fits its storage unless no room was asked for and a
        recycled buffer still carries the head room of its former use. */
    method Get(head: nat, tail: nat) returns (b: nat)
      requires Valid()
      modifies `blocks, `freeBlocks, `freeBuffers, `buffers, `next
      ensures Valid() && InUse(b) && Elsewhere(old(Now()), Now(), {b})
      ensures old(freeBuffers) != [] ==> b == old(freeBuffers)[0] && freeBuffers == old(freeBuffers)[1..]
      ensures old(freeBuffers) == [] ==> b !in old(buffers) && freeBuffers == []
      ensures buffers[b].size == 0
      ensures head + tail > 0 ==>
                Fits(Now(), b) && HeadRoom(Now(), b) == head && TailRoom(Now(), b) >= tail && buffers[b].pooled
      ensures Fits(Now(), b) <==>
                || head + tail > 0 || old(freeBuffers) == []
                || (old(freeBuffers)[0] in old(buffers) && old(buffers)[old(freeBuffers)[0]].offset == 0)
    {
      hide Ok, Elsewhere, Owing;
      ghost var s := Now();
      if freeBuffers != [] {
        b := freeBuffers[0];
        TakeBuffer(s);
        freeBuffers := freeBuffers[1..];
      } else {
        b := Wrap(Buffer(Nothing, 0, 0, false));
      }
      ghost var t := Now();
      if head + tail == 0 {
        ElsewhereMore(s, t, b);
        return;
      }
      var id := GetBlock(head + tail);
      ghost var u := Now();
      AttachTo(u, id, b, Buffer(Shared(id), head, 0, true));
      buffers := buffers[b := Buffer(Shared(id), head, 0, true)];
      GetElsewhere(s, t, u, Now(), b);
      LiveOk(Now(), b);
    }

    /** `io_buffer_pool::put`: keep the buffer for reuse if it is the pool's and there is room, else
        destroy it; either way its hold on the block is given up. */
    method Put(b: nat)
      requires Valid() && InUse(b)
      modifies `blocks, `freeBlocks, `freeBuffers, `buffers
      ensures Valid() && Elsewhere(old(Now()), Now(), {b})
      ensures if |old(freeBuffers)| < maxSize && old(buffers)[b].pooled then
                && freeBuffers == [b] + old(freeBuffers) && b in buffers && Idle(buffers[b])
                && buffers[b].offset == old(buffers)[b].offset
              else b !in buffers && freeBuffers == old(freeBuffers)
    {
      hide Ok, Elsewhere, Owing, Released;
      ghost var s := Now();
      if |freeBuffers| >= maxSize || !buffers[b].pooled {
        Destroy(b);
        return;
      }
      var backing := buffers[b].backing;
      PutOwes(s, b);
      buffers := buffers[b := buffers[b].(backing := Nothing, size := 0)];
      freeBuffers := [b] + freeBuffers;
      if backing.Shared? {
        ghost var t := Now();
        Release(backing.block);
        ElsewhereTrans(s, t, Now(), {b}, {});
        assert {b} + {} == {b};
      }
    }
  }

  /** The one case `Get` excludes: a recycled buffer asked for no room points past its storage. */
  method RecycledMisfit() returns (heap: Heap, b: nat)
    ensures heap.Valid() && heap.InUse(b) && !Fits(heap.Now(), b)
  {
    heap := new Heap(1, map[]);
    var first := heap.Get(64, 1024);
    heap.Put(first);
    b := heap.Get(0, 0);
  }

  /** A prepared span is not always the caller's own: after a copy and `consume_front`, the byte that
      `prepare_front` gives back is still part of the copy. */
  method SharedSpan() returns (heap: Heap, c: nat)
    ensures heap.Valid() && heap.InUse(c) && Fits(heap.Now(), c) && Content(heap.Now(), c) == [9, 2]
  {
    hide Ok, Elsewhere, Overwrite;
    heap := new Heap(1, map[]);
    var made := heap.MakeSharedWith(4, [1, 2], 0);
    var b := made.value;
    ghost var s := heap.Now();
    c := heap.Copy(b);
    ghost var t := heap.Now();
    ElsewhereAt(s, t, {}, b);
    var ok := heap.ConsumeFront(b, 1);
    ElsewhereAt(t, heap.Now(), {b}, c);
    var at := heap.PrepareFront(b, 1);
    ghost var u, bytes := heap.Now(), Bytes(t, t.buffers[b].backing);
    heap.Write(b, at, [9]);
    StillLive(u, b, at, [9], c);
    assert t.buffers[c].offset == 0 && t.buffers[c].size == |Content(s, b)| == 2 && at == 0;
    assert Content(s, b) == bytes[0..2];
    FirstOverwritten(bytes);
    assert Content(heap.Now(), c) == Overwrite(bytes, 0, [9])[0..2];
  }

  lemma FirstOverwritten(bytes: seq<byte>)
    requires |bytes| >= 2 && bytes[0..2] == [1, 2]
    ensures Overwrite(bytes, 0, [9])[0..2] == [9, 2]
  {
    assert bytes[1] == bytes[0..2][1];
  }
}
