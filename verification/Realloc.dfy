/** realloc: shrink in place, grow into top, grow into the next free chunk, or move. */
module Realloc {
  import opened Memory
  import opened Ring
  import opened Heap
  import opened HeapSteps
  import opened TopSteps
  import opened Census
  import opened Binmap
  import opened FreeSteps
  import opened AllocSteps
  import opened SystemSteps
  import opened Resize
  import opened Copying
  import opened Arena

  /** p is an open chunk, and its size word still says whether the chunk before it is free. */
  ghost predicate Opened(av: MallocState, p: int, size: int)
    reads av
  {
    && p in av.book.ch && av.book.ch[p].kind.Hole? && av.book.ch[p].size == size && Holes(av.book.ch) == {p}
    && !PrevHole(av.book.ch, p) && Succ(av.book.ch, p) in av.book.ch
    && At(av.mem, p + 4) % 2 == (if PrevFree(av.book.ch, p) then 0 else PREV_INUSE)
  }

  lemma OpenedFacts(m: Mem, fb: seq<int>, b: Book, p: int)
    requires Inv(m, fb, b) && p in b.ch && b.ch[p].kind.Hole? && Holes(b.ch) == {p} && Succ(b.ch, p) in b.ch
    ensures var n := Succ(b.ch, p);
            && n != p && !b.ch[n].kind.Hole?
               && At(m, n + 4) - At(m, n + 4) % 2 + PREV_INUSE == HeadSize(b.ch[n]) + PREV_INUSE
            && b.ch[p].size % 8 == 0 && MINSIZE <= b.ch[p].size && p % 8 == 0 && HEAP_BASE <= p
  {
    var n := Succ(b.ch, p);
    assert TileOk(b.ch, p) && TileOk(b.ch, n) && TagOk(m, b.ch, n);
    TransitNext(b, p, n);
    FlagBit(HeadSize(b.ch[n]));
  }

  lemma PayloadPlus(m: Mem, m': Mem, live: map<int, int>, p: int, size: int)
    requires SamePayload(m, m', live) && forall a :: p + 8 <= a < p + size + 4 ==> At(m', a) == At(m, a)
    ensures SamePayload(m, m', live[p := size])
  {
    var live' := live[p := size];
    forall q, a | q in live' && q + 8 <= a < q + live'[q] + 4
      ensures At(m', a) == At(m, a)
    {
      assert q != p ==> q in live;
    }
  }

  /** The stores of the two ends of realloc: close the chunk whole, or mark both halves in use. */
  function HalvesStores(m: Mem, p: int, size: int, nb: int): Mem {
    var rs := size - nb;
    var m1 := m[p + 4 := At(m, p + 4) % 2 + nb][p + nb + 4 := rs + PREV_INUSE];
    m1[p + size + 4 := At(m1, p + size + 4) - At(m1, p + size + 4) % 2 + PREV_INUSE]
  }

  lemma HalvesStored(m: Mem, fb: seq<int>, b: Book, p: int, nb: int)
    requires Inv(m, fb, b) && CanSplit(b.ch, p, nb) && Holes(b.ch) == {p} && !PrevHole(b.ch, p) && Succ(b.ch, p) in b.ch
    requires At(m, p + 4) % 2 == (if PrevFree(b.ch, p) then 0 else PREV_INUSE)
    ensures var m', live := HalvesStores(m, p, b.ch[p].size, nb), LivePart(b.ch);
            && Inv(m', fb, HalvesBook(b, p, nb)) && SamePayload(m, m', live[p := nb])
            && LivePart(HalvesBook(b, p, nb).ch) == live[p := nb][p + nb := b.ch[p].size - nb]
  {
    OpenedFacts(m, fb, b, p);
    var m' := HalvesStores(m, p, b.ch[p].size, nb);
    assert SameBut(m, m', {p + 4, p + nb + 4, Succ(b.ch, p) + 4});
    assert HalvesMarked(m', b.ch, p, nb);
    forall a | p + 8 <= a < p + nb + 4
      ensures At(m', a) == At(m, a)
    {
    }
    HalvesInv(m, m', fb, b, p, nb);
    PayloadPlus(m, m', LivePart(b.ch), p, nb);
  }

  /** Close the open chunk as it is. */
  method CloseWhole(av: MallocState, p: int, size: int)
    requires av.Working() && FlagOk(FastPart(av.book.ch), av.fastChunks) && Opened(av, p, size)
    modifies av`mem, av`book
    ensures av.Valid()
    ensures LivePart(av.book.ch) == old(LivePart(av.book.ch))[p := size]
    ensures SamePayload(old(av.mem), av.mem, LivePart(av.book.ch))
  {
    hide AnyLimits, FastLimits, Inv, MapOk, PartsOf, SamePayload, LivePart, FastPart, BinnedPart, Holes;
    hide Total, TopIs, PrevFree, PrevHole, FlagOk, Retag;
    ghost var m0, b0 := av.mem, av.book;
    OpenedFacts(av.mem, av.fastbins, av.book, p);
    HolesPart(av.book.ch);
    av.mem := av.mem[p + 4 := At(av.mem, p + 4) % 2 + size];
    av.mem := av.mem[p + size + 4 := At(av.mem, p + size + 4) - At(av.mem, p + size + 4) % 2 + PREV_INUSE];
    CloseWholeInv(m0, av.mem, av.fastbins, b0, p);
    RetagCensus(b0.ch, p, Live);
    CloseCensus(b0.ch, p);
    av.book := CloseBook(b0, p);
    HolesPart(av.book.ch);
  }

  /** Close the open chunk as two blocks in use. */
  method CloseHalves(av: MallocState, p: int, size: int, nb: int)
    requires av.Working() && FlagOk(FastPart(av.book.ch), av.fastChunks) && Opened(av, p, size)
    requires nb % 8 == 0 && MINSIZE <= nb && nb + MINSIZE <= size
    modifies av`mem, av`book
    ensures av.Valid() && 0 < p && p + nb !in old(LivePart(av.book.ch))[p := nb]
    ensures LivePart(av.book.ch) == old(LivePart(av.book.ch))[p := nb][p + nb := size - nb]
    ensures SamePayload(old(av.mem), av.mem, old(LivePart(av.book.ch))[p := nb])
  {
    hide AnyLimits, FastLimits, CanSplit, Inv, MapOk, PartsOf, SamePayload, LivePart, FastPart, BinnedPart, Holes;
    hide Total, TopIs, PrevFree, PrevHole, FlagOk, HalvesBook, Retag, HalvesStores;
    ghost var m0, b0 := av.mem, av.book;
    OpenedFacts(av.mem, av.fastbins, av.book, p);
    HolesPart(av.book.ch);
    av.mem := HalvesStores(av.mem, p, size, nb);
    SplitReady(b0.ch, p, nb);
    ListedOf(m0, av.fastbins, b0);
    HalvesStored(m0, av.fastbins, b0, p, nb);
    HalvesTotals(b0, p, nb, av.top);
    NotEmpty(b0.ch, p);
    av.book := HalvesBook(b0, p, nb);
    HolesPart(av.book.ch);
    RestNotLive(m0, av.fastbins, b0, p, nb);
  }

  /** Close the open chunk; if what exceeds nb is a chunk of its own, free it. */
  method Settle(av: MallocState, p: int, size: int, nb: int)
    requires av.Working() && FlagOk(FastPart(av.book.ch), av.fastChunks) && Opened(av, p, size)
    requires nb % 8 == 0 && MINSIZE <= nb <= size
    modifies av
    ensures av.Valid() && av.answers == old(av.answers)
    ensures LivePart(av.book.ch) == old(LivePart(av.book.ch))[p := if size - nb < MINSIZE then size else nb]
    ensures SamePayload(old(av.mem), av.mem, LivePart(av.book.ch))
  {
    hide Inv, MallocState.Working, MallocState.Valid, SamePayload, LivePart, FastPart, Opened, FlagOk;
    ghost var m0, live0 := av.mem, LivePart(av.book.ch);
    var remainderSize := size - nb;
    if remainderSize < MINSIZE {
      CloseWhole(av, p, size);
    } else {
      var remainder := p + nb;
      CloseHalves(av, p, size, nb);
      ghost var m1 := av.mem;
      AddedThenRemoved(live0[p := nb], remainder, remainderSize);
      av.Free(remainder + 8);
      KeepPayload(m0, m1, av.mem, live0[p := nb]);
    }
  }

  lemma RestNotLive(m: Mem, fb: seq<int>, b: Book, p: int, nb: int)
    requires Inv(m, fb, b) && CanSplit(b.ch, p, nb)
    ensures p + nb !in LivePart(b.ch)[p := nb]
  {
    SplitFacts(b.ch, p, nb);
  }

  // ---------------------------------------------------------------- the contents of a block

  /** The first n bytes of the block at p in m0 are those of the block at q in m1, word by word. */
  ghost predicate SameContents(m0: Mem, p: int, m1: Mem, q: int, n: int) {
    forall o {:trigger WordMoved(m0, p, m1, q, o)} :: 8 <= o < n + 4 && o % 4 == 0 ==> WordMoved(m0, p, m1, q, o)
  }

  function Min(x: int, y: int): int { if x < y then x else y }

  /** The block p has become q, of at least nb bytes and less than a minimal chunk more; its contents
      came along, as far as they fit, and every other block is as it was. */
  ghost predicate Resized(live0: map<int, int>, live1: map<int, int>, m0: Mem, m1: Mem, p: int, q: int, nb: int) {
    && p in live0 && q % 8 == 0 && q !in live0 - {p} && q in live1 && live1 == (live0 - {p})[q := live1[q]]
    && nb <= live1[q] < nb + MINSIZE
    && SameContents(m0, p, m1, q, Min(live0[p], live1[q]))
    && SamePayload(m0, m1, live0 - {p})
  }

  lemma ResizedInPlace(live0: map<int, int>, m0: Mem, m1: Mem, m2: Mem, p: int, nb: int, size: int)
    requires p in live0 && p % 8 == 0 && nb <= size < nb + MINSIZE
    requires m1 == m0 || SamePayload(m0, m1, live0)
    requires SamePayload(m1, m2, (live0 - {p})[p := size])
    ensures Resized(live0, (live0 - {p})[p := size], m0, m2, p, p, nb)
  {
    var live1, n := (live0 - {p})[p := size], Min(live0[p], size);
    forall o | 8 <= o < n + 4 && o % 4 == 0
      ensures WordMoved(m0, p, m2, p, o)
    {
      assert p in live0 && p in live1;
      assert At(m1, p + o) == At(m0, p + o);
    }
    forall q, a | q in live0 - {p} && q + 8 <= a < q + (live0 - {p})[q] + 4
      ensures At(m2, a) == At(m0, a)
    {
      assert q in live0 && q in live1;
      assert At(m1, a) == At(m0, a);
    }
  }

  // ---------------------------------------------------------------- in place

  /** A live chunk, opened where it stands. */
  method Open(av: MallocState, p: int)
    requires av.Settled() && p in av.book.ch && av.book.ch[p].kind.Live?
    modifies av`book
    ensures av.Working() && Opened(av, p, old(av.book.ch)[p].size)
    ensures LivePart(av.book.ch) == old(LivePart(av.book.ch)) - {p} && FastPart(av.book.ch) == old(FastPart(av.book.ch))
  {
    hide Inv, MapOk, PartsOf, LivePart, FastPart, BinnedPart, Holes, Total, TopIs, PrevFree, PrevHole, OpenBook;
    HeadBit(av.mem, av.fastbins, av.book, p);
    OpenNeighbours(av.mem, av.fastbins, av.book, p, p);
    HolesPart(av.book.ch);
    av.OpenChunk(p);
    HolesPart(av.book.ch);
    assert {} + {p} == {p};
  }

  lemma HeadBit(m: Mem, fb: seq<int>, b: Book, p: int)
    requires Inv(m, fb, b) && p in b.ch && b.ch[p].kind.Live? && Holes(b.ch) == {}
    ensures At(m, p + 4) % 2 == (if PrevFree(b.ch, p) then 0 else PREV_INUSE) && !PrevHole(b.ch, p)
    ensures At(m, p + 4) == b.ch[p].size + At(m, p + 4) % 2
    ensures b.ch[p].size % 8 == 0 && MINSIZE <= b.ch[p].size && p % 8 == 0 && HEAP_BASE <= p
    ensures p + b.ch[p].size in b.ch && !b.ch[p + b.ch[p].size].kind.Hole?
  {
    NoHoleBefore(b, p);
    assert TagOk(m, b.ch, p) && TileOk(b.ch, p);
    FlagBit(b.ch[p].size);
    NoHoleAfter(b, Succ(b.ch, p));
  }

  /** The block stays where it is and is at least as large as asked for. */
  method Shrink(av: MallocState, p: int, oldsize: int, nb: int)
    requires av.Settled() && FlagOk(FastPart(av.book.ch), av.fastChunks)
    requires p in av.book.ch && av.book.ch[p].kind.Live? && oldsize == av.book.ch[p].size && nb % 8 == 0
      && MINSIZE <= nb <= oldsize
    modifies av
    ensures av.answers == old(av.answers)
    ensures av.Valid()
    ensures Resized(old(LivePart(av.book.ch)), LivePart(av.book.ch), old(av.mem), av.mem, p, p, nb)
  {
    hide Inv, MallocState.Working, LivePart, FastPart, FlagOk, SamePayload, Resized, Opened;
    ghost var m0, live0 := av.mem, LivePart(av.book.ch);
    InvOf(av);
    HeadBit(av.mem, av.fastbins, av.book, p);
    LiveIs(av.book.ch, p);
    Open(av, p);
    Settle(av, p, oldsize, nb);
    ResizedInPlace(live0, m0, m0, av.mem, p, nb, if oldsize - nb < MINSIZE then oldsize else nb);
  }

  lemma LiveIs(ch: Chunks, p: int)
    requires p in ch && ch[p].kind.Live?
    ensures p in LivePart(ch) && LivePart(ch)[p] == ch[p].size
  {
  }

  /** Grow into top: the block takes the bytes it needs from the bottom of top. */
  method GrowIntoTop(av: MallocState, p: int, oldsize: int, nb: int)
    requires av.Settled() && FlagOk(FastPart(av.book.ch), av.fastChunks) && CanShift(av.book.ch, p, av.top, nb)
      && oldsize == av.book.ch[p].size
    modifies av`mem, av`book, av`top
    ensures av.Valid()
    ensures Resized(old(LivePart(av.book.ch)), LivePart(av.book.ch), old(av.mem), av.mem, p, p, nb)
  {
    hide Inv, MapOk, PartsOf, LivePart, FastPart, BinnedPart, Holes, Total, TopIs, FlagOk, ShiftCh, CanShift, Resized;
    hide SamePayload;
    ghost var m0, b0, live0, t := av.mem, av.book, LivePart(av.book.ch), av.top;
    ListedOf(av.mem, av.fastbins, av.book);
    ShiftReady(av.mem, av.fastbins, av.book, p, av.top, nb);
    TopRead(av.mem, av.fastbins, av.book, av.top);
    HolesPart(av.book.ch);
    ShiftTiled(av.book.ch, p, t, nb);
    ShiftCensus(av.book.ch, p, t, nb);
    ShiftParts(av.book.ch, p, t, nb);
    var newsize := oldsize + ChunkSize(At(av.mem, av.top + 4));
    av.mem := av.mem[p + 4 := At(av.mem, p + 4) % 2 + nb];
    av.top := p + nb;
    av.mem := av.mem[av.top + 4 := newsize - nb + PREV_INUSE];
    ShiftInv(m0, av.mem, av.fastbins, b0, p, t, nb);
    ShiftPayload(m0, av.mem, live0, p, oldsize, nb);
    av.book := b0.(ch := ShiftCh(b0.ch, p, t, nb));
    HolesPart(av.book.ch);
  }

  lemma ShiftReady(m: Mem, fb: seq<int>, b: Book, p: int, t: int, nb: int)
    requires Inv(m, fb, b) && CanShift(b.ch, p, t, nb) && Holes(b.ch) == {}
    ensures TopIs(b.ch, t) && p in b.ch && p % 8 == 0 && p in LivePart(b.ch)
      && LivePart(b.ch)[p] == b.ch[p].size < nb && t == p + b.ch[p].size
    ensures Tiled(b.ch) && MINSIZE <= b.ch[p].size
  {
    assert TileOk(b.ch, p);
  }

  lemma ShiftPayload(m0: Mem, m1: Mem, live0: map<int, int>, p: int, oldsize: int, nb: int)
    requires SamePayload(m0, m1, live0) && p in live0 && live0[p] == oldsize < nb && p % 8 == 0
    ensures Resized(live0, live0[p := nb], m0, m1, p, p, nb)
  {
    assert live0[p := nb] == (live0 - {p})[p := nb];
    forall o | 8 <= o < oldsize + 4 && o % 4 == 0
      ensures WordMoved(m0, p, m1, p, o)
    {
      assert p in live0;
    }
    forall q, a | q in live0 - {p} && q + 8 <= a < q + (live0 - {p})[q] + 4
      ensures At(m1, a) == At(m0, a)
    {
      assert q in live0;
    }
  }

  // ---------------------------------------------------------------- growing into the next chunk

  lemma MergeOpenReady(m: Mem, fb: seq<int>, b: Book, p: int, n: int)
    requires Inv(m, fb, b) && p in b.ch && b.ch[p].kind.Live? && n in b.ch && b.ch[n].kind.Hole?
      && n == p + b.ch[p].size && Holes(b.ch) == {n}
    ensures var ch1 := Retag(b.ch, p, Hole);
      Adjacent(ch1, p, n) && Tiled(ch1) && ch1[n] == b.ch[n] && ch1[p].size == b.ch[p].size
    ensures var ch2 := MergeCh(Retag(b.ch, p, Hole), p, n);
            && p in ch2 && ch2[p].kind.Hole? && ch2[p].size == b.ch[p].size + b.ch[n].size && Succ(ch2, p) in ch2
            && !PrevHole(ch2, p) && At(m, p + 4) % 2 == (if PrevFree(ch2, p) then 0 else PREV_INUSE)
  {
    assert TileOk(b.ch, p) && TileOk(b.ch, n) && TagOk(m, b.ch, p);
    OnlyHole(b.ch, n, p);
    FlagBit(b.ch[p].size);
    RetagTiled(b.ch, p, Hole);
    MergeFacts(Retag(b.ch, p, Hole), p, n);
  }

  /** The block p, still in use, and the open chunk n behind it become one open chunk. */
  ghost method MergeOpen(av: MallocState, p: int, n: int)
    requires av.Working() && p in av.book.ch && av.book.ch[p].kind.Live? && n in av.book.ch && av.book.ch[n].kind.Hole?
    requires n == p + av.book.ch[p].size && Holes(av.book.ch) == {n}
    modifies av`book
    ensures av.Working() && Opened(av, p, old(av.book.ch)[p].size + old(av.book.ch)[n].size)
    ensures LivePart(av.book.ch) == old(LivePart(av.book.ch)) - {p} && FastPart(av.book.ch) == old(FastPart(av.book.ch))
  {
    hide Inv, MallocState.Working, PartsOf, LivePart, FastPart, BinnedPart, Holes, Total, TopIs, PrevFree, PrevHole;
    hide MergeCh;
    InvOf(av);
    MergeOpenReady(av.mem, av.fastbins, av.book, p, n);
    HolesPart(av.book.ch);
    av.OpenChunk(p);
    HolesPart(av.book.ch);
    av.MergeChunks(p, n);
    HolesPart(av.book.ch);
    assert {n} + {p} - {n} == {p} by {
      assert p != n;
    }
  }

  /** The free chunk behind the block is unlinked and joined to it; what is too much goes back. */
  method GrowIntoNext(av: MallocState, p: int, oldsize: int, next: int, newsize: int, nb: int)
    requires av.Settled() && FlagOk(FastPart(av.book.ch), av.fastChunks)
    requires p in av.book.ch && av.book.ch[p].kind.Live? && oldsize == av.book.ch[p].size && next == p + oldsize
    requires next in av.book.ch && av.book.ch[next].kind.Binned? && newsize == oldsize + av.book.ch[next].size
    requires nb % 8 == 0 && MINSIZE <= nb <= newsize
    modifies av
    ensures av.answers == old(av.answers)
    ensures av.Valid()
    ensures Resized(old(LivePart(av.book.ch)), LivePart(av.book.ch), old(av.mem), av.mem, p, p, nb)
  {
    hide Inv, MallocState.Working, PartsOf, LivePart, FastPart, BinnedPart, Holes, Opened, SamePayload, Resized;
    hide TakeBook, FlagOk, FreeEnd, FreeTags;
    ghost var m0, b0, live0 := av.mem, av.book, LivePart(av.book.ch);
    InvOf(av);
    LiveIs(av.book.ch, p);
    HeadBit(av.mem, av.fastbins, av.book, p);
    HolesPart(av.book.ch);
    ghost var k := av.Unlink(next);
    TakeNeighbours(m0, av.fastbins, b0, b0.ch[next].kind.bin, k);
    HolesPart(av.book.ch);
    ghost var m1 := av.mem;
    assert {} + {next} == {next};
    MergeOpen(av, p, next);
    Settle(av, p, newsize, nb);
    ResizedInPlace(live0, m0, m1, av.mem, p, nb, if newsize - nb < MINSIZE then newsize else nb);
  }

  // ---------------------------------------------------------------- moving

  /** Once a block is in use, the state is initialised and nothing is in transit. */
  lemma InUseSettled(av: MallocState, p: int)
    requires av.Valid() && p in LivePart(av.book.ch)
    ensures av.Settled() && FlagOk(FastPart(av.book.ch), av.fastChunks) && Holes(av.book.ch) == {}
    ensures p in av.book.ch && av.book.ch[p].kind.Live? && LivePart(av.book.ch)[p] == av.book.ch[p].size
    ensures Inv(av.mem, av.fastbins, av.book)
  {
  }

  /** Two blocks in use do not overlap. */
  lemma BlocksApart(m: Mem, fb: seq<int>, b: Book, p: int, q: int)
    requires Inv(m, fb, b) && p in LivePart(b.ch) && q in LivePart(b.ch) && p != q
    ensures p + LivePart(b.ch)[p] <= q || q + LivePart(b.ch)[q] <= p
  {
    assert p < q ==> Before(b.ch, p, q);
    assert q < p ==> Before(b.ch, q, p);
  }

  lemma CopiedOwn(m: Mem, p: int, oldsize: int, q: int, newsize: int)
    requires oldsize % 8 == 0 && MINSIZE <= oldsize <= newsize && (p + oldsize <= q || q + newsize <= p)
    ensures var m', n := Copied(m, q + 8, p + 8, (oldsize - SIZE_SZ) / 4), oldsize;
            OwnStores(m, m', q, newsize) && SameContents(m, p, m', q, oldsize)
  {
    hide Copied, WordMoved, OwnStores;
    var n := (oldsize - SIZE_SZ) / 4;
    var m' := Copied(m, q + 8, p + 8, n);
    PayloadWords(oldsize);
    CopiedIs(m, q + 8, p + 8, n);
    CopiedInside(m, m', q, n, newsize);
    forall o | 8 <= o < oldsize + 4 && o % 4 == 0
      ensures WordMoved(m, p, m', q, o)
    {
      assert WordMoved(m, p + 8, m', q + 8, o - 8);
      MovedFrom(m, p, m', q, o);
    }
  }

  lemma PayloadWords(size: int)
    requires size % 8 == 0 && MINSIZE <= size
    ensures 4 * ((size - SIZE_SZ) / 4) == size - SIZE_SZ
  {
  }

  lemma CopiedInside(m: Mem, m': Mem, q: int, n: int, size: int)
    requires forall a {:trigger At(m', a)} :: !(q + 8 <= a < q + 8 + 4 * n) ==> At(m', a) == At(m, a)
    requires 4 * n + SIZE_SZ <= size
    ensures OwnStores(m, m', q, size)
  {
  }

  lemma MovedFrom(m: Mem, p: int, m': Mem, q: int, o: int)
    requires WordMoved(m, p + 8, m', q + 8, o - 8)
    ensures WordMoved(m, p, m', q, o)
  {
  }

  lemma ResizedByMove(live0: map<int, int>, live1: map<int, int>, m0: Mem, m1: Mem, m2: Mem, m3: Mem, p: int, q: int,
      nb: int)
    requires p in live0 && p != q && Taken(live0, live1, q, nb) && q % 8 == 0 && live0[p] <= live1[q]
    requires SamePayload(m0, m1, live0) && SamePayload(m1, m2, live1 - {q}) && SamePayload(m2, m3, live1 - {p})
    requires SameContents(m1, p, m2, q, live0[p])
    ensures Resized(live0, live1 - {p}, m0, m3, p, q, nb)
  {
    forall o | 8 <= o < live0[p] + 4 && o % 4 == 0
      ensures WordMoved(m0, p, m3, q, o)
    {
      assert p in live0 && q in live1 - {p};
      assert WordMoved(m1, p, m2, q, o);
      assert At(m3, q + o) == At(m2, q + o);
    }
    forall x, a | x in live0 - {p} && x + 8 <= a < x + (live0 - {p})[x] + 4
      ensures At(m3, a) == At(m0, a)
    {
      assert x in live0 && x in live1 - {q} && x in live1 - {p};
      assert At(m1, a) == At(m0, a);
      assert At(m2, a) == At(m1, a);
    }
    assert live1 - {p} == (live0 - {p})[q := live1[q]];
  }

  lemma AfterMAlloc(live0: map<int, int>, live1: map<int, int>, p: int, m: int, nb: int)
    requires p in live0 && Allocated(live0, live1, m, nb)
    ensures var q := m - 8;
            && q !in live0 && q in live1 && p != q && p in live1 && live1[p] == live0[p] && q % 8 == 0
            && nb <= live1[q] < nb + MINSIZE && Taken(live0, live1, q, nb)
            && live1 - {q} == live0
  {
  }

  /** The new block at q holds the words of the old one, which can go. */
  method CopyThenFree(av: MallocState, p: int, oldsize: int, q: int, newsize: int)
    requires av.Settled() && FlagOk(FastPart(av.book.ch), av.fastChunks)
    requires var live := LivePart(av.book.ch);
      p in live && q in live && p != q && live[p] == oldsize < newsize == live[q]
    modifies av
    ensures av.answers == old(av.answers)
    ensures av.Valid() && LivePart(av.book.ch) == old(LivePart(av.book.ch)) - {p}
    ensures exists m2: Mem ::
              && SamePayload(old(av.mem), m2, old(LivePart(av.book.ch)) - {q})
              && SameContents(old(av.mem), p, m2, q, oldsize)
              && SamePayload(m2, av.mem, LivePart(av.book.ch))
  {
    hide Inv, MapOk, PartsOf, LivePart, FastPart, BinnedPart, Holes, Total, TopIs, FlagOk, SamePayload, Copied;
    hide SameContents;
    ghost var m1 := av.mem;
    InUseSettled(av, p);
    InUseSettled(av, q);
    BlocksApart(av.mem, av.fastbins, av.book, p, q);
    HeadBit(av.mem, av.fastbins, av.book, p);
    CopiedOwn(m1, p, oldsize, q, newsize);
    var copysize := oldsize - SIZE_SZ;
    av.mem := CopyPayload(av.mem, q + 8, p + 8, copysize);
    OwnStoresInv(m1, av.mem, av.fastbins, av.book, q);
    NotEmpty(av.book.ch, p);
    av.Free(p + 8);
  }

  /** nb - 7 bytes may already be out of range; top never has as much. */
  lemma TooLarge(m: Mem, fb: seq<int>, b: Book, t: int, nb: int)
    requires Inv(m, fb, b)
    ensures TopServes(b.ch, t, nb) ==> nb - MALLOC_ALIGN_MASK < REQUEST_LIMIT
  {
    if TopServes(b.ch, t, nb) {
      assert TileOk(b.ch, t);
    }
  }

  /** What malloc has returned for nb bytes, asked for as such, or less the alignment bytes; that may already be out
      of range, and then it is null. */
  ghost predicate Mallocked(s0: Snapshot, fast: bool, head: int, s: Snapshot, nb: int, whole: bool, how: Outcome,
      m: int, a0: seq<Answer>, a1: seq<Answer>)
  {
    if !whole && nb - MALLOC_ALIGN_MASK >= REQUEST_LIMIT then m == 0 && a1 == a0
    else MallocResult(s0, fast, head, s, nb, how, m, a0, a1)
  }

  /** Allocate, copy, free; but if the new block lies right behind the old one, join them instead. */
  method Move(av: MallocState, p: int, oldsize: int, nb: int)
    returns (m: int, ghost newmem: int, ghost how: Outcome, ghost from: Snapshot)
    requires av.Valid() && p in LivePart(av.book.ch)
      && LivePart(av.book.ch)[p] == oldsize < nb <= ADDRESS_LIMIT - 24 && nb % 8 == 0
    modifies av
    ensures av.Valid()
    ensures m == 0 ==>
      LivePart(av.book.ch) == old(LivePart(av.book.ch)) && SamePayload(old(av.mem), av.mem, LivePart(av.book.ch))
    ensures m == 0 ==> !TopServes(av.book.ch, av.top, nb)
    ensures m != 0 ==> Resized(old(LivePart(av.book.ch)), LivePart(av.book.ch), old(av.mem), av.mem, p, m - 8, nb)
    ensures m == Moved(p + 8, oldsize, newmem)
    ensures Mallocked(old(av.Now()), old(av.fastChunks), old(av.ReadyHead(nb)), from, nb, false, how, newmem,
              old(av.answers), av.answers)
  {
    hide MallocResult, MallocState.FastServes, MallocState.ReadyHead;
    hide TopServes, Inv, MallocState.Valid, MallocState.Working, PartsOf, LivePart, FastPart, BinnedPart, Holes;
    hide FlagOk, SamePayload, SameContents, Resized, Taken, Allocated, Opened, Explained, SameFree, Request2Size;
    ghost var m0, live0 := av.mem, LivePart(av.book.ch);
    InUseSettled(av, p);
    HeadBit(av.mem, av.fastbins, av.book, p);
    PadsBack(nb);
    m, how, from := av.MAlloc(nb - MALLOC_ALIGN_MASK);
    newmem := m;
    if m == 0 {
      InUseSettled(av, p);
      TooLarge(av.mem, av.fastbins, av.book, av.top, nb);
      return;
    }
    ghost var m1, live1 := av.mem, LivePart(av.book.ch);
    var newp := m - 8;
    AfterMAlloc(live0, live1, p, m, nb);
    InUseSettled(av, newp);
    InUseSettled(av, p);
    HeadRead(av.mem, av.fastbins, av.book, newp);
    var newsize := ChunkSize(At(av.mem, newp + 4));
    if newp == p + oldsize {
      HolesPart(av.book.ch);
      av.OpenChunk(newp);
      HolesPart(av.book.ch);
      assert {} + {newp} == {newp};
      MergeOpen(av, p, newp);
      newsize := newsize + oldsize;
      Settle(av, p, newsize, nb);
      ResizedInPlace(live0, m0, m1, av.mem, p, nb, if newsize - nb < MINSIZE then newsize else nb);
      m := p + 8;
    } else {
      CopyThenFree(av, p, oldsize, newp, newsize);
      ghost var m2: Mem :| SamePayload(m1, m2, live1 - {newp}) && SameContents(m1, p, m2, newp, oldsize)
          && SamePayload(m2, av.mem, LivePart(av.book.ch));
      ResizedByMove(live0, live1, m0, m1, m2, av.mem, p, newp, nb);
    }
  }

  lemma NextKind(m: Mem, fb: seq<int>, b: Book, p: int, t: int)
    requires Inv(m, fb, b) && TopOk(m, b.ch, t) && Holes(b.ch) == {} && p in b.ch && b.ch[p].kind.Live?
    ensures TopIs(b.ch, t) && p + b.ch[p].size in b.ch
    ensures var n := p + b.ch[p].size;
            && ChunkSize(At(m, n + 4)) == HeadSize(b.ch[n])
            && (n != t ==> (At(m, n + HeadSize(b.ch[n]) + 4) % 2 == 0 <==> b.ch[n].kind.Binned?))
            && (b.ch[n].kind.Binned? || n == t ==> HeadSize(b.ch[n]) == b.ch[n].size)
  {
    AfterLive(m, fb, b, p);
    var n := p + b.ch[p].size;
    NoHoleAfter(b, n);
    HeadRead(m, fb, b, n);
    if n != t {
      if !b.ch[n].kind.Fence? {
        assert TileOk(b.ch, n);
        NoHoleAfter(b, Succ(b.ch, n));
      }
      NextInuse(m, fb, b, n);
    }
  }

  /** The block can get nb bytes where it is: it has them, or gets them from top or from a free chunk behind it. */
  ghost predicate InPlace(ch: Chunks, p: int, nb: int) {
    && p in ch
    && (ch[p].size >= nb
        || (Succ(ch, p) in ch && ch[Succ(ch, p)].kind.Top? && ch[p].size + ch[Succ(ch, p)].size >= nb + MINSIZE)
        || (Succ(ch, p) in ch && ch[Succ(ch, p)].kind.Binned? && ch[p].size + ch[Succ(ch, p)].size >= nb))
  }

  /** Where the block goes if malloc has returned newmem: nowhere; or, if newmem lies right behind it, it stays. */
  function Moved(oldmem: int, oldsize: int, newmem: int): int {
    if newmem == oldmem + oldsize then oldmem else newmem
  }

  /** rEALLOc. The block stays where it is exactly if it can, or if malloc returns the block behind it; otherwise it
      becomes what malloc returns. newmem, how and from are what malloc has returned, if it was called. A failed call
      leaves the old block and everything else as it was. */
  method ReAlloc(av: MallocState, oldmem: int, bytes: int)
    returns (m: int, ghost newmem: int, ghost how: Outcome, ghost from: Snapshot)
    requires av.Valid() && (oldmem == 0 || oldmem - 8 in LivePart(av.book.ch)) && 0 <= bytes < ADDRESS_LIMIT
    modifies av
    ensures av.Valid()
    ensures m == 0 ==>
      LivePart(av.book.ch) == old(LivePart(av.book.ch)) && SamePayload(old(av.mem), av.mem, LivePart(av.book.ch))
    ensures m == 0 && bytes < REQUEST_LIMIT ==> !TopServes(av.book.ch, av.top, Request2Size(bytes))
    ensures m == 0 && bytes < REQUEST_LIMIT && oldmem != 0 ==>
      old(LivePart(av.book.ch))[oldmem - 8] < Request2Size(bytes)
    ensures m != 0 ==> bytes < REQUEST_LIMIT
    ensures m != 0 && oldmem == 0 ==>
              Allocated(old(LivePart(av.book.ch)), LivePart(av.book.ch), m, Request2Size(bytes))
                && SamePayload(old(av.mem), av.mem, old(LivePart(av.book.ch)))
    ensures m != 0 && oldmem != 0 ==>
              Resized(old(LivePart(av.book.ch)), LivePart(av.book.ch), old(av.mem), av.mem, oldmem - 8, m - 8,
                Request2Size(bytes))
    ensures oldmem != 0 && bytes < REQUEST_LIMIT && InPlace(old(av.book.ch), oldmem - 8, Request2Size(bytes)) ==>
              m == oldmem && av.answers == old(av.answers)
    ensures oldmem != 0 && bytes < REQUEST_LIMIT && !InPlace(old(av.book.ch), oldmem - 8, Request2Size(bytes)) ==>
              m == Moved(oldmem, old(LivePart(av.book.ch))[oldmem - 8], newmem)
    ensures bytes < REQUEST_LIMIT && (oldmem == 0 || !InPlace(old(av.book.ch), oldmem - 8, Request2Size(bytes))) ==>
              (oldmem == 0 ==> m == newmem)
                && Mallocked(old(av.Now()), old(av.fastChunks), old(av.ReadyHead(Request2Size(bytes))), from,
                  Request2Size(bytes), oldmem == 0, how, newmem, old(av.answers), av.answers)
    ensures bytes >= REQUEST_LIMIT ==> m == 0 && av.answers == old(av.answers)
  {
    hide Inv, MallocState.Valid, MallocState.Working, LivePart, FastPart, Holes, TopIs, FlagOk, SamePayload, Resized;
    hide Allocated, Explained, SameFree, Request2Size, CanShift, TopServes, MallocResult, MallocState.FastServes;
    hide MallocState.ReadyHead;
    PayloadOfSame(av.mem, LivePart(av.book.ch));
    newmem, how, from := 0, Refused, av.Now();
    if oldmem == 0 {
      m, how, from := av.MAlloc(bytes);
      newmem := m;
      return;
    }
    if bytes >= REQUEST_LIMIT {
      return 0, 0, Refused, from;
    }
    PaddedSize(bytes);
    var nb := Request2Size(bytes);
    var oldp := oldmem - 8;
    InUseSettled(av, oldp);
    InvOf(av);
    HeadBit(av.mem, av.fastbins, av.book, oldp);
    HeadRead(av.mem, av.fastbins, av.book, oldp);
    var oldsize := ChunkSize(At(av.mem, oldp + 4));
    m := oldmem;
    if oldsize >= nb {
      Shrink(av, oldp, oldsize, nb);
    } else {
      var next := oldp + oldsize;
      NextKind(av.mem, av.fastbins, av.book, oldp, av.top);
      var nextsize := ChunkSize(At(av.mem, next + 4));
      if next == av.top && oldsize + nextsize >= nb + MINSIZE {
        CanShiftNow(av.book.ch, oldp, av.top, nb);
        GrowIntoTop(av, oldp, oldsize, nb);
      } else if next != av.top && At(av.mem, next + nextsize + 4) % 2 == 0 && oldsize + nextsize >= nb {
        GrowIntoNext(av, oldp, oldsize, next, oldsize + nextsize, nb);
      } else {
        m, newmem, how, from := Move(av, oldp, oldsize, nb);
      }
    }
  }

  lemma CanShiftNow(ch: Chunks, p: int, t: int, nb: int)
    requires TopIs(ch, t) && p in ch && ch[p].kind.Live? && p + ch[p].size == t && nb % 8 == 0 && ch[p].size < nb
    requires nb + MINSIZE <= ch[p].size + ch[t].size
    ensures CanShift(ch, p, t, nb)
  {
  }
}
