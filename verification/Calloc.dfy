/** Clearing words: MALLOC_ZERO, and calloc with its unrolled clear of small blocks. */
module Calloc {
  import opened Memory
  import opened Heap
  import opened HeapSteps
  import opened TopSteps
  import opened Census
  import opened FreeSteps
  import opened AllocSteps
  import opened SystemSteps
  import opened Resize
  import opened Realloc
  import opened Arena

  // ---------------------------------------------------------------- clearing words

  /** n words cleared one by one, lowest address first. */
  function Zeroed(m: Mem, d: int, n: nat): Mem {
    if n == 0 then m else Zeroed(m, d, n - 1)[d + 4 * (n - 1) := 0]
  }

  /** Every word from lo up to hi is zero. */
  ghost predicate AllZero(m: Mem, lo: int, hi: int) {
    forall a {:trigger At(m, a)} :: lo <= a < hi && (a - lo) % 4 == 0 ==> At(m, a) == 0
  }

  /** Exactly those words are cleared. */
  lemma {:induction false} ZeroedIs(m: Mem, d: int, n: nat)
    ensures AllZero(Zeroed(m, d, n), d, d + 4 * n)
    ensures forall a {:trigger At(Zeroed(m, d, n), a)} :: !(d <= a < d + 4 * n) ==>
      At(Zeroed(m, d, n), a) == At(m, a)
  {
    if n > 0 {
      ZeroedIs(m, d, n - 1);
      var m1, m2 := Zeroed(m, d, n - 1), Zeroed(m, d, n);
      forall a | d <= a < d + 4 * n && (a - d) % 4 == 0
        ensures At(m2, a) == 0
      {
        assert a < d + 4 * (n - 1) ==> At(m1, a) == 0;
      }
      forall a | !(d <= a < d + 4 * n)
        ensures At(m2, a) == At(m, a)
      {
        assert At(m1, a) == At(m, a);
      }
    }
  }

  /** The interleaved switch and loop, as in MALLOC_COPY: asked for no word, it clears eight. */
  method MallocZero(m0: Mem, dest: int, nbytes: nat) returns (m: Mem)
    ensures m == Zeroed(m0, dest, if nbytes < 4 then 8 else nbytes / 4)
  {
    var mctmp := nbytes / 4;
    ghost var n := if mctmp == 0 then 8 else mctmp;
    var mcn;
    if mctmp < 8 {
      mcn := 0;
    } else {
      mcn := (mctmp - 1) / 8;
      mctmp := mctmp % 8;
    }
    var todo := if mctmp == 0 then 8 else mctmp;
    var done: nat := 0;
    m := m0;
    while true
      invariant todo >= 0 && mcn >= 0 && m == Zeroed(m0, dest, done) && done + todo + 8 * mcn == n
      decreases mcn
    {
      ghost var end := done + todo;
      while todo > 0
        invariant todo >= 0 && done + todo == end && m == Zeroed(m0, dest, done)
      {
        m := m[dest + 4 * done := 0];
        done := done + 1;
        todo := todo - 1;
      }
      if mcn <= 0 {
        break;
      }
      mcn := mcn - 1;
      todo := 8;
    }
  }

  /** calloc's own clear: unrolled for up to nine words, of which there is always an odd number. */
  method ClearPayload(m0: Mem, d: int, clearsize: nat) returns (m: Mem)
    requires clearsize % 8 == 4 && clearsize >= 12
    ensures m == Zeroed(m0, d, clearsize / 4)
  {
    var nclears := clearsize / 4;
    if nclears > 9 {
      m := MallocZero(m0, d, clearsize);
    } else {
      m := m0[d := 0][d + 4 := 0][d + 8 := 0];
      ThreeZeroed(m0, d);
      if nclears > 4 {
        m := m[d + 12 := 0][d + 16 := 0];
        MoreZeroed(m0, d, 3);
        if nclears > 6 {
          m := m[d + 20 := 0][d + 24 := 0];
          MoreZeroed(m0, d, 5);
          if nclears > 8 {
            m := m[d + 28 := 0][d + 32 := 0];
            MoreZeroed(m0, d, 7);
          }
        }
      }
    }
  }

  lemma MoreZeroed(m: Mem, d: int, n: nat)
    ensures Zeroed(m, d, n + 2) == Zeroed(m, d, n)[d + 4 * n := 0][d + 4 * (n + 1) := 0]
  {
    assert Zeroed(m, d, n + 2) == Zeroed(m, d, n + 1)[d + 4 * (n + 1) := 0];
  }

  lemma ThreeZeroed(m: Mem, d: int)
    ensures Zeroed(m, d, 3) == m[d := 0][d + 4 := 0][d + 8 := 0]
  {
    assert Zeroed(m, d, 1) == m[d := 0];
    MoreZeroed(m, d, 1);
  }

  // ---------------------------------------------------------------- a block that is cleared

  /** Clearing words of a block in use leaves the heap and all other blocks as they are. */
  lemma ClearedInv(m: Mem, fb: seq<int>, b: Book, p: int, n: nat)
    requires Inv(m, fb, b) && p in b.ch && b.ch[p].kind.Live? && 4 * n + SIZE_SZ <= b.ch[p].size
    ensures var m' := Zeroed(m, p + 8, n); Inv(m', fb, b) && SamePayload(m, m', LivePart(b.ch) - {p})
    ensures At(Zeroed(m, p + 8, n), p + 4) == At(m, p + 4)
  {
    hide Inv, LivePart, SamePayload, Zeroed, AllZero;
    var m' := Zeroed(m, p + 8, n);
    ZeroedIs(m, p + 8, n);
    assert OwnStores(m, m', p, b.ch[p].size) by {
      forall a | !(p + 8 <= a < p + b.ch[p].size + 4)
        ensures At(m', a) == At(m, a)
      {
      }
    }
    OwnStoresInv(m, m', fb, b, p);
  }

  lemma ClearRange(m: Mem, fb: seq<int>, b: Book, p: int)
    requires Inv(m, fb, b) && p in b.ch && b.ch[p].kind.Live?
    ensures var clearsize := ChunkSize(At(m, p + 4)) - SIZE_SZ;
            clearsize % 8 == 4 && clearsize >= 12 && clearsize + SIZE_SZ == b.ch[p].size
  {
    HeadRead(m, fb, b, p);
    assert TileOk(b.ch, p);
  }

  /** The clear of calloc: all of the block's own words. */
  method ClearBlock(av: MallocState, m: int)
    requires av.Valid() && m - 8 in LivePart(av.book.ch)
    modifies av`mem
    ensures av.Valid() && SamePayload(old(av.mem), av.mem, LivePart(av.book.ch) - {m - 8})
    ensures AllZero(av.mem, m, m - 4 + LivePart(av.book.ch)[m - 8])
  {
    hide Inv, LivePart, FastPart, BinnedPart, Holes, Total, SamePayload, MapOk, Zeroed, AllZero;
    ghost var m0, p := av.mem, m - 8;
    InUseSettled(av, p);
    NotEmpty(av.book.ch, p);
    ClearRange(av.mem, av.fastbins, av.book, p);
    var clearsize := ChunkSize(At(av.mem, m - 4)) - SIZE_SZ;
    av.mem := ClearPayload(av.mem, m, clearsize);
    ZeroedIs(m0, m, clearsize / 4);
    ClearedInv(m0, av.fastbins, av.book, p, clearsize / 4);
  }

  /** cALLOc: a new block, all of whose words are zero. It has room for all the elements if and only if their
      sizes add up to less than the address space; otherwise the product has wrapped around. */
  method CAlloc(av: MallocState, n: int, size: int) returns (m: int, ghost how: Outcome, ghost from: Snapshot)
    requires av.Valid() && 0 <= n < ADDRESS_LIMIT && 0 <= size < ADDRESS_LIMIT
    modifies av
    ensures av.Valid() && SamePayload(old(av.mem), av.mem, old(LivePart(av.book.ch)))
    ensures m == 0 ==> LivePart(av.book.ch) == old(LivePart(av.book.ch))
    ensures var bytes := n * size % ADDRESS_LIMIT;
            if bytes >= REQUEST_LIMIT then m == 0 && av.answers == old(av.answers)
            else
              MallocResult(old(av.Now()), old(av.fastChunks), old(av.ReadyHead(Request2Size(bytes))), from,
                Request2Size(bytes), how, m, old(av.answers), av.answers)
    ensures var bytes := n * size % ADDRESS_LIMIT;
            m == 0 && bytes < REQUEST_LIMIT ==>
              && !TopServes(av.book.ch, av.top, Request2Size(bytes))
              && NoneFits(BinnedPart(av.book.ch), Request2Size(bytes))
    ensures m != 0 ==>
              && n * size % ADDRESS_LIMIT < REQUEST_LIMIT
              && Allocated(old(LivePart(av.book.ch)), LivePart(av.book.ch), m, Request2Size(n * size % ADDRESS_LIMIT))
              && AllZero(av.mem, m, m - 4 + LivePart(av.book.ch)[m - 8])
              && (n * size < ADDRESS_LIMIT <==> n * size + SIZE_SZ <= LivePart(av.book.ch)[m - 8])
  {
    hide Inv, MallocState.Valid, MallocState.Working, LivePart, FastPart, BinnedPart, Holes, Total, SamePayload, MapOk;
    hide Explained, NoneFits, TopServes, Request2Size, Consolidated, AllZero, Zeroed, FlagOk, SameFree;
    hide MallocResult, MallocState.FastServes, MallocState.ReadyHead;
    ghost var m0, live0 := av.mem, LivePart(av.book.ch);
    var bytes := n * size % ADDRESS_LIMIT;
    m, how, from := av.MAlloc(bytes);
    if m != 0 {
      ghost var m1 := av.mem;
      RoomInBlock(av, live0, m, n * size);
      ClearBlock(av, m);
      KeepPayload(m0, m1, av.mem, live0);
    }
  }

  /** A new block has room for the bytes asked for, unless they are more than the address space. */
  lemma RoomInBlock(av: MallocState, live0: map<int, int>, m: int, product: int)
    requires av.Valid() && 0 <= product
      && Allocated(live0, LivePart(av.book.ch), m, Request2Size(product % ADDRESS_LIMIT))
    ensures m - 8 in LivePart(av.book.ch) && LivePart(av.book.ch) - {m - 8} == live0
    ensures product < ADDRESS_LIMIT <==> product + SIZE_SZ <= LivePart(av.book.ch)[m - 8]
  {
    var ch := av.book.ch;
    assert m - 8 in LivePart(ch);
    assert av.Settled() ==> TileOk(ch, m - 8);
    PadsEnough(product % ADDRESS_LIMIT);
  }

  lemma PadsEnough(bytes: int)
    requires 0 <= bytes
    ensures bytes + SIZE_SZ <= Request2Size(bytes)
  {
  }
}
