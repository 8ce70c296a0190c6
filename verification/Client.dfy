/** Whole runs: whatever a client asks for, in whatever order, its blocks stay apart and keep
    what it wrote in them. */
module Client {
  import opened Memory
  import opened Heap
  import opened HeapSteps
  import opened TopSteps
  import opened Census
  import opened FreeSteps
  import opened AllocSteps
  import SystemSteps
  import opened Resize
  import opened Copying
  import opened Realloc
  import opened Memalign
  import opened Ialloc
  import opened Arena
  import opened Calloc

  /** A block as its owner knows it: the bytes asked for, and the words written so far. */
  datatype Block = Block(bytes: int, words: map<int, int>)

  /** A block as it is handed out: nothing written yet, or every word zero. */
  function FreshBlock(bytes: int, clear: bool): Block {
    Block(bytes, if clear && bytes >= 0 then Zeros(bytes / 4) else map[])
  }

  /** The first n words of a block, all zero. */
  function Zeros(n: nat): (words: map<int, int>)
    ensures forall w :: w in words <==> 0 <= w < n
    ensures forall w :: w in words ==> words[w] == 0
  {
    if n == 0 then map[] else Zeros(n - 1)[n - 1 := 0]
  }

  datatype Request =
    | DoMalloc(bytes: int)
    | DoCalloc(n: int, size: int)
    | DoFree(ptr: int)
    | DoRealloc(ptr: int, bytes: int)
    | DoMemalign(alignment: int, bytes: int)
    | DoIndependent(n: int, sizes: seq<int>, same: bool, clear: bool, lib: bool)
    | DoWrite(ptr: int, word: int, value: int)

  /** The block is in use, its bytes fit, and its words read back as they were written. */
  ghost predicate BlockOk(live: map<int, int>, m: Mem, held: map<int, Block>, ptr: int)
    requires ptr in held
  {
    var b := held[ptr];
    && ptr - 8 in live && ptr != 0 && 0 <= b.bytes && b.bytes + SIZE_SZ <= live[ptr - 8]
    && forall w {:trigger w in b.words} :: w in b.words ==>
         0 <= w && 4 * w + 4 <= b.bytes && At(m, ptr + 4 * w) == b.words[w]
  }

  /** The client holds exactly the blocks in use. */
  ghost predicate HeldOk(live: map<int, int>, m: Mem, held: map<int, Block>) {
    && (forall ptr {:trigger BlockOk(live, m, held, ptr)} :: ptr in held ==> BlockOk(live, m, held, ptr))
    && (forall p {:trigger p in live} :: p in live ==> p + 8 in held)
  }

  lemma BlockStays(live0: map<int, int>, live1: map<int, int>, kept: map<int, int>, m0: Mem, m1: Mem,
      held: map<int, Block>, held': map<int, Block>, ptr: int)
    requires ptr in held && BlockOk(live0, m0, held, ptr) && ptr in held' && held'[ptr] == held[ptr]
      && SamePayload(m0, m1, kept)
    requires var p := ptr - 8; p in kept && kept[p] == live0[p] && p in live1 && live1[p] == live0[p]
    ensures BlockOk(live1, m1, held', ptr)
  {
    var b := held[ptr];
    forall w | w in b.words
      ensures At(m1, ptr + 4 * w) == b.words[w]
    {
      assert ptr - 8 in kept;
    }
  }

  lemma BlockAdded(live0: map<int, int>, m0: Mem, m1: Mem, held: map<int, Block>, p: int, size: int, bytes: int,
      clear: bool)
    requires HeldOk(live0, m0, held) && p !in live0 && p != -8 && 0 <= bytes && bytes + SIZE_SZ <= size
      && SamePayload(m0, m1, live0) && (clear ==> Cleared(m1, p + 8, size))
    ensures HeldOk(live0[p := size], m1, held[p + 8 := FreshBlock(bytes, clear)])
  {
    var live1, held' := live0[p := size], held[p + 8 := FreshBlock(bytes, clear)];
    forall ptr | ptr in held'
      ensures BlockOk(live1, m1, held', ptr)
    {
      if ptr != p + 8 {
        assert BlockOk(live0, m0, held, ptr);
        BlockStays(live0, live1, live0, m0, m1, held, held', ptr);
      }
    }
  }

  lemma BlockRemoved(live0: map<int, int>, m0: Mem, m1: Mem, held: map<int, Block>, ptr0: int)
    requires ptr0 in held && HeldOk(live0, m0, held) && SamePayload(m0, m1, live0 - {ptr0 - 8})
    ensures HeldOk(live0 - {ptr0 - 8}, m1, held - {ptr0})
  {
    var live1, held' := live0 - {ptr0 - 8}, held - {ptr0};
    forall ptr | ptr in held'
      ensures BlockOk(live1, m1, held', ptr)
    {
      assert BlockOk(live0, m0, held, ptr);
      BlockStays(live0, live1, live1, m0, m1, held, held', ptr);
    }
  }

  /** The first k of the blocks that an independent allocation starting at ptr returns. */
  function WithPieces(held: map<int, Block>, ptr: int, ks: seq<int>, bytes: seq<int>, clear: bool, k: nat)
    : map<int, Block>
    requires k <= |ks| == |bytes|
  {
    if k == 0 then held
    else WithPieces(held, ptr, ks, bytes, clear, k - 1)[ptr + SumTo(ks, k - 1) := FreshBlock(bytes[k - 1], clear)]
  }

  lemma {:induction false} PiecesHeld(live0: map<int, int>, m: Mem, held: map<int, Block>, p0: int, total: int,
      ks: seq<int>, bytes: seq<int>, clear: bool, k: nat)
    requires HeldOk(live0, m, held) && PaddedAll(ks, total) && k <= |ks| == |bytes| && NoneWithin(live0, p0, total)
      && 0 < p0
    requires forall i :: 0 <= i < |ks| ==> 0 <= bytes[i] && bytes[i] + SIZE_SZ <= ks[i]
    requires clear ==> forall i :: 0 <= i < |ks| ==> Cleared(m, p0 + SumTo(ks, i) + 8, PieceSize(ks, total, i))
    ensures HeldOk(Pieces(live0, p0, total, ks, k), m, WithPieces(held, p0 + 8, ks, bytes, clear, k))
  {
    hide HeldOk, SumTo, PieceSize, PaddedAll, FreshBlock, Cleared;
    if k > 0 {
      var live, held1, p := Pieces(live0, p0, total, ks, k - 1), WithPieces(held, p0 + 8, ks, bytes, clear, k - 1),
        p0 + SumTo(ks, k - 1);
      PiecesHeld(live0, m, held, p0, total, ks, bytes, clear, k - 1);
      PiecesBelow(live0, p0, total, ks, k - 1);
      SumBounds(ks, total, k - 1);
      WholeSum(ks, total);
      PiecesFill(p0, total, ks, k - 1);
      PayloadOfSame(m, live);
      BlockAdded(live, m, m, held1, p, PieceSize(ks, total, k - 1), bytes[k - 1], clear);
    }
  }

  lemma WholeSum(ks: seq<int>, total: int)
    requires PaddedAll(ks, total)
    ensures SumTo(ks, |ks|) <= total && |ks| > 0
  {
  }

  /** None of the new blocks was held before. */
  lemma PiecesNew(live0: map<int, int>, m: Mem, held: map<int, Block>, p0: int, total: int, ks: seq<int>, i: nat)
    requires HeldOk(live0, m, held) && PaddedAll(ks, total) && i < |ks| && NoneWithin(live0, p0, total)
    ensures p0 + 8 + SumTo(ks, i) !in held
  {
    var ptr := p0 + 8 + SumTo(ks, i);
    SumBounds(ks, total, i);
    assert ptr in held ==> BlockOk(live0, m, held, ptr);
  }

  /** The sizes an independent allocation asks for, one by one. */
  function Wanted(n: nat, sizes: seq<int>, same: bool): seq<int>
    requires if same then n > 0 ==> |sizes| > 0 else |sizes| >= n
  {
    seq(n, i requires 0 <= i < n => if same then sizes[0] else sizes[i])
  }

  lemma WantedFits(n: nat, sizes: seq<int>, same: bool, i: nat)
    requires (if same then n > 0 ==> |sizes| > 0 else |sizes| >= n) && i < n && forall x :: x in sizes ==> 0 <= x
    ensures 0 <= Wanted(n, sizes, same)[i] && Wanted(n, sizes, same)[i] + SIZE_SZ <= PaddedSizes(n, sizes, same)[i]
  {
    assert Wanted(n, sizes, same)[i] in sizes;
  }

  /** The elements together need less than the address space. */
  predicate InRange(n: int, sizes: seq<int>, same: bool) {
    SizesOk(n, sizes, same) && Needed(n, sizes, same, true) < ADDRESS_LIMIT
  }

  /** The words that survive a change of size. */
  function Surviving(b: Block, bytes: int): map<int, int> {
    b.words - (set w | w in b.words && 4 * w + 4 > bytes)
  }

  lemma ResizedBlock(live0: map<int, int>, live1: map<int, int>, m0: Mem, m1: Mem, held: map<int, Block>, ptr0: int,
      q: int, bytes: int)
    requires ptr0 in held && BlockOk(live0, m0, held, ptr0) && 0 <= bytes < REQUEST_LIMIT && q != -8
    requires Resized(live0, live1, m0, m1, ptr0 - 8, q, Request2Size(bytes))
    ensures BlockOk(live1, m1, (held - {ptr0})[q + 8 := Block(bytes, Surviving(held[ptr0], bytes))], q + 8)
  {
    PaddedSize(bytes);
    var b', p := Block(bytes, Surviving(held[ptr0], bytes)), ptr0 - 8;
    forall w | w in b'.words
      ensures 0 <= w && 4 * w + 4 <= bytes && At(m1, q + 8 + 4 * w) == b'.words[w]
    {
      assert w in held[ptr0].words;
      assert WordMoved(m0, p, m1, q, 8 + 4 * w);
    }
  }

  lemma BlockResized(live0: map<int, int>, live1: map<int, int>, m0: Mem, m1: Mem, held: map<int, Block>, ptr0: int,
      q: int, bytes: int)
    requires ptr0 in held && HeldOk(live0, m0, held) && 0 <= bytes < REQUEST_LIMIT && q != -8
    requires Resized(live0, live1, m0, m1, ptr0 - 8, q, Request2Size(bytes))
    ensures HeldOk(live1, m1, (held - {ptr0})[q + 8 := Block(bytes, Surviving(held[ptr0], bytes))])
  {
    var held', kept := (held - {ptr0})[q + 8 := Block(bytes, Surviving(held[ptr0], bytes))], live0 - {ptr0 - 8};
    assert BlockOk(live0, m0, held, ptr0);
    ResizedBlock(live0, live1, m0, m1, held, ptr0, q, bytes);
    forall ptr | ptr in held'
      ensures BlockOk(live1, m1, held', ptr)
    {
      if ptr != q + 8 {
        assert BlockOk(live0, m0, held, ptr);
        assert ptr - 8 in kept;
        BlockStays(live0, live1, kept, m0, m1, held, held', ptr);
      }
    }
  }

  lemma BlockWritten(live: map<int, int>, m0: Mem, held: map<int, Block>, ptr0: int, w: int, v: int)
    requires ptr0 in held && HeldOk(live, m0, held) && 0 <= w && 4 * w + 4 <= held[ptr0].bytes
    requires SamePayload(m0, m0[ptr0 + 4 * w := v], live - {ptr0 - 8})
    ensures HeldOk(live, m0[ptr0 + 4 * w := v], held[ptr0 := held[ptr0].(words := held[ptr0].words[w := v])])
  {
    var m1, held' := m0[ptr0 + 4 * w := v], held[ptr0 := held[ptr0].(words := held[ptr0].words[w := v])];
    assert BlockOk(live, m0, held, ptr0);
    forall ptr | ptr in held'
      ensures BlockOk(live, m1, held', ptr)
    {
      if ptr != ptr0 {
        assert BlockOk(live, m0, held, ptr);
        BlockStays(live, live, live - {ptr0 - 8}, m0, m1, held, held', ptr);
      }
    }
  }

  lemma HeldStays(live: map<int, int>, m0: Mem, m1: Mem, held: map<int, Block>)
    requires HeldOk(live, m0, held) && SamePayload(m0, m1, live)
    ensures HeldOk(live, m1, held)
  {
    forall ptr | ptr in held
      ensures BlockOk(live, m1, held, ptr)
    {
      assert BlockOk(live, m0, held, ptr);
      BlockStays(live, live, live, m0, m1, held, held, ptr);
    }
  }

  lemma NewHeld(live0: map<int, int>, live1: map<int, int>, m0: Mem, m1: Mem, held: map<int, Block>, ptr: int,
      bytes: int, clear: bool)
    requires HeldOk(live0, m0, held) && SamePayload(m0, m1, live0) && 0 <= bytes < REQUEST_LIMIT && ptr != 0
    requires AlignedBlock(live0, live1, ptr - 8, Request2Size(bytes))
    requires clear ==> Cleared(m1, ptr, live1[ptr - 8])
    ensures HeldOk(live1, m1, held[ptr := FreshBlock(bytes, clear)]) && ptr !in held
  {
    PaddedSize(bytes);
    BlockAdded(live0, m0, m1, held, ptr - 8, live1[ptr - 8], bytes, clear);
    assert ptr in held ==> BlockOk(live0, m0, held, ptr);
  }

  lemma HeldLive(live: map<int, int>, m: Mem, held: map<int, Block>, ptr: int)
    requires HeldOk(live, m, held) && ptr in held
    ensures ptr - 8 in live && ptr != 0 && held[ptr].bytes + SIZE_SZ <= live[ptr - 8]
  {
    assert BlockOk(live, m, held, ptr);
  }

  /** The owner of a block writes one of its words. */
  method Write(av: MallocState, ptr: int, ghost size: int, word: int, value: int)
    requires av.Valid() && ptr - 8 in LivePart(av.book.ch) && LivePart(av.book.ch)[ptr - 8] == size && 0 <= word
      && 4 * word + 4 + SIZE_SZ <= size
    modifies av`mem
    ensures av.Valid() && av.mem == old(av.mem)[ptr + 4 * word := value]
    ensures SamePayload(old(av.mem), av.mem, LivePart(av.book.ch) - {ptr - 8})
  {
    hide Inv, LivePart, FastPart, BinnedPart, Holes, Total, SamePayload, MapOk;
    ghost var m0 := av.mem;
    InUseSettled(av, ptr - 8);
    NotEmpty(av.book.ch, ptr - 8);
    av.mem := av.mem[ptr + 4 * word := value];
    OwnStoresInv(m0, av.mem, av.fastbins, av.book, ptr - 8);
  }

  /** What the client holds after a request that was answered with pointer q. Requests for pointers it does
      not hold, or outside a block, change nothing. */
  function Served(held: map<int, Block>, r: Request, q: int): map<int, Block> {
    match r
    case DoMalloc(bytes) => if q == 0 then held else held[q := FreshBlock(bytes, false)]
    case DoCalloc(n, size) => if q == 0 then held else held[q := FreshBlock(n * size, true)]
    case DoMemalign(_, bytes) => if q == 0 then held else held[q := FreshBlock(bytes, false)]
    case DoIndependent(n, sizes, same, clear, _) =>
      if q == 0 || !InRange(n, sizes, same) then held
      else WithPieces(held, q, PaddedSizes(n, sizes, same), Wanted(n, sizes, same), clear, n)
    case DoFree(ptr) => held - {ptr}
    case DoRealloc(ptr, bytes) =>
      if ptr == 0 && q != 0 then held[q := FreshBlock(bytes, false)]
      else if ptr in held && q != 0 then (held - {ptr})[q := Block(bytes, Surviving(held[ptr], bytes))] else held
    case DoWrite(ptr, word, value) =>
      if ptr in held && 0 <= word && 4 * word + 4 <= held[ptr].bytes then
        held[ptr := held[ptr].(words := held[ptr].words[word := value])]
      else held
  }

  /** A chunk for this request is not too large to ask the system for. */
  predicate InReach(bytes: int) {
    0 <= bytes < REQUEST_LIMIT && SystemSteps.MoreCoreRequest(Request2Size(bytes)) > 0
  }

  lemma ReachRange()
    ensures forall bytes {:trigger InReach(bytes)} :: InReach(bytes) ==>
      0 <= bytes < REQUEST_LIMIT < ADDRESS_LIMIT && Request2Size(bytes) - MALLOC_ALIGN_MASK < REQUEST_LIMIT
  {
  }

  /** A request that must be served as long as the system gives what it is asked for. */
  predicate Serviceable(held: map<int, Block>, r: Request) {
    match r
    case DoMalloc(bytes) => InReach(bytes)
    case DoCalloc(n, size) => 0 <= n < ADDRESS_LIMIT && 0 <= size < ADDRESS_LIMIT && InReach(n * size)
    case DoRealloc(ptr, bytes) => (ptr == 0 || ptr in held) && InReach(bytes)
    case DoMemalign(alignment, bytes) =>
      0 <= alignment < ADDRESS_LIMIT && 0 <= bytes < REQUEST_LIMIT && InWords(alignment, bytes)
        && InReach(WorstRequest(alignment, bytes))
    case DoIndependent(n, sizes, same, _, lib) =>
      lib && InRange(n, sizes, same) && InReach(Needed(n, sizes, same, true) - MALLOC_ALIGN_MASK)
    case _ => false
  }

  /** malloc fails on a request within reach only if the system has not given what it was asked for. */
  lemma NeverInVain(s0: Snapshot, fast: bool, head: int, s: Snapshot, bytes: int, how: Outcome, m: int,
      a0: seq<SystemSteps.Answer>, a1: seq<SystemSteps.Answer>)
    requires 0 <= bytes < REQUEST_LIMIT
      && SystemSteps.MallocResult(s0, fast, head, s, Request2Size(bytes), how, m, a0, a1)
    ensures a0 <= a1 && (m == 0 && SystemSteps.AllGiven(a0, a1) ==> !InReach(bytes))
  {
    PaddedSize(bytes);
    SystemSteps.FailsForWant(s0, fast, head, s, Request2Size(bytes), how, m, a0, a1);
  }

  lemma AllGivenParts(a0: seq<SystemSteps.Answer>, a1: seq<SystemSteps.Answer>, a2: seq<SystemSteps.Answer>)
    requires a0 <= a1 <= a2
    ensures SystemSteps.AllGiven(a0, a2) ==> SystemSteps.AllGiven(a0, a1) && SystemSteps.AllGiven(a1, a2)
  {
  }

  /** An independent allocation, in either version, into an array of the client's own. */
  method ServeIndependent(av: MallocState, held: map<int, Block>, n: int, sizes: seq<int>, same: bool, clear: bool,
      lib: bool)
    returns (held': map<int, Block>, q: int)
    requires av.Valid() && HeldOk(LivePart(av.book.ch), av.mem, held)
    modifies av
    ensures av.Valid() && HeldOk(LivePart(av.book.ch), av.mem, held')
    ensures held' == Served(held, DoIndependent(n, sizes, same, clear, lib), q)
    ensures old(av.answers) <= av.answers
    ensures SystemSteps.AllGiven(old(av.answers), av.answers) ==>
      (lib && InRange(n, sizes, same) && InReach(Needed(n, sizes, same, true) - MALLOC_ALIGN_MASK) ==> q != 0)
    ensures q != 0 ==>
      InRange(n, sizes, same) && forall i :: 0 <= i < n ==> q + SumTo(PaddedSizes(n, sizes, same), i) !in held
  {
    hide Inv, MallocState.Valid, MallocState.Working, LivePart, SamePayload, HeldOk, SumTo, PaddedSizes, PaddedAll;
    hide NoneWithin, ResultAt, TakesAfterFree, MallocState.FastServes, Wanted, PointersAt, WithPieces, Pieces;
    hide Needed, Asked, NoHeap, SystemSteps.TopServes, Request2Size, Cleared, PieceSize, SystemSteps.MallocResult;
    hide MallocState.ReadyHead, InReach, SystemSteps.AllGiven, Consolidated;
    ghost var m0, live0 := av.mem, LivePart(av.book.ch);
    held', q := held, 0;
    if !InRange(n, sizes, same) || (!lib && TakesAfterFree(av, Needed(n, sizes, same, true))) {
      return;
    }
    var ok, ptrs, marray;
    ghost var a0, fast := av.answers, av.fastChunks;
    ghost var head := av.ReadyHead(Request2Size((Asked(n, sizes, same, true) - MALLOC_ALIGN_MASK) % ADDRESS_LIMIT));
    ghost var ks := PaddedSizes(n, sizes, same);
    ghost var p0, total, rest;
    ghost var s1, how, from;
    ok, ptrs, marray, p0, total, rest, s1, how, from := IAlloc(av, n, sizes, same, clear, true, lib);
    AskedIsNeeded(n, sizes, same, true);
    ReachRange();
    ghost var asked := (Asked(n, sizes, same, true) - MALLOC_ALIGN_MASK) % ADDRESS_LIMIT;
    if asked < REQUEST_LIMIT {
      NeverInVain(s1, !lib && fast, if lib then 0 else head, from, asked, how, if ok && ptrs == [] then 0 else p0 + 8,
        a0, av.answers);
    }
    HeldStays(live0, m0, av.mem, held);
    if ptrs != [] {
      PaddedLength(n, sizes, same);
      WantedLength(n, sizes, same);
      forall i: nat | i < n
        ensures 0 <= Wanted(n, sizes, same)[i] && Wanted(n, sizes, same)[i] + SIZE_SZ <= ks[i]
      {
        WantedFits(n, sizes, same, i);
      }
      PiecesHeld(live0, av.mem, held, p0, total, ks, Wanted(n, sizes, same), clear, n);
      forall i: nat | i < n
        ensures p0 + 8 + SumTo(ks, i) !in held
      {
        PiecesNew(live0, m0, held, p0, total, ks, i);
      }
      SumNone(ks);
      q := ptrs[0];
      held' := WithPieces(held, q, PaddedSizes(n, sizes, same), Wanted(n, sizes, same), clear, n);
    }
  }

  /** calloc, of elements that together are smaller than the address space. */
  method ServeCalloc(av: MallocState, held: map<int, Block>, n: int, size: int)
    returns (held': map<int, Block>, q: int)
    requires av.Valid() && HeldOk(LivePart(av.book.ch), av.mem, held)
    requires 0 <= n < ADDRESS_LIMIT && 0 <= size < ADDRESS_LIMIT && 0 <= n * size < ADDRESS_LIMIT
    modifies av
    ensures av.Valid() && HeldOk(LivePart(av.book.ch), av.mem, held')
    ensures held' == Served(held, DoCalloc(n, size), q) && (q != 0 ==> q !in held)
    ensures old(av.answers) <= av.answers
      && (InReach(n * size) && SystemSteps.AllGiven(old(av.answers), av.answers) ==> q != 0)
  {
    hide Inv, MallocState.Valid, MallocState.Working, LivePart, SamePayload, Allocated, AlignedBlock, HeldOk, AllZero;
    hide Request2Size, FreshBlock, BinnedPart, NoneFits, SystemSteps.TopServes, SystemSteps.MallocResult;
    hide MallocState.ReadyHead, SystemSteps.AllGiven;
    ghost var m0, live0, bytes := av.mem, LivePart(av.book.ch), n * size;
    held', q := held, 0;
    ghost var how, from;
    ghost var s0, fast, head, a0 := av.Now(), av.fastChunks, av.ReadyHead(Request2Size(bytes)), av.answers;
    q, how, from := CAlloc(av, n, size);
    if bytes < REQUEST_LIMIT {
      NeverInVain(s0, fast, head, from, bytes, how, q, a0, av.answers);
    }
    if q == 0 {
      HeldStays(live0, m0, av.mem, held);
    } else {
      PlainBlock(live0, LivePart(av.book.ch), q, Request2Size(bytes));
      NewHeld(live0, LivePart(av.book.ch), m0, av.mem, held, q, bytes, true);
      held' := held[q := FreshBlock(n * size, true)];
    }
  }

  lemma WantedLength(n: nat, sizes: seq<int>, same: bool)
    requires if same then n > 0 ==> |sizes| > 0 else |sizes| >= n
    ensures |Wanted(n, sizes, same)| == n
  {
  }

  lemma SumNone(ks: seq<int>)
    ensures SumTo(ks, 0) == 0
  {
  }

  method ServeMalloc(av: MallocState, held: map<int, Block>, bytes: int) returns (held': map<int, Block>, q: int)
    requires av.Valid() && HeldOk(LivePart(av.book.ch), av.mem, held) && 0 <= bytes < ADDRESS_LIMIT
    modifies av
    ensures av.Valid() && HeldOk(LivePart(av.book.ch), av.mem, held')
    ensures held' == Served(held, DoMalloc(bytes), q) && (q != 0 ==> q !in held)
    ensures old(av.answers) <= av.answers
      && (InReach(bytes) && SystemSteps.AllGiven(old(av.answers), av.answers) ==> q != 0)
  {
    hide Inv, MallocState.Valid, MallocState.Working, LivePart, SamePayload, Allocated, AlignedBlock, HeldOk, Explained;
    hide Request2Size, FreshBlock, BinnedPart, NoneFits, SystemSteps.TopServes, SystemSteps.MallocResult, Consolidated;
    hide MallocState.ReadyHead, SystemSteps.AllGiven;
    ghost var m0, live0 := av.mem, LivePart(av.book.ch);
    ghost var s0, fast, head, a0 := av.Now(), av.fastChunks, av.ReadyHead(Request2Size(bytes)), av.answers;
    held', q := held, 0;
    ghost var how, from;
    q, how, from := av.MAlloc(bytes);
    if bytes < REQUEST_LIMIT {
      NeverInVain(s0, fast, head, from, bytes, how, q, a0, av.answers);
    }
    if q != 0 {
      PlainBlock(live0, LivePart(av.book.ch), q, Request2Size(bytes));
      NewHeld(live0, LivePart(av.book.ch), m0, av.mem, held, q, bytes, false);
      held' := held[q := FreshBlock(bytes, false)];
    } else {
      HeldStays(live0, m0, av.mem, held);
    }
  }

  /** realloc of a block held, or of null. */
  method ServeRealloc(av: MallocState, held: map<int, Block>, ptr: int, bytes: int)
    returns (held': map<int, Block>, q: int)
    requires av.Valid() && HeldOk(LivePart(av.book.ch), av.mem, held) && 0 <= bytes < ADDRESS_LIMIT
    requires ptr == 0 || ptr in held
    modifies av
    ensures av.Valid() && HeldOk(LivePart(av.book.ch), av.mem, held')
    ensures held' == Served(held, DoRealloc(ptr, bytes), q) && (q != 0 && ptr == 0 ==> q !in held)
    ensures old(av.answers) <= av.answers
      && (InReach(bytes) && SystemSteps.AllGiven(old(av.answers), av.answers) ==> q != 0)
  {
    hide Inv, MallocState.Valid, MallocState.Working, LivePart, SamePayload, Allocated, AlignedBlock, HeldOk, Resized;
    hide Request2Size, FreshBlock, BinnedPart, NoneFits, SystemSteps.TopServes, SystemSteps.MallocResult, InPlace;
    hide MallocState.ReadyHead, SystemSteps.AllGiven, InReach;
    ghost var m0, live0, a0 := av.mem, LivePart(av.book.ch), av.answers;
    ghost var s0, fast, head := av.Now(), av.fastChunks, av.ReadyHead(Request2Size(bytes));
    ghost var inPlace := ptr != 0 && InPlace(av.book.ch, ptr - 8, Request2Size(bytes));
    held', q := held, 0;
    if ptr in held {
      HeldLive(live0, m0, held, ptr);
    }
    ghost var newmem, how, from;
    q, newmem, how, from := ReAlloc(av, ptr, bytes);
    ReachRange();
    if bytes < REQUEST_LIMIT && !inPlace && (ptr == 0 || Request2Size(bytes) - MALLOC_ALIGN_MASK < REQUEST_LIMIT) {
      NeverInVain(s0, fast, head, from, bytes, how, newmem, a0, av.answers);
    }
    if q == 0 {
      HeldStays(live0, m0, av.mem, held);
    } else if ptr == 0 {
      PlainBlock(live0, LivePart(av.book.ch), q, Request2Size(bytes));
      NewHeld(live0, LivePart(av.book.ch), m0, av.mem, held, q, bytes, false);
      held' := held[q := FreshBlock(bytes, false)];
    } else {
      BlockResized(live0, LivePart(av.book.ch), m0, av.mem, held, ptr, q - 8, bytes);
      held' := (held - {ptr})[q := Block(bytes, Surviving(held[ptr], bytes))];
    }
  }

  /** memalign, unless the request wraps around. */
  method ServeMemalign(av: MallocState, held: map<int, Block>, alignment: int, bytes: int)
    returns (held': map<int, Block>, q: int)
    requires av.Valid() && HeldOk(LivePart(av.book.ch), av.mem, held)
    requires 0 <= bytes < ADDRESS_LIMIT && 0 <= alignment < ADDRESS_LIMIT && InWords(alignment, bytes)
    modifies av
    ensures av.Valid() && HeldOk(LivePart(av.book.ch), av.mem, held')
    ensures held' == Served(held, DoMemalign(alignment, bytes), q) && (q != 0 ==> q !in held)
    ensures old(av.answers) <= av.answers
    ensures SystemSteps.AllGiven(old(av.answers), av.answers) ==>
      (bytes < REQUEST_LIMIT && InReach(WorstRequest(alignment, bytes)) ==> q != 0)
  {
    hide Inv, MallocState.Valid, MallocState.Working, LivePart, SamePayload, AlignedBlock, HeldOk, Aligned, InWords;
    hide Request2Size, FreshBlock, BinnedPart, NoneFits, SystemSteps.TopServes, SystemSteps.MallocResult;
    hide MallocState.ReadyHead, SystemSteps.AllGiven, WorstRequest, UsedAlignment, Leader;
    ghost var m0, live0, a0 := av.mem, LivePart(av.book.ch), av.answers;
    ghost var asked := WorstRequest(alignment, bytes);
    ghost var s0, fast, head := av.Now(), av.fastChunks, av.ReadyHead(Request2Size(asked));
    held', q := held, 0;
    var end;
    ghost var whole, how, from;
    end, q, whole, how, from := MemAlign(av, alignment, bytes);
    WorstRange(alignment, bytes);
    PlacedNull(alignment, whole);
    if bytes < REQUEST_LIMIT && asked < REQUEST_LIMIT {
      NeverInVain(s0, fast, head, from, asked, how, whole, a0, av.answers);
    }
    if q != 0 {
      NewHeld(live0, LivePart(av.book.ch), m0, av.mem, held, q, bytes, false);
      held' := held[q := FreshBlock(bytes, false)];
    } else {
      HeldStays(live0, m0, av.mem, held);
    }
  }

  lemma WorstRange(alignment: int, bytes: int)
    requires 0 <= bytes
    ensures 0 <= WorstRequest(alignment, bytes)
  {
  }

  lemma PlacedNull(alignment: int, whole: int)
    ensures Placed(alignment, whole) == 0 ==> whole <= 0
  {
  }

  /** One request, answered with q; a new block is new to the client. */
  method Serve(av: MallocState, held: map<int, Block>, r: Request) returns (held': map<int, Block>, q: int)
    requires av.Valid() && HeldOk(LivePart(av.book.ch), av.mem, held)
    modifies av
    ensures av.Valid() && HeldOk(LivePart(av.book.ch), av.mem, held')
    ensures held' == Served(held, r, q)
    ensures old(av.answers) <= av.answers
    ensures Serviceable(held, r) && SystemSteps.AllGiven(old(av.answers), av.answers) ==> q != 0
    ensures q != 0 && (r.DoMalloc? || r.DoCalloc? || r.DoMemalign? || (r.DoRealloc? && r.ptr == 0)) ==> q !in held
    ensures q != 0 && r.DoIndependent? && InRange(r.n, r.sizes, r.same) ==>
              forall i :: 0 <= i < r.n ==> q + SumTo(PaddedSizes(r.n, r.sizes, r.same), i) !in held
  {
    hide Inv, MallocState.Valid, MallocState.Working, LivePart, SamePayload, Allocated, AlignedBlock, Explained;
    hide SameFree, Request2Size, Resized, HeldOk, WithPieces, SumTo, PaddedSizes, Wanted, InWords, InRange;
    hide TakesAfterFree, Needed, FreshBlock, Cleared, InReach, SystemSteps.AllGiven, WorstRequest;
    ReachRange();
    ghost var m0, live0 := av.mem, LivePart(av.book.ch);
    held', q := held, 0;
    match r
    case DoMalloc(bytes) =>
      if 0 <= bytes < ADDRESS_LIMIT {
        held', q := ServeMalloc(av, held, bytes);
      }
    case DoFree(ptr) =>
      if ptr in held {
        HeldLive(live0, m0, held, ptr);
        av.Free(ptr);
        BlockRemoved(live0, m0, av.mem, held, ptr);
        held' := held - {ptr};
      } else {
        assert held - {ptr} == held;
      }
    case DoRealloc(ptr, bytes) =>
      if (ptr == 0 || ptr in held) && 0 <= bytes < ADDRESS_LIMIT {
        held', q := ServeRealloc(av, held, ptr, bytes);
      }
    case DoMemalign(alignment, bytes) =>
      if 0 <= bytes < ADDRESS_LIMIT && 0 <= alignment < ADDRESS_LIMIT && InWords(alignment, bytes) {
        held', q := ServeMemalign(av, held, alignment, bytes);
      }
    case DoIndependent(n, sizes, same, clear, lib) =>
      held', q := ServeIndependent(av, held, n, sizes, same, clear, lib);
    case DoCalloc(n, size) =>
      if 0 <= n < ADDRESS_LIMIT && 0 <= size < ADDRESS_LIMIT && n * size < ADDRESS_LIMIT {
        held', q := ServeCalloc(av, held, n, size);
      }
    case DoWrite(ptr, word, value) =>
      if ptr in held && 0 <= word && 4 * word + 4 <= held[ptr].bytes {
        HeldLive(live0, m0, held, ptr);
        Write(av, ptr, live0[ptr - 8], word, value);
        BlockWritten(live0, m0, held, ptr, word, value);
        held' := held[ptr := held[ptr].(words := held[ptr].words[word := value])];
      }
  }

  function ServedAll(script: seq<Request>, answers: seq<int>): map<int, Block>
    requires |answers| == |script|
  {
    var n := |script| - 1;
    if n < 0 then map[] else Served(ServedAll(script[..n], answers[..n]), script[n], answers[n])
  }

  /** Any run of requests, from the first call on: the client's blocks are the ones its requests and the answers
      say, and every word it wrote and still holds reads back. As long as the system gives what it is asked for, no
      request within reach fails. */
  method Run(av: MallocState, script: seq<Request>) returns (held: map<int, Block>, answers: seq<int>)
    requires av.Unborn()
    modifies av
    ensures av.Valid() && HeldOk(LivePart(av.book.ch), av.mem, held)
    ensures |answers| == |script| && held == ServedAll(script, answers)
    ensures SystemSteps.AllGiven(old(av.answers), av.answers) ==>
              forall i :: 0 <= i < |script| && Serviceable(ServedAll(script[..i], answers[..i]), script[i]) ==>
                answers[i] != 0
  {
    hide SystemSteps.AllGiven, Serviceable;
    held, answers := map[], [];
    for i := 0 to |script|
      invariant av.Valid() && HeldOk(LivePart(av.book.ch), av.mem, held)
      invariant |answers| == i && held == ServedAll(script[..i], answers)
      invariant old(av.answers) <= av.answers
      invariant SystemSteps.AllGiven(old(av.answers), av.answers) ==> forall j {:trigger answers[j]} ::
        0 <= j < i && Serviceable(ServedAll(script[..j], answers[..j]), script[j]) ==> answers[j] != 0
    {
      var q;
      ghost var a1, before := av.answers, answers;
      held, q := Serve(av, held, script[i]);
      AllGivenParts(old(av.answers), a1, av.answers);
      ServedNext(script, answers, q);
      answers := answers + [q];
      assert forall j :: 0 <= j <= i ==> answers[..j] == before[..j];
    }
    assert script[..|script|] == script;
  }

  lemma ServedNext(script: seq<Request>, answers: seq<int>, q: int)
    requires |answers| < |script|
    ensures var i := |answers|;
            ServedAll(script[..i + 1], answers + [q]) == Served(ServedAll(script[..i], answers), script[i], q)
  {
    var i := |answers|;
    assert script[..i + 1][..i] == script[..i] && (answers + [q])[..i] == answers;
  }

  /** What a client holds never overlaps: not with another of its blocks, nor with any other chunk's own words. */
  lemma HeldApart(av: MallocState, held: map<int, Block>, ptr: int, x: int)
    requires av.Valid() && HeldOk(LivePart(av.book.ch), av.mem, held) && ptr in held && x in av.book.ch && x != ptr - 8
    ensures ptr + held[ptr].bytes <= x + 4 || x + av.book.ch[x].size <= ptr - 8
    ensures ptr % 8 == 0
  {
    var p := ptr - 8;
    assert BlockOk(LivePart(av.book.ch), av.mem, held, ptr);
    assert TileOk(av.book.ch, p) && TileOk(av.book.ch, x);
    assert p < x ==> Before(av.book.ch, p, x);
    assert x < p ==> Before(av.book.ch, x, p);
  }
}
