/** malloc_state and the operations that rewrite it. */
module Arena {
  import opened Memory
  import opened Ring
  import opened Heap
  import opened HeapSteps
  import opened TopSteps
  import opened Census
  import opened BinIndex
  import opened Binmap
  import opened FreeSteps
  import opened Joining
  import opened AllocSteps
  import opened SystemSteps

  /** The malloc_state of the program. The two flag bits that the program keeps in the low bits
      of max_fast are the fields anyChunks and fastChunks; max_fast == 0 means not initialised. */
  class MallocState {
    var mem: Mem
    var maxFast: int
    var anyChunks: bool
    var fastChunks: bool
    var fastbins: seq<int>
    var top: int
    var lastRemainder: int
    var binmap: seq<nat>
    var sbrkedMem: int
    ghost var book: Book
    ghost var answers: seq<Answer>  // every call of MORECORE, in order

    /** The invariant, except that chunks may be in transit (holes). */
    ghost predicate Working()
      reads `mem, `fastbins, `book, `sbrkedMem, `maxFast, `anyChunks, `fastChunks, `binmap, `top
    {
      && Inv(mem, fastbins, book)
      && Total(book.ch) == sbrkedMem
      && FastLimits(FastPart(book.ch), maxFast)
      && AnyLimits(BinnedPart(book.ch), anyChunks, fastChunks)
      && MapOk(binmap, book.bins)
      && TopOk(mem, book.ch, top)
    }

    ghost predicate Settled()
      reads `mem, `fastbins, `book, `sbrkedMem, `maxFast, `anyChunks, `fastChunks, `binmap, `top
    {
      Working() && Holes(book.ch) == {}
    }

    /** The heap as a value. */
    ghost function Now(): Snapshot
      reads `mem, `fastbins, `book, `top, `lastRemainder
    {
      Snapshot(mem, fastbins, book, top, lastRemainder)
    }

    /** A fastbin holds a chunk for a request of nb bytes. */
    predicate FastServes(nb: int)
      reads `maxFast, `fastbins
    {
      0 < nb <= maxFast && 0 <= FastIndex(nb) < |fastbins| && fastbins[FastIndex(nb)] != 0
    }

    /** That chunk, or 0. */
    function ReadyHead(nb: int): int
      reads `maxFast, `fastbins
    {
      if FastServes(nb) then fastbins[FastIndex(nb)] else 0
    }

    /** The zero-filled state before the first call. */
    ghost predicate Unborn()
      reads this
    {
      && mem == map[] && maxFast == 0 && !anyChunks && !fastChunks && top == 0 && sbrkedMem == 0
      && fastbins == seq(NFASTBINS, _ => 0) && binmap == seq(BINMAPSIZE + 1, _ => 0)
      && book == Book(map[], seq(NBINS, _ => []), seq(NFASTBINS, _ => []))
    }

    /** The invariant between calls. */
    ghost predicate Valid()
      reads this
    {
      Unborn() || (Settled() && FlagOk(FastPart(book.ch), fastChunks))
    }

    /** The unlink macro: take P off the circular list it is on. */
    method Unlink(p: int) returns (ghost k: int)
      requires Working() && p in book.ch && book.ch[p].kind.Binned?
      modifies this`mem, this`book
      ensures Working()
      ensures 1 <= old(book.ch[p].kind.bin) < NBINS == |old(book.bins)|
      ensures 0 <= k < |old(book.bins)[old(book.ch[p].kind.bin)]|
      ensures var i := old(book.ch[p].kind.bin);
              1 <= i < NBINS && old(book.bins)[i][k] == p && book == TakeBook(old(book), i, k)
      ensures book.bins == PurgedBins(old(book.bins), old(book.ch), p)
      ensures var q := old(PartsOf(book.ch));
              PartsOf(book.ch) == q.(binned := q.binned - {p}, holes := q.holes + {p})
      ensures SamePayload(old(mem), mem, LivePart(book.ch))
      ensures Succ(book.ch, p) in book.ch && !PrevFree(book.ch, p)
      ensures !book.ch[Succ(book.ch, p)].kind.Hole? ==> FreeEnd(mem, book.ch, p)
      ensures !book.ch[Succ(book.ch, p)].kind.Hole? && !PrevHole(book.ch, p) ==> FreeTags(mem, book.ch, p)
      ensures TopIs(old(book.ch), top) ==> TopIs(book.ch, top)
      ensures book.fast == old(book.fast)
    {
      hide Inv, MapOk, Retag, LinkStores, FreeTags, FreeEnd, BinnedPart, FastPart, LivePart, SamePayload, SameBut;
      ghost var m0, ch, i := mem, book.ch, book.ch[p].kind.bin;
      var fwd := Fd(mem, p);
      var bck := Bk(mem, p);
      mem := mem[fwd + 12 := bck];
      mem := mem[bck + 8 := fwd];
      k := FindInBin(m0, fastbins, book, p);
      TakeInv(m0, fastbins, book, i, k);
      RetagCensus(ch, p, Hole);
      TakeCensus(ch, p);
      MapOkTake(binmap, book.bins, i, k);
      UnlinkedSame(m0, bck, fwd);
      TakenTags(m0, mem, fastbins, book, p, {bck + 8, fwd + 12});
      UnlinkPurges(m0, fastbins, book, i, k);
      book := TakeBook(book, i, k);
    }

    /** From the in-use chunk p to a hole; nothing is stored. */
    ghost method OpenChunk(p: int)
      requires Working() && p in book.ch && book.ch[p].kind.Live?
      modifies this`book
      ensures Working() && book == OpenBook(old(book), p) && book.bins == old(book.bins)
      ensures var q := old(PartsOf(book.ch)); PartsOf(book.ch) == q.(live := q.live - {p}, holes := q.holes + {p})
      ensures TopIs(old(book.ch), top) ==> TopIs(book.ch, top)
      ensures book.fast == old(book.fast)
    {
      hide Inv, BinnedPart, FastPart, LivePart;
      OpenInv(mem, fastbins, book, p);
      RetagCensus(book.ch, p, Hole);
      OpenCensus(book.ch, p);
      book := OpenBook(book, p);
    }

    ghost method MergeChunks(a: int, c: int)
      requires Working() && Adjacent(book.ch, a, c)
      modifies this`book
      ensures Working() && book == old(book).(ch := MergeCh(old(book.ch), a, c))
      ensures var q := old(PartsOf(book.ch)); PartsOf(book.ch) == q.(holes := q.holes - {c})
      ensures TopIs(old(book.ch), top) ==> TopIs(book.ch, top)
      ensures book.fast == old(book.fast)
    {
      hide BinnedPart, FastPart, LivePart, Listed, Rings, Tiled, Tagged, MergeCh;
      MergeInv(mem, fastbins, book, a, c);
      MergeCensus(book.ch, a, c);
      MergeKinds(book.ch, a, c);
      if TopIs(book.ch, top) {
        MergeTop(book.ch, a, c, top);
      }
      book := book.(ch := MergeCh(book.ch, a, c));
    }

    /** p is the only chunk in transit, and nothing free comes before it. */
    ghost predicate InTransit(p: int, size: int)
      reads this
    {
      && p in book.ch && book.ch[p].kind.Hole? && book.ch[p].size == size && Holes(book.ch) == {p}
      && !PrevFree(book.ch, p) && !PrevHole(book.ch, p)
    }

    /** Consolidate backward: if the chunk before p0 is free, it swallows p0. */
    method MergeBackward(p0: int, size0: int) returns (p: int, size: int)
      requires Settled() && p0 in book.ch && book.ch[p0].kind.Live? && size0 == book.ch[p0].size
      modifies this`mem, this`book
      ensures Working() && InTransit(p, size) && p + size == p0 + size0
      ensures var q := old(PartsOf(book.ch));
              PartsOf(book.ch) == q.(live := q.live - {p0}, binned := PartsOf(book.ch).binned, holes := {p})
      ensures At(old(mem), p0 + 4) % 2 == PREV_INUSE ==> p == p0 && BinnedPart(book.ch) == old(BinnedPart(book.ch))
      ensures p == MergeStart(old(book.ch), p0) && BinnedPart(book.ch) == old(BinnedPart(book.ch)) - {p}
      ensures book.bins == PurgedBins(old(book.bins), old(book.ch), p)
      ensures SamePayload(old(mem), mem, LivePart(book.ch))
      ensures TopIs(book.ch, top)
      ensures p0 + size0 in book.ch && p0 + size0 in old(book.ch)
      ensures book.ch[p0 + size0].kind == old(book.ch)[p0 + size0].kind
        && book.ch[p0 + size0].size == old(book.ch)[p0 + size0].size
      ensures book.fast == old(book.fast)
    {
      hide Inv, MapOk, PartsOf, FreeEnd, FreeTags, PrevFree, PrevHole, MergeCh, OpenBook, TakeBook, SamePayload;
      hide TopIs, Working, LivePart, Holes, BinnedPart, PurgedBins;
      ghost var b0 := book;
      InvOf(this);
      AfterLive(mem, fastbins, book, p0);
      NoHoleBefore(book, p0);
      PrevTag(mem, fastbins, book, p0);
      HolesPart(book.ch);
      p, size := p0, size0;
      if At(mem, p0 + 4) % 2 == 0 {
        var prevsize := At(mem, p0);
        size := size0 + prevsize;
        p := p0 - prevsize;
        ghost var k := Unlink(p);
        TakeNeighbours(old(mem), fastbins, b0, b0.ch[p].kind.bin, k);
        HolesPart(book.ch);
        InvOf(this);
        OpenNeighbours(mem, fastbins, book, p0, p);
        OpenChunk(p0);
        InvOf(this);
        MergeNeighbours(mem, fastbins, book, p, p0);
        MergeChunks(p, p0);
      } else {
        OpenNeighbours(mem, fastbins, book, p0, p0);
        NotPurged(book, p0);
        OpenChunk(p0);
      }
      HolesPart(book.ch);
      PayloadLess(old(mem), mem, LivePart(b0.ch), p0);
    }

    /** Put the chunk in transit at the front of the unsorted list, with both its tags. */
    method PlaceUnsorted(p: int, size: int)
      requires Working() && InTransit(p, size) && Succ(book.ch, p) in book.ch && FreeEnd(mem, book.ch, p) && anyChunks
      modifies this`mem, this`book
      ensures Settled() && |old(book.bins)| == NBINS && book == PutBook(old(book), UNSORTED, 0, p)
      ensures var q := old(PartsOf(book.ch));
        PartsOf(book.ch) == q.(binned := q.binned[p := Entry(size, UNSORTED)], holes := {})
      ensures SamePayload(old(mem), mem, LivePart(book.ch))
      ensures TopIs(old(book.ch), top) ==> TopIs(book.ch, top)
      ensures book.fast == old(book.fast)
    {
      hide Inv, MapOk, FreeEnd, FreeTags, PrevFree, PrevHole, SamePayload, Retag, LivePart, FastPart, BinnedPart, Holes;
      hide TopOk, Total, AnyLimits, FastLimits, DeadPart, TopPart, Starts, TopIs, PutBook;
      ghost var m0 := mem;
      var bck := BinAt(UNSORTED);
      var fwd := Fd(mem, bck);
      mem := mem[p + 12 := bck];
      mem := mem[p + 8 := fwd];
      mem := mem[bck + 8 := p];
      mem := mem[fwd + 12 := p];
      mem := mem[p + 4 := size + PREV_INUSE];
      mem := mem[p + size := size];
      PlacedInv(m0, mem, fastbins, book, p, bck, fwd);
      PlacedTotals(m0, mem, book, p, top, fastChunks, binmap);
      HolesPart(book.ch);
      HolesPart(PutBook(book, UNSORTED, 0, p).ch);
      book := PutBook(book, UNSORTED, 0, p);
    }

    /** The chunk in transit borders top: the two become the new top. */
    method PlaceTop(p: int, size: int)
      requires Working() && InTransit(p, size) && TopIs(book.ch, p + size) && top == p + size
      modifies this`mem, this`book, this`top
      ensures Settled() && top == p && TopIs(book.ch, top)
      ensures PartsOf(book.ch) == old(PartsOf(book.ch)).(holes := {}, tops := TopPart(book.ch))
      ensures SamePayload(old(mem), mem, LivePart(book.ch))
      ensures book == old(book).(ch := SinkCh(old(book.ch), p, old(top)))
      ensures book.fast == old(book.fast)
    {
      hide Inv, MapOk, SinkCh, Total, LivePart, FastPart, BinnedPart, SamePayload;
      ghost var m0, b0 := mem, book;
      HeadRead(mem, fastbins, book, top);
      mem := mem[p + 4 := size + ChunkSize(At(mem, top + 4)) + PREV_INUSE];
      SinkIntoTop(m0, mem, fastbins, book, p, top);
      book := book.(ch := SinkCh(book.ch, p, top));
      top := p;
      HolesPart(book.ch);
    }

    /** Consolidate forward: take the free chunk after p off its list and swallow it. */
    method MergeForward(p: int, size: int, next: int, nextsize: int) returns (size': int)
      requires Working() && InTransit(p, size) && next == p + size
      requires next in book.ch && book.ch[next].kind.Binned? && nextsize == book.ch[next].size
      modifies this`mem, this`book
      ensures Working() && InTransit(p, size') && size' == size + nextsize
      ensures Succ(book.ch, p) in book.ch && FreeEnd(mem, book.ch, p)
      ensures var q := old(PartsOf(book.ch));
              PartsOf(book.ch) == q.(binned := q.binned - {next})
      ensures book.bins == PurgedBins(old(book.bins), old(book.ch), next)
      ensures SamePayload(old(mem), mem, LivePart(book.ch))
      ensures TopIs(old(book.ch), top) ==> TopIs(book.ch, top)
      ensures book.fast == old(book.fast)
    {
      hide Inv, MapOk, PartsOf, FreeEnd, FreeTags, PrevFree, PrevHole, MergeCh, TakeBook, SamePayload, TopIs, Working;
      hide Holes;
      ghost var b0 := book;
      InvOf(this);
      NextOfHole(mem, fastbins, book, p, next);
      ghost var k := Unlink(next);
      TakeAfter(old(mem), fastbins, b0, b0.ch[next].kind.bin, k, p);
      InvOf(this);
      MergeNeighbours(mem, fastbins, book, p, next);
      HolesPart(book.ch);
      MergeChunks(p, next);
      HolesPart(book.ch);
      HolesPart(b0.ch);
      assert {p} + {next} - {next} == {p};
      size' := size + nextsize;
    }

    /** Store the size word of the chunk after the hole p with PREV_INUSE clear. */
    method ClearNextInuse(p: int, size: int, next: int, nextsize: int)
      requires Working() && InTransit(p, size) && next == p + size && next in book.ch
        && nextsize == HeadSize(book.ch[next])
      modifies this`mem
      ensures Working() && InTransit(p, size)
      ensures mem == old(mem)[next + 4 := nextsize]
      ensures SamePayload(old(mem), mem, LivePart(book.ch))
      ensures !book.ch[next].kind.Binned? && !book.ch[next].kind.Top? ==> FreeEnd(mem, book.ch, p)
    {
      hide Inv, MapOk, SamePayload, LivePart, BinnedPart, FastPart;
      ghost var m0 := mem;
      NextOfHole(mem, fastbins, book, p, next);
      mem := mem[next + 4 := nextsize];
      ClearInv(m0, mem, fastbins, book, p);
      if !book.ch[next].kind.Binned? && !book.ch[next].kind.Top? {
        ClearedEnd(m0, book, p);
      }
    }

    /** The chunk in transit does not border top: merge it with the chunk behind if that is free, and queue it. */
    method PlaceFree(p: int, size: int, next: int, nextsize: int) returns (size': int)
      requires Working() && InTransit(p, size) && next == p + size && next in book.ch
        && nextsize == HeadSize(book.ch[next]) && anyChunks && TopIs(book.ch, top) && next != top
      modifies this`mem, this`book
      ensures Settled() && TopIs(book.ch, top)
      ensures size' == size + if old(book.ch)[next].kind.Binned? then old(book.ch)[next].size else 0
      ensures var q := old(PartsOf(book.ch));
              var binned := if old(book.ch)[next].kind.Binned? then q.binned - {next} else q.binned;
              PartsOf(book.ch) == q.(binned := binned[p := Entry(size', UNSORTED)], holes := {})
      ensures |old(book.bins)| == NBINS
      ensures var bins := PurgedBins(old(book.bins), old(book.ch), next);
              |bins| == NBINS && book.bins == bins[UNSORTED := [p] + bins[UNSORTED]]
      ensures SamePayload(old(mem), mem, LivePart(book.ch)) && book.fast == old(book.fast)
    {
      hide Inv, MapOk, PartsOf, FreeEnd, FreeTags, PrevFree, PrevHole, SamePayload, Working, Holes, PutBook, LivePart;
      hide PurgedBins, BinnedPart;
      ghost var m0, b0, live := mem, book, LivePart(book.ch);
      size' := size;
      InvOf(this);
      MapOkBins(binmap, book.bins);
      NotTop(book.ch, top, next);
      NextOfHole(mem, fastbins, book, p, next);
      NextInuse(mem, fastbins, book, next);
      HolesPart(book.ch);
      PurgedLength(book.bins, book.ch, next);
      var nextinuse := At(mem, next + nextsize + 4) % 2;
      ClearNextInuse(p, size, next, nextsize);
      ghost var m2 := mem;
      if nextinuse == 0 {
        size' := MergeForward(p, size, next, nextsize);
        HolesPart(book.ch);
      } else {
        InvOf(this);
        AfterLive(mem, fastbins, book, p);
        NotPurged(book, next);
        PayloadOfSame(mem, live);
      }
      ghost var m3 := mem;
      PutFirst(book, p);
      PlaceUnsorted(p, size');
      HolesPart(book.ch);
      KeepPayload(m0, m2, m3, live);
      KeepPayload(m0, m3, mem, live);
    }

    /** free's consolidation, also done by malloc_consolidate: merge the chunk with its free
        neighbours, then either queue the result on the unsorted list or let top absorb it. */
    method Coalesce(p0: int, size0: int) returns (size: int)
      requires Settled() && p0 in book.ch && book.ch[p0].kind.Live? && size0 == book.ch[p0].size && anyChunks
      modifies this`mem, this`book, this`top
      ensures Settled() && TopIs(book.ch, top)
      ensures var q := old(PartsOf(book.ch));
              PartsOf(book.ch) == q.(live := q.live - {p0}, binned := PartsOf(book.ch).binned,
                tops := PartsOf(book.ch).tops)
      ensures !BordersTop(old(book.ch), p0) ==> TopPart(book.ch) == old(TopPart(book.ch))
      ensures Isolated(old(mem), old(book.ch), p0) ==>
                FreedAlone(old(BinnedPart(book.ch)), BinnedPart(book.ch), p0, size0, p0 + size0 == old(top))
      ensures BinnedPart(book.ch) == FreedPart(old(book.ch), p0) && book.bins == FreedBins(old(book), p0)
      ensures size == MergeEnd(old(book.ch), p0) - MergeStart(old(book.ch), p0)
      ensures top == if BordersTop(old(book.ch), p0) then MergeStart(old(book.ch), p0) else old(top)
      ensures SamePayload(old(mem), mem, LivePart(book.ch))
      ensures book.fast == old(book.fast)
    {
      hide Inv, MapOk, PartsOf, FreeEnd, FreeTags, PrevFree, PrevHole, SamePayload, Working, Holes, PutBook, SinkCh;
      hide LivePart, MergeStart, MergeEnd, FreedPart, FreedBins, PurgedBins, BordersTop;
      ghost var b0 := book;
      TopIsOf(this, p0);
      InvOf(this);
      AfterLive(mem, fastbins, book, p0);
      MapOkBins(binmap, book.bins);
      FreedCases(book, p0, top);
      NoHoleAfter(book, p0 + size0);
      HeadRead(mem, fastbins, book, p0 + size0);
      HolesPart(book.ch);
      var nextchunk := p0 + size0;
      var nextsize := ChunkSize(At(mem, nextchunk + 4));
      var p;
      p, size := MergeBackward(p0, size0);
      HolesPart(book.ch);
      ghost var m1, live, b1 := mem, LivePart(book.ch), book;
      PurgedSame(b1.bins, b0.ch, b1.ch, nextchunk);
      if nextchunk != top {
        size := PlaceFree(p, size, nextchunk, nextsize);
      } else {
        PlaceTop(p, size);
        size := size + nextsize;
      }
      HolesPart(book.ch);
      KeepPayload(old(mem), m1, mem, live);
    }

    /** Take the whole chain off fastbin i and consolidate its chunks one by one. */
    method ConsolidateBin(i: int)
      requires Settled() && 0 <= i < NFASTBINS && (anyChunks || forall p :: p !in FastPart(book.ch))
      modifies this`mem, this`book, this`top, this`fastbins
      ensures Settled() && |old(book.fast)| == NFASTBINS && book.fast == old(book.fast)[i := []]
      ensures LivePart(book.ch) == old(LivePart(book.ch)) && DeadPart(book.ch) == old(DeadPart(book.ch))
        && Starts(book.ch) == old(Starts(book.ch))
      ensures forall q :: q in FastPart(book.ch) ==> q in old(FastPart(book.ch))
      ensures SpaceOf(book) == ChainJoined(old(SpaceOf(book)), old(book.fast)[i], 8 * i + 16)
      ensures SamePayload(old(mem), mem, LivePart(book.ch))
    {
      hide Inv, MapOk, PartsOf, SamePayload, LivePart, FastPart, BinnedPart, DeadPart, TopPart, Starts, Holes, Total,
        FastLimits;
      hide Pending, SpaceOf, Joined, Sized, FreedPart, FreedBins, MergeStart, MergeEnd, BordersTop, Isolated, TopIs;
      ghost var b0, m0, live0 := book, mem, LivePart(book.ch);
      FastHead(mem, fastbins, book, i);
      PayloadOfSame(mem, live0);
      var p := fastbins[i];
      if p != 0 {
        ghost var b1 := Detach(mem, fastbins, book, i);
        PendingStart(mem, fastbins, book, b1, i);
        DetachedLimits(book, b1, i, maxFast);
        TopIsOf(this, p);
        DetachedSpace(book, b1, i, top);
        DetachedSized(mem, fastbins, book, b1, i);
        ghost var rest := book.fast[i];
        AnyFast(fastbins, mem, book, i);
        fastbins := fastbins[i := 0];
        book := b1;
        while p != 0
          invariant Settled() && anyChunks && p == Link(rest, 0)
          invariant Pending(mem, book.ch, rest, live0)
          invariant book.fast == b0.fast[i := []] && DeadPart(book.ch) == DeadPart(b0.ch)
            && Starts(book.ch) == Starts(b0.ch)
          invariant forall q :: q in FastPart(book.ch) ==> q in FastPart(b0.ch)
          invariant TopIs(book.ch, top) && Sized(LivePart(book.ch), rest, 8 * i + 16)
          invariant ChainJoined(SpaceOf(book), rest, 8 * i + 16) == ChainJoined(SpaceOf(b0), b0.fast[i], 8 * i + 16)
          invariant SamePayload(m0, mem, live0)
          decreases |rest|
        {
          PendingHead(mem, fastbins, book, rest, live0);
          ghost var b2, m2, t2 := book, mem, top;
          SizedHead(book.ch, rest, 8 * i + 16);
          InvOf(this);
          var nextp := Fd(mem, p);
          var size := ChunkSize(At(mem, p + 4));
          HolesPart(book.ch);
          size := Coalesce(p, size);
          HolesPart(book.ch);
          FreedIsJoined(m2, fastbins, b2, p, t2, book, top);
          PendingStep(m2, mem, fastbins, b2, book.ch, rest, live0);
          SizedTail(LivePart(b2.ch), rest, 8 * i + 16);
          KeepPayload(m0, m2, mem, live0);
          rest := rest[1..];
          p := nextp;
        }
        PendingHead(mem, fastbins, book, rest, live0);
        PendingDone(mem, book.ch, live0);
      }
    }

    /** malloc_init_state: circular links for every bin, and top standing for "no memory yet". */
    method InitState()
      requires Unborn()
      modifies this`mem, this`maxFast, this`top
      ensures Settled() && FlagOk(FastPart(book.ch), fastChunks) && !anyChunks && !fastChunks
      ensures LivePart(book.ch) == old(LivePart(book.ch)) && book == old(book)
      ensures SamePayload(old(mem), mem, LivePart(book.ch))
    {
      EmptyTotal();
      EmptyWords();
      for i := 1 to NBINS
        invariant forall j {:trigger BinAt(j)} :: 1 <= j < i ==>
          Fd(mem, BinAt(j)) == BinAt(j) && Bk(mem, BinAt(j)) == BinAt(j)
        invariant At(mem, BinAt(UNSORTED) + 4) == 0
      {
        var bin := BinAt(i);
        mem := mem[bin + 12 := bin];
        mem := mem[bin + 8 := bin];
      }
      EmptyInv(mem, fastbins);
      maxFast := Request2Size(DEFAULT_MXFAST);
      top := BinAt(UNSORTED);
    }

    /** malloc_consolidate: empty every fastbin, or initialise on the first call. */
    method MallocConsolidate()
      requires Valid()
      modifies this
      ensures Settled() && FlagOk(FastPart(book.ch), fastChunks)
      ensures forall p :: p !in FastPart(book.ch)
      ensures !fastChunks && anyChunks == old(anyChunks) && sbrkedMem == old(sbrkedMem)
        && lastRemainder == old(lastRemainder) && answers == old(answers)
      ensures if old(maxFast) != 0 then maxFast == old(maxFast) else book == old(book)
      ensures LivePart(book.ch) == old(LivePart(book.ch)) && DeadPart(book.ch) == old(DeadPart(book.ch))
        && Starts(book.ch) == old(Starts(book.ch))
      ensures old(maxFast) != 0 ==> SpaceOf(book) == FastJoined(old(SpaceOf(book)), old(book.fast), 0)
      ensures SamePayload(old(mem), mem, LivePart(book.ch))
    {
      hide Inv, MapOk, SamePayload, LivePart, FastPart, BinnedPart, DeadPart, TopPart, Starts, Holes, Total, SpaceOf,
        FastJoined, ChainJoined;
      if maxFast != 0 {
        ghost var m0, live0, space0, fast0 := mem, LivePart(book.ch), SpaceOf(book), book.fast;
        PayloadOfSame(mem, live0);
        FastHead(mem, fastbins, book, 0);
        fastChunks := false;
        var maxfb := FastIndex(maxFast);
        var fb := 0;
        while true
          invariant Settled() && !fastChunks && 0 <= fb <= maxfb < NFASTBINS && maxfb == FastIndex(maxFast)
          invariant anyChunks || forall p :: p !in FastPart(book.ch)
          invariant maxFast == old(maxFast) && anyChunks == old(anyChunks)
          invariant sbrkedMem == old(sbrkedMem) && lastRemainder == old(lastRemainder) && answers == old(answers)
          invariant LivePart(book.ch) == live0 && DeadPart(book.ch) == old(DeadPart(book.ch))
            && Starts(book.ch) == old(Starts(book.ch))
          invariant |book.fast| == NFASTBINS && forall i :: 0 <= i < fb ==> book.fast[i] == []
          invariant FastJoined(SpaceOf(book), book.fast, fb) == FastJoined(space0, fast0, 0)
          invariant SamePayload(m0, mem, live0)
          decreases maxfb - fb
        {
          ghost var m1, space1, fast1 := mem, SpaceOf(book), book.fast;
          ConsolidateBin(fb);
          FastStep(space1, SpaceOf(book), fast1, fb);
          KeepPayload(m0, m1, mem, live0);
          if fb == maxfb {
            break;
          }
          fb := fb + 1;
        }
        NoFastLeft(mem, fastbins, book, maxFast);
        NoFastLists(mem, fastbins, book);
        FastNone(SpaceOf(book), book.fast, maxfb + 1);
      } else {
        EmptyTotal();
        InitState();
      }
    }

    /** Push a small chunk on its fastbin; its neighbours still see it as in use. */
    method FastPush(p: int, size: int)
      requires Settled() && p in book.ch && book.ch[p].kind.Live? && size == book.ch[p].size && size <= maxFast
      modifies this`mem, this`book, this`fastbins, this`anyChunks, this`fastChunks
      ensures Settled() && fastChunks && anyChunks
      ensures LivePart(book.ch) == old(LivePart(book.ch)) - {p} && DeadPart(book.ch) == old(DeadPart(book.ch))
        && Starts(book.ch) == old(Starts(book.ch)) && TopPart(book.ch) == old(TopPart(book.ch))
      ensures BinnedPart(book.ch) == old(BinnedPart(book.ch))
      ensures 0 <= FastIndex(size) < |old(book.fast)| && book == PushBook(old(book), FastIndex(size), p)
      ensures SamePayload(old(mem), mem, LivePart(book.ch))
    {
      hide Inv, MapOk, SamePayload, LivePart, BinnedPart, FastPart, Holes, DeadPart, TopPart, Starts, Total, PushBook;
      ghost var m0 := mem;
      AfterLive(mem, fastbins, book, p);
      FastIndexRange(size);
      fastChunks, anyChunks := true, true;
      var idx := FastIndex(size);
      FastHead(mem, fastbins, book, idx);
      PushInv(m0, mem[p + 8 := fastbins[idx]], fastbins, book, idx, p);
      PushTotals(book, idx, p);
      mem := mem[p + 8 := fastbins[idx]];
      fastbins := fastbins[idx := p];
      book := PushBook(book, idx, p);
    }

    /** free: null is ignored; a small chunk goes to its fastbin, a larger one is consolidated. */
    method Free(m: int)
      requires Valid() && (m == 0 || m - 8 in LivePart(book.ch))
      modifies this
      ensures Valid()
      ensures m != 0 ==> Settled()
      ensures LivePart(book.ch) == if m == 0 then old(LivePart(book.ch)) else old(LivePart(book.ch)) - {m - 8}
      ensures DeadPart(book.ch) == old(DeadPart(book.ch)) && Starts(book.ch) == old(Starts(book.ch))
        && sbrkedMem == old(sbrkedMem)
      ensures m != 0 && !old(fastChunks) && Isolated(old(mem), old(book.ch), m - 8) ==>
                var size := old(LivePart(book.ch))[m - 8];
                FreedAlone(old(BinnedPart(book.ch)), BinnedPart(book.ch), m - 8, size,
                  size <= old(maxFast) || m - 8 + size == old(top))
      ensures m != 0 && old(LivePart(book.ch))[m - 8] <= old(maxFast) ==>
                m - 8 in old(book.ch) && 0 <= FastIndex(old(LivePart(book.ch))[m - 8]) < |old(book.fast)|
                  && maxFast == old(maxFast)
                && book == PushBook(old(book), FastIndex(old(LivePart(book.ch))[m - 8]), m - 8)
      ensures m != 0 && old(LivePart(book.ch))[m - 8] > old(maxFast) ==> m - 8 in old(book.ch) && anyChunks
      ensures m != 0 && old(LivePart(book.ch))[m - 8] > old(maxFast) ==>
                if LargeSpace(old(book.ch), m - 8) then !fastChunks && forall p :: p !in FastPart(book.ch)
                else
                  FastPart(book.ch) == old(FastPart(book.ch)) && book.fast == old(book.fast)
                    && fastChunks == old(fastChunks)
      ensures m != 0 && old(LivePart(book.ch))[m - 8] > old(maxFast)
              && !(LargeSpace(old(book.ch), m - 8) && old(fastChunks)) ==>
                BinnedPart(book.ch) == FreedPart(old(book.ch), m - 8) && book.bins == FreedBins(old(book), m - 8)
      ensures m != 0 && old(LivePart(book.ch))[m - 8] > old(maxFast) && LargeSpace(old(book.ch), m - 8)
              && old(fastChunks) ==>
                SpaceOf(book) ==
                  FastJoined(Joined(old(SpaceOf(book)), m - 8, old(LivePart(book.ch))[m - 8]), old(book.fast), 0)
      ensures m != 0 && old(LivePart(book.ch))[m - 8] > old(maxFast) && !BordersTop(old(book.ch), m - 8)
              && !(LargeSpace(old(book.ch), m - 8) && old(fastChunks)) ==>
                top == old(top) && TopPart(book.ch) == old(TopPart(book.ch))
      ensures m != 0 && old(LivePart(book.ch))[m - 8] <= old(maxFast) ==>
                top == old(top) && TopPart(book.ch) == old(TopPart(book.ch))
      ensures maxFast == old(maxFast) && lastRemainder == old(lastRemainder) && answers == old(answers)
      ensures SamePayload(old(mem), mem, LivePart(book.ch))
    {
      hide Inv, MapOk, SamePayload, LivePart, BinnedPart, FastPart, Holes, DeadPart, TopPart, Starts, Total, PartsOf,
        Isolated;
      hide FreedPart, FreedBins, MergeStart, MergeEnd, BordersTop, SpaceOf, Joined, FastJoined, TopIs;
      PayloadOfSame(mem, LivePart(book.ch));
      if m != 0 {
        LiveChunk(book.ch, m - 8);
        var p := m - 8;
        HeadRead(mem, fastbins, book, p);
        var size := ChunkSize(At(mem, p + 4));
        if size <= maxFast {
          FastPush(p, size);
        } else {
          anyChunks := true;
          HolesPart(book.ch);
          TopIsOf(this, p);
          ghost var m0, b0, t0 := mem, book, top;
          size := Coalesce(p, size);
          HolesPart(book.ch);
          FreedIsJoined(m0, fastbins, b0, p, t0, book, top);
          if size >= FASTBIN_CONSOLIDATION_THRESHOLD {
            if fastChunks {
              ghost var m1 := mem;
              MallocConsolidate();
              KeepPayload(old(mem), m1, mem, LivePart(book.ch));
            }
          }
        }
      }
    }

    /** Hand out the whole of a chunk just taken off its list: only the in-use bit behind it changes. */
    method TakeWhole(p: int, size: int)
      requires Working() && InTransit(p, size) && Succ(book.ch, p) in book.ch && FreeTags(mem, book.ch, p)
      modifies this`mem, this`book
      ensures Settled()
      ensures PartsOf(book.ch) == old(PartsOf(book.ch)).(live := old(LivePart(book.ch))[p := size], holes := {})
      ensures SamePayload(old(mem), mem, old(LivePart(book.ch)))
      ensures book.bins == old(book.bins) && book.fast == old(book.fast)
      ensures TopIs(old(book.ch), top) ==> TopIs(book.ch, top)
      ensures At(mem, p + 4) % 2 == PREV_INUSE
    {
      hide Inv, MapOk, FreeTags, PrevFree, PrevHole, SamePayload, LivePart, FastPart, BinnedPart, Total;
      ghost var m0 := mem;
      var w := At(mem, p + size + 4);
      mem := mem[p + size + 4 := w - w % 2 + PREV_INUSE];
      FreeHead(m0, mem, fastbins, book, p, w - w % 2 + PREV_INUSE);
      WholeInv(m0, mem, fastbins, book, p, w);
      RetagCensus(book.ch, p, Live);
      CloseCensus(book.ch, p);
      book := CloseBook(book, p);
    }

    /** Hand out the first nb bytes of a chunk taken off its list; the remainder becomes the only
        chunk of the unsorted list, whose header is overwritten, so that list must be empty. */
    method SplitVictim(p: int, size: int, nb: int)
      requires Working() && InTransit(p, size) && Succ(book.ch, p) in book.ch && FreeTags(mem, book.ch, p)
      requires nb % 8 == 0 && MINSIZE <= nb && nb + MINSIZE <= size && anyChunks
      requires |book.bins| == NBINS && book.bins[UNSORTED] == []
      modifies this`mem, this`book
      ensures Settled()
      ensures var q := old(PartsOf(book.ch));
              PartsOf(book.ch) == q.(live := q.live[p := nb],
                binned := q.binned[p + nb := Entry(size - nb, UNSORTED)], holes := {})
      ensures SamePayload(old(mem), mem, old(LivePart(book.ch)))
      ensures book.fast == old(book.fast) && book.bins == old(book.bins)[UNSORTED := [p + nb]]
      ensures TopIs(old(book.ch), top) ==> TopIs(book.ch, top)
      ensures At(mem, p + 4) % 2 == PREV_INUSE
    {
      hide Inv, MapOk, FreeTags, PrevFree, PrevHole, SamePayload, LivePart, FastPart, BinnedPart, Total, SplitBook;
      hide TopIs, PartsOf, Holes, SplitStores, CanSplit;
      ghost var m0 := mem;
      HolesPart(book.ch);
      SplitReady(book.ch, p, nb);
      SplitHead(mem, p, nb, size - nb);
      var remainderSize := size - nb;
      var remainder := p + nb;
      mem := SplitStores(mem, p, nb, remainderSize);
      ListedOf(m0, fastbins, book);
      SplitOffInv(m0, mem, fastbins, book, p, nb);
      SplitTotals(book, p, nb, top);
      MapOkUnsorted(binmap, book.bins, [remainder]);
      NotEmpty(book.ch, p);
      HolesPart(SplitBook(book, p, nb).ch);
      book := SplitBook(book, p, nb);
    }


    /** Where a free chunk of this size goes in its bin: at the front of a small bin; in a large bin, last
        if no larger than the last one, and otherwise before the first chunk that is not larger. */
    method FindSlot(p: int, i: int, size: int) returns (bck: int, fwd: int, ghost k: int)
      requires Working() && InTransit(p, size) && Succ(book.ch, p) in book.ch && FreeTags(mem, book.ch, p)
      requires 2 <= i < NBINS && BinIndex.BinIndex(size) == i && size % 8 == 0 && size >= MINSIZE
      ensures |book.bins| == NBINS && FitsAt(BinnedPart(book.ch), book.bins[i], i, k, size)
      ensures bck == Node(BinAt(i), book.bins[i], k - 1) && fwd == Node(BinAt(i), book.bins[i], k)
      ensures SlotAmongEquals(BinnedPart(book.ch), book.bins[i], k, size)
    {
      hide Inv, MapOk, FreeTags, PrevFree, PrevHole, BinnedPart, FastPart, Total, Holes, TopOk, FitsAt;
      RingHead(mem, fastbins, book, i);
      ghost var s, bp := book.bins[i], BinnedPart(book.ch);
      bck := BinAt(i);
      fwd := Fd(mem, bck);
      k := 0;
      BinWalk(mem, fastbins, book, i, 0);
      if InSmallRange(size) {
        if 0 < |s| {
          BinOrder(mem, fastbins, book, i, 0, 0);
          BinSizes(mem, fastbins, book, s[0]);
          SmallBinSizes(size, bp[s[0]].size);
        }
        FitsIf(mem, fastbins, book, i, 0, size);
      } else if fwd != bck {
        var last := Bk(mem, bck);
        BinWalk(mem, fastbins, book, i, |s| - 1);
        BinnedHead(mem, fastbins, book, p, last);
        if size < At(mem, last + 4) {
          fwd := bck;
          bck := last;
          k := |s|;
        } else {
          var tagged := size + PREV_INUSE;
          BinnedHead(mem, fastbins, book, p, fwd);
          while tagged < At(mem, fwd + 4)
            invariant 0 <= k < |s| && fwd == s[k] && fwd in bp && At(mem, fwd + 4) == bp[fwd].size + PREV_INUSE
            invariant k > 0 ==> s[k - 1] in bp && bp[s[k - 1]].size > size
            decreases |s| - k
          {
            BinWalk(mem, fastbins, book, i, k);
            BinWalk(mem, fastbins, book, i, k + 1);
            fwd := Fd(mem, fwd);
            k := k + 1;
            BinnedHead(mem, fastbins, book, p, fwd);
          }
          BinWalk(mem, fastbins, book, i, k);
          bck := Bk(mem, fwd);
        }
        FitsIf(mem, fastbins, book, i, k, size);
        SlotIf(mem, fastbins, book, i, k, size);
      } else {
        FitsIf(mem, fastbins, book, i, 0, size);
      }
    }

    /** Move the chunk in transit to its bin and mark the bin. */
    method PlaceInBin(p: int, size: int) returns (ghost k: int)
      requires Working() && InTransit(p, size) && Succ(book.ch, p) in book.ch && FreeTags(mem, book.ch, p)
      requires size % 8 == 0 && size >= MINSIZE && anyChunks
      modifies this`mem, this`book, this`binmap
      ensures Settled() && 2 <= BinIndex.BinIndex(size) < NBINS
      ensures |old(book.bins)| == NBINS && 0 <= k <= |old(book.bins)[BinIndex.BinIndex(size)]|
      ensures book == PutBook(old(book), BinIndex.BinIndex(size), k, p)
      ensures SlotAmongEquals(old(BinnedPart(book.ch)), old(book.bins)[BinIndex.BinIndex(size)], k, size)
      ensures PartsOf(book.ch) ==
        old(PartsOf(book.ch)).(binned := old(BinnedPart(book.ch))[p := Entry(size, BinIndex.BinIndex(size))],
          holes := {})
      ensures SamePayload(old(mem), mem, LivePart(book.ch)) && book.fast == old(book.fast)
      ensures |book.bins| == NBINS == |old(book.bins)| && forall i :: 1 <= i < NBINS && i != BinIndex.BinIndex(size) ==>
        book.bins[i] == old(book.bins)[i]
      ensures TopIs(old(book.ch), top) ==> TopIs(book.ch, top)
    {
      hide Inv, MapOk, FreeTags, PrevFree, PrevHole, BinnedPart, FastPart, LivePart, Total, FitsAt, SamePayload;
      hide Retag, MarkBin, BinIndexBits, HighestBit, BinIndex.BinIndex;
      ghost var m0 := mem;
      BinIndexRange(size);
      MapOkBins(binmap, book.bins);
      ChunkBound(mem, fastbins, book, p);
      BitsAreIndex(size);
      var i := BinIndexBits(size);
      var bck, fwd;
      bck, fwd, k := FindSlot(p, i, size);
      binmap := MarkBin(binmap, i);
      mem := mem[p + 12 := bck];
      mem := mem[p + 8 := fwd];
      mem := mem[bck + 8 := p];
      mem := mem[fwd + 12 := p];
      InsertedInv(m0, fastbins, book, i, k, p, bck, fwd);
      RetagCensus(book.ch, p, Binned(i));
      PutCensus(book.ch, p, i);
      SlotRange(BinnedPart(book.ch), book.bins[i], i, k, size);
      MapOkWith(old(binmap), book.bins, i, With(book.bins[i], k, p));
      book := PutBook(book, i, k, p);
    }

    /** Unlink a chunk for allocation: it is in transit, its tags intact. */
    method TakeOff(p: int) returns (ghost k: int)
      requires Settled() && p in book.ch && book.ch[p].kind.Binned?
      modifies this`mem, this`book
      ensures Working() && InTransit(p, old(book.ch)[p].size) && Succ(book.ch, p) in book.ch
        && FreeTags(mem, book.ch, p)
      ensures 1 <= old(book.ch[p].kind.bin) < NBINS == |old(book.bins)|
      ensures 0 <= k < |old(book.bins)[old(book.ch[p].kind.bin)]|
      ensures var i := old(book.ch[p].kind.bin);
              old(book.bins)[i][k] == p && book.bins == old(book.bins)[i := Without(old(book.bins)[i], k)]
                && book.fast == old(book.fast)
      ensures var q := old(PartsOf(book.ch)); PartsOf(book.ch) == q.(binned := q.binned - {p}, holes := {p})
      ensures SamePayload(old(mem), mem, LivePart(book.ch))
      ensures TopIs(book.ch, top)
    {
      hide Inv, MapOk, PartsOf, FreeEnd, FreeTags, PrevFree, PrevHole, SamePayload, Working, LivePart, Holes, Retag;
      hide Without;
      ghost var b0 := book;
      InvOf(this);
      HolesPart(book.ch);
      k := Unlink(p);
      TakeNeighbours(old(mem), fastbins, b0, b0.ch[p].kind.bin, k);
      HolesPart(book.ch);
      InvOf(this);
      AfterLive(mem, fastbins, book, p);
      TransitNext(book, p, Succ(book.ch, p));
    }

    /** One chunk off the unsorted queue: hand it out, split or whole, or file it in its bin. */
    method SortOne(victim: int, nb: int) returns (done: bool, ghost how: Outcome)
      requires Settled() && anyChunks && nb % 8 == 0 && MINSIZE <= nb
      requires victim in book.ch && book.ch[victim].kind == Binned(UNSORTED) && |book.bins| == NBINS
      requires victim == Bk(mem, BinAt(UNSORTED))
      modifies this`mem, this`book, this`binmap, this`lastRemainder
      ensures Settled() && TopIs(book.ch, top) && |book.bins| == NBINS
      ensures FastPart(book.ch) == old(FastPart(book.ch)) && DeadPart(book.ch) == old(DeadPart(book.ch))
        && Starts(book.ch) == old(Starts(book.ch))
      ensures SamePayload(old(mem), mem, old(LivePart(book.ch)))
      ensures done ==> Taken(old(LivePart(book.ch)), LivePart(book.ch), victim, nb)
      ensures done ==> (how.LastRemainder? || how.ExactUnsorted?) && At(mem, victim + 4) % 2 == PREV_INUSE
      ensures var u := old(book.bins)[UNSORTED]; u != [] && victim == u[|u| - 1]
      ensures if nb < MIN_LARGE_SIZE && |old(book.bins)[UNSORTED]| == 1 && old(lastRemainder) == victim
          && old(book.ch)[victim].size > nb + MINSIZE then done && how.LastRemainder?
        else if old(book.ch)[victim].size == nb then done && how.ExactUnsorted?
        else !done
      ensures done && how.ExactUnsorted? ==> LivePart(book.ch)[victim] == nb
      ensures lastRemainder == if done && how.LastRemainder? then victim + nb else old(lastRemainder)
      ensures !done ==> LivePart(book.ch) == old(LivePart(book.ch)) && TopPart(book.ch) == old(TopPart(book.ch))
      ensures !done ==>
        SameFree(old(BinnedPart(book.ch)), BinnedPart(book.ch))
          && book.bins[UNSORTED] == old(book.bins)[UNSORTED][..|old(book.bins)[UNSORTED]| - 1]
          && book.fast == old(book.fast)
      ensures !done && nb < MIN_LARGE_SIZE ==> 2 <= nb / 8 < NBINS && book.bins[nb / 8] == old(book.bins)[nb / 8]
    {
      hide Inv, MapOk, PartsOf, FreeTags, PrevFree, PrevHole, SamePayload, Working, LivePart, FastPart, BinnedPart;
      hide DeadPart, TopPart, Starts, Holes, Without, SameFree, Taken;
      ghost var m0, live0, bp0 := mem, LivePart(book.ch), BinnedPart(book.ch);
      InvOf(this);
      HolesPart(book.ch);
      BinnedNotLive(book.ch, victim);
      BinSizes(mem, fastbins, book, victim);
      HeadRead(mem, fastbins, book, victim);
      NoHolesHere(this);
      LastOf(mem, fastbins, book, UNSORTED);
      ghost var b0 := book;
      if book.bins[UNSORTED] == [victim] {
        AloneUnsorted(mem, fastbins, book, victim);
      }
      var bck := Bk(mem, victim);
      var size := ChunkSize(At(mem, victim + 4));
      if InSmallRange(nb) && bck == BinAt(UNSORTED) && victim == lastRemainder && size > nb + MINSIZE {
        OnlyUnsorted(mem, fastbins, book, victim);
        ghost var k := TakeOff(victim);
        TakenLast(m0, fastbins, b0, UNSORTED, k, victim);
        HolesPart(book.ch);
        ghost var m1 := mem;
        SplitVictim(victim, size, nb);
        HolesPart(book.ch);
        lastRemainder := victim + nb;
        KeepPayload(m0, m1, mem, live0);
        TakenNow(live0, victim, nb, nb);
        return true, LastRemainder;
      }
      ghost var k := TakeOff(victim);
      TakenLast(m0, fastbins, b0, UNSORTED, k, victim);
      HolesPart(book.ch);
      ghost var m1 := mem;
      if size == nb {
        TakeWhole(victim, size);
        HolesPart(book.ch);
        KeepPayload(m0, m1, mem, live0);
        TakenNow(live0, victim, nb, size);
        return true, ExactUnsorted;
      }
      ghost var slot := PlaceInBin(victim, size);
      HolesPart(book.ch);
      KeepPayload(m0, m1, mem, live0);
      SameFreeMoved0(bp0, victim, BinIndex.BinIndex(size));
      OtherBin(size, nb);
      return false, Refused;
    }

    /** Process recently freed and remaindered chunks, oldest first, until one is taken or none is left. */
    method DrainUnsorted(nb: int) returns (victim: int, ghost how: Outcome)
      requires Settled() && anyChunks && nb % 8 == 0 && MINSIZE <= nb
      requires nb < MIN_LARGE_SIZE ==> |book.bins| == NBINS && book.bins[nb / 8] == []
      modifies this`mem, this`book, this`binmap, this`lastRemainder
      ensures Settled()
      ensures FastPart(book.ch) == old(FastPart(book.ch)) && DeadPart(book.ch) == old(DeadPart(book.ch))
        && Starts(book.ch) == old(Starts(book.ch))
      ensures SamePayload(old(mem), mem, old(LivePart(book.ch)))
      ensures victim != 0 ==>
        Taken(old(LivePart(book.ch)), LivePart(book.ch), victim, nb) && (how.LastRemainder? || how.ExactUnsorted?)
      ensures victim != 0 ==> At(mem, victim + 4) % 2 == PREV_INUSE
      ensures victim != 0 && how.LastRemainder? ==>
        nb < MIN_LARGE_SIZE && old(lastRemainder) == victim && NoneExact(old(BinnedPart(book.ch)), nb)
      ensures victim != 0 && how.ExactUnsorted? ==>
        LivePart(book.ch)[victim] == nb && BestFitting(old(BinnedPart(book.ch)), victim, nb)
      ensures victim != 0 ==> how == ListChoice(old(Now()), nb) && ChosenFrom(old(Now()), nb, how, victim)
      ensures victim == 0 ==> !ExactHit(old(Now()), nb) && !RemainderHit(old(Now()), nb)
      ensures lastRemainder == if victim != 0 && how.LastRemainder? then victim + nb else old(lastRemainder)
      ensures victim == 0 ==> LivePart(book.ch) == old(LivePart(book.ch)) && TopPart(book.ch) == old(TopPart(book.ch))
      ensures victim == 0 ==>
        |book.bins| == NBINS && book.bins[UNSORTED] == [] && SameFree(old(BinnedPart(book.ch)), BinnedPart(book.ch))
          && book.fast == old(book.fast)
      ensures victim == 0 && nb < MIN_LARGE_SIZE ==> book.bins[nb / 8] == []
    {
      hide Inv, MapOk, PartsOf, SamePayload, Working, LivePart, FastPart, BinnedPart, DeadPart, TopPart, Starts,
        Holes, SameFree;
      hide Taken, TopIs, NoneBehind, ExactHit, RemainderHit, ListChoice, ChosenFrom, SmallHit, UnsortedOf;
      hide SplitsRemainder;
      ghost var m0, live0, bp0, s0 := mem, LivePart(book.ch), BinnedPart(book.ch), Now();
      InvOf(this);
      PayloadOfSame(mem, live0);
      MapOkBins(binmap, book.bins);
      ghost var n := |book.bins[UNSORTED]|;
      DrainStart(s0, nb);
      RingHead(mem, fastbins, book, UNSORTED);
      SameFreeOfSame(bp0);
      how := Refused;
      while true
        invariant Settled() && |book.bins| == NBINS
        invariant FastPart(book.ch) == old(FastPart(book.ch)) && DeadPart(book.ch) == old(DeadPart(book.ch))
          && Starts(book.ch) == old(Starts(book.ch))
        invariant LivePart(book.ch) == live0 && SamePayload(m0, mem, live0) && SameFree(bp0, BinnedPart(book.ch))
        invariant lastRemainder == old(lastRemainder) && (nb < MIN_LARGE_SIZE ==> book.bins[nb / 8] == [])
        invariant TopPart(book.ch) == old(TopPart(book.ch)) && book.fast == old(book.fast)
        invariant 0 <= n <= |UnsortedOf(s0)| && book.bins[UNSORTED] == UnsortedOf(s0)[..n] && NoneBehind(s0, n, nb)
        invariant n == 0 ==> !RemainderHit(s0, nb)
        decreases |book.bins[UNSORTED]|
      {
        InvOf(this);
        LastOf(mem, fastbins, book, UNSORTED);
        ghost var m1, bp1 := mem, BinnedPart(book.ch);
        victim := Bk(mem, BinAt(UNSORTED));
        if victim == BinAt(UNSORTED) {
          NoExactHit(s0, nb);
          return 0, Refused;
        }
        ghost var b1 := book;
        SizeKept(bp0, b1.ch, victim);
        var done;
        done, how := SortOne(victim, nb);
        SplitsIf(s0, n, victim, b1.ch[victim].size, nb);
        if done {
          DrainFound(s0, n, victim, b1.ch[victim].size, nb, how);
        } else {
          DrainPassed(s0, n, victim, b1.ch[victim].size, nb);
        }
        n := n - 1;
        if done && how.LastRemainder? {
          NoExactFit(m1, fastbins, b1, victim, nb, bp0);
        } else if done {
          ExactNow(b1.ch, victim, nb);
          ExactIsBest(bp0, bp1, victim, nb);
        }
        KeepPayload(m0, m1, mem, live0);
        if done {
          return;
        }
        SameFreeTransitive(bp0, bp1, BinnedPart(book.ch));
      }
    }

    /** A false alarm: the bin is empty, so its bit is cleared, in the word just read and in memory. */
    method ClearMark(block: int, bit: nat, ghost i: int) returns (map_: nat)
      requires Settled() && BitOf(bit, block, i) && 2 <= i < NBINS && i < 32 * block + 32 && |book.bins| == NBINS
        && book.bins[i] == []
      modifies this`binmap
      ensures Settled() && 0 <= block <= 3 && |binmap| == BINMAPSIZE + 1 && map_ == binmap[block]
      ensures |old(binmap)| == BINMAPSIZE + 1 && bit > 0
        && binmap == old(binmap)[block := Unmarked(old(binmap)[block], bit)]
    {
      hide Inv, MapOk, Holes, Total, FastPart, BinnedPart, Unmarked, FastLimits, AnyLimits;
      MapOkBins(binmap, book.bins);
      BitRange(bit, block, i);
      UnmarkOk(binmap, book.bins, block, bit, i);
      map_ := Unmarked(binmap[block], bit);
      binmap := binmap[block := map_];
    }

    /** Skip the blocks of the map in which nothing is marked. */
    method NextBlock(block0: int, ghost idx: int) returns (block: int)
      requires Settled() && 0 < block0 <= 4 && idx <= 32 * block0 && AllEmpty(book.bins, idx, 32 * block0)
      ensures block0 <= block <= 4 && AllEmpty(book.bins, idx, 32 * block)
      ensures |binmap| == BINMAPSIZE + 1 && (block < BINMAPSIZE ==> binmap[block] != 0)
    {
      hide Inv, MapOk, Holes, Total, FastPart, BinnedPart, TopOk, AllEmpty, Working;
      InvOf(this);
      MapOkBins(binmap, book.bins);
      block := block0;
      while block < BINMAPSIZE && binmap[block] == 0
        invariant block0 <= block <= 4 && AllEmpty(book.bins, idx, 32 * block)
      {
        BlockEmpty(binmap, book.bins, block);
        AllEmptyJoin(book.bins, idx, 32 * block, 32 * block + 32);
        block := block + 1;
      }
    }

    /** The bitmap scan: the first non-empty bin from idx on, clearing the bits of bins found empty. */
    method ScanBins(idx: int) returns (bin: int, ghost i: int)
      requires Settled() && 2 <= idx <= NBINS
      modifies this`binmap
      ensures Settled() && |book.bins| == NBINS
      ensures bin == 0 ==> AllEmpty(book.bins, idx, NBINS)
      ensures bin != 0 ==> idx <= i < NBINS && bin == BinAt(i) && book.bins[i] != [] && AllEmpty(book.bins, idx, i)
    {
      hide Inv, MapOk, Holes, Total, FastPart, BinnedPart, TopOk, Bit, AllEmpty, BitOf, Masked, Unmarked, Pow2;
      hide ShlBit, Working;
      InvOf(this);
      i := idx;
      bin := BinAt(idx);
      var block := Idx2Block(idx);
      var bit := Idx2Bit(idx);
      ScanStart(binmap, book.bins, idx);
      var map_ := binmap[block];
      while true
        invariant Settled() && |book.bins| == NBINS && |binmap| == BINMAPSIZE + 1 && idx <= i
        invariant BitOf(bit, block, i) && 0 <= block <= 3 && map_ == binmap[block] && bin == BinAt(i) && i <= 128
        invariant AllEmpty(book.bins, idx, i)
        decreases 128 - i
      {
        InvOf(this);
        BitRange(bit, block, i);
        if bit > map_ || bit == 0 {
          RestEmpty(binmap, book.bins, bit, block, i);
          AllEmptyJoin(book.bins, idx, i, 32 * block + 32);
          block := NextBlock(block + 1, idx);
          if block >= BINMAPSIZE {
            AllEmptyPrefix(book.bins, idx, 32 * block, NBINS);
            return 0, NBINS;
          }
          map_ := binmap[block];
          i := 32 * block;
          bin := BinAt(32 * block);
          bit := 1;
          FirstBit(block);
        }
        MapOkBins(binmap, book.bins);
        ghost var j := MarkedAbove(map_, bit, block, i);
        while Masked(map_, bit) == 0
          modifies {}
          invariant bit > 0 && BitOf(bit, block, i) && idx <= i <= j < 32 * block + 32 && bin == BinAt(i)
            && Bit(map_, j - 32 * block)
          invariant AllEmpty(book.bins, idx, i)
          decreases j - i
        {
          UnmarkedEmpty(binmap, book.bins, bit, block, i);
          AllEmptyJoin(book.bins, idx, i, i + 1);
          NextBit(bit, block, i);
          bin := bin + 8;
          bit := ShlBit(bit);
          i := i + 1;
          BitPositive(bit, block, i);
        }
        InvOf(this);
        MarkedInRange(binmap, book.bins, map_, bit, block, i);
        LastOf(mem, fastbins, book, i);
        var victim := Bk(mem, bin);
        if victim == bin {
          map_ := ClearMark(block, bit, i);
          OneEmpty(book.bins, i);
          AllEmptyJoin(book.bins, idx, i, i + 1);
          NextBit(bit, block, i);
          bin := bin + 8;
          bit := ShlBit(bit);
          i := i + 1;
        } else {
          return;
        }
      }
    }

    /** Scan the bin of a large request from its smallest chunk up. */
    method ScanLarge(nb: int) returns (victim: int)
      requires Settled() && nb % 8 == 0 && MIN_LARGE_SIZE <= nb < ADDRESS_LIMIT
      ensures |book.bins| == NBINS && 2 <= BinIndex.BinIndex(nb) < NBINS
      ensures victim == 0 ==> BinTooSmall(BinnedPart(book.ch), book.bins[BinIndex.BinIndex(nb)], nb)
      ensures victim != 0 ==> BestInBin(BinnedPart(book.ch), book.bins[BinIndex.BinIndex(nb)], victim, nb)
    {
      hide Inv, MapOk, Holes, Total, FastPart, BinnedPart, TopOk, FastLimits, AnyLimits;
      BinIndexRange(nb);
      BitsAreIndex(nb);
      var idx := BinIndexBits(nb);
      RingHead(mem, fastbins, book, idx);
      ghost var s, bp := book.bins[idx], BinnedPart(book.ch);
      ghost var k := |s| - 1;
      var bin := BinAt(idx);
      victim := Bk(mem, bin);
      BinWalk(mem, fastbins, book, idx, k);
      while victim != bin
        invariant -1 <= k < |s| && victim == Node(bin, s, k) && (k >= 0 ==> HEAP_BASE <= victim)
        invariant forall j :: k < j < |s| ==> s[j] in bp && bp[s[j]].size < nb
        decreases k
      {
        BinWalk(mem, fastbins, book, idx, k);
        BinSizes(mem, fastbins, book, victim);
        NoHoleAfter(book, victim);
        HeadRead(mem, fastbins, book, victim);
        var size := ChunkSize(At(mem, victim + 4));
        if size >= nb {
          FirstIsBest(mem, fastbins, book, idx, k, nb);
          return;
        }
        victim := Bk(mem, victim);
        k := k - 1;
        BinWalk(mem, fastbins, book, idx, k);
      }
      AllTooSmall(bp, s, nb);
      victim := 0;
    }

    /** Unlink a chunk that fits and hand it out: whole if the rest would be too small, split otherwise. */
    method TakeFitting(victim: int, nb: int)
      requires Settled() && anyChunks && victim in BinnedPart(book.ch) && BinnedPart(book.ch)[victim].size >= nb
      requires nb % 8 == 0 && nb >= MINSIZE && |book.bins| == NBINS && book.bins[UNSORTED] == []
      modifies this`mem, this`book, this`lastRemainder
      ensures Settled()
      ensures FastPart(book.ch) == old(FastPart(book.ch)) && DeadPart(book.ch) == old(DeadPart(book.ch))
        && Starts(book.ch) == old(Starts(book.ch))
      ensures SamePayload(old(mem), mem, old(LivePart(book.ch)))
      ensures Taken(old(LivePart(book.ch)), LivePart(book.ch), victim, nb) && At(mem, victim + 4) % 2 == PREV_INUSE
      ensures LivePart(book.ch)[victim] ==
        if old(BinnedPart(book.ch))[victim].size < nb + MINSIZE then old(BinnedPart(book.ch))[victim].size else nb
      ensures lastRemainder ==
        if old(BinnedPart(book.ch))[victim].size >= nb + MINSIZE && nb < MIN_LARGE_SIZE then victim + nb
        else old(lastRemainder)
    {
      hide Inv, MapOk, PartsOf, FreeTags, PrevFree, PrevHole, SamePayload, Working, LivePart, FastPart, BinnedPart;
      hide DeadPart, TopPart, Starts, Holes, Without, Taken;
      ghost var m0, live0 := mem, LivePart(book.ch);
      InvOf(this);
      HolesPart(book.ch);
      BinSizes(mem, fastbins, book, victim);
      BinnedNotLive(book.ch, victim);
      BinnedWhere(mem, fastbins, book, victim);
      NoHoleAfter(book, victim);
      HeadRead(mem, fastbins, book, victim);
      var size := ChunkSize(At(mem, victim + 4));
      var remainderSize := size - nb;
      ghost var k := TakeOff(victim);
      HolesPart(book.ch);
      ghost var m1 := mem;
      if remainderSize < MINSIZE {
        TakeWhole(victim, size);
        TakenNow(live0, victim, nb, size);
      } else {
        SplitVictim(victim, size, nb);
        if InSmallRange(nb) {
          lastRemainder := victim + nb;
        }
        TakenNow(live0, victim, nb, nb);
      }
      HolesPart(book.ch);
      KeepPayload(m0, m1, mem, live0);
    }

    /** use_top: split the chunk that borders the end of memory, if what is left is still a chunk. */
    method UseTop(nb: int) returns (victim: int)
      requires Settled() && nb % 8 == 0 && nb >= MINSIZE
      modifies this`mem, this`book, this`top
      ensures Settled()
      ensures FastPart(book.ch) == old(FastPart(book.ch)) && BinnedPart(book.ch) == old(BinnedPart(book.ch))
      ensures DeadPart(book.ch) == old(DeadPart(book.ch)) && Starts(book.ch) == old(Starts(book.ch))
        && book.bins == old(book.bins)
      ensures SamePayload(old(mem), mem, old(LivePart(book.ch)))
      ensures victim == 0 ==> book == old(book) && mem == old(mem) && top == old(top)
      ensures victim != 0 <==> old(TopServes(book.ch, top, nb))
      ensures victim == 0 ==> !TopServes(book.ch, top, nb)
      ensures victim != 0 ==>
        Taken(old(LivePart(book.ch)), LivePart(book.ch), victim, nb) && LivePart(book.ch)[victim] == nb
      ensures victim != 0 ==> At(mem, victim + 4) % 2 == PREV_INUSE
      ensures victim != 0 ==> victim == old(top) && TopCarved(old(book.ch), old(top), book.ch, top, nb)
    {
      hide Inv, MapOk, PartsOf, SamePayload, LivePart, FastPart, BinnedPart, DeadPart, TopPart, Starts, Holes, Total,
        TopOk,
        TopIs;
      hide TopCarved;
      hide CarveCh, Taken, TopServes, AnyLimits, FastLimits, ChunkSize, At, Retag, CanCarve;
      ghost var m0, live0 := mem, LivePart(book.ch);
      PayloadOfSame(mem, live0);
      TopRead(mem, fastbins, book, top);
      HolesPart(book.ch);
      victim := top;
      var size := ChunkSize(At(mem, victim + 4));
      if size >= nb + MINSIZE {
        TopLong(mem, fastbins, book, top, nb);
        CanCarveTop(book.ch, top, nb);
        var remainderSize := size - nb;
        var remainder := victim + nb;
        top := remainder;
        mem := mem[victim + 4 := nb + PREV_INUSE];
        mem := mem[remainder + 4 := remainderSize + PREV_INUSE];
        CarvedInv(m0, mem, fastbins, book, victim, nb);
        CarvedBit(m0, mem, victim, nb, remainderSize);
        TopCarvedNow(book.ch, victim, nb);
        book := CloseBook(book.(ch := CarveCh(book.ch, victim, nb)), victim);
        HolesPart(book.ch);
        TopOkNow(mem, book.ch, top);
        TakenNow(live0, victim, nb, nb);
      } else {
        TopShort(mem, fastbins, book, top, nb);
        victim := 0;
      }
    }

    /** MORECORE. Its contract is what callers rely on; this body is the always-failing system that
        satisfies it, standing for whatever the kernel supplies. */
    method MoreCore(size: int) returns (brk: int, snd: int)
      requires size > 0 && size % PAGESIZE == 0
      modifies this`answers
      ensures answers == old(answers) + [Answer(size, brk, snd)]
      ensures brk == MORECORE_FAILURE || Granted(book.ch, top, size, brk, snd)
    {
      brk, snd := MORECORE_FAILURE, MORECORE_FAILURE;
      answers := answers + [Answer(size, brk, snd)];
    }

    /** The new memory continues top: top grows. */
    method GrowTop(size: int)
      requires Settled() && TopIs(book.ch, top) && 0 <= size
        && FreshSpace(book.ch, top + book.ch[top].size, top + book.ch[top].size + size)
      modifies this`mem, this`book, this`sbrkedMem
      ensures Settled() && sbrkedMem == old(sbrkedMem) + size
      ensures PartsOf(book.ch) == old(PartsOf(book.ch)).(tops := TopPart(book.ch))
      ensures TopHas(book.ch, top, old(book.ch)[top].size + size)
      ensures SamePayload(old(mem), mem, old(LivePart(book.ch)))
    {
      hide Inv, MapOk, PartsOf, SamePayload, LivePart, FastPart, BinnedPart, Total, GrowCh, TopIs, FreshSpace;
      ghost var m0 := mem;
      TopRead(mem, fastbins, book, top);
      HolesPart(book.ch);
      var oldSize := ChunkSize(At(mem, top + 4));
      sbrkedMem := sbrkedMem + size;
      mem := mem[top + 4 := size + oldSize + PREV_INUSE];
      GrownInv(m0, mem, fastbins, book, top, size);
      GrownTop(book.ch, top, size);
      book := book.(ch := GrowCh(book.ch, top, size));
      HolesPart(book.ch);
    }

    /** The new memory lies elsewhere: it becomes top, and fenceposts end the old one. What is left
        of the old top, if it is a chunk at all, is in use at the end, ready to be freed. */
    method SwitchTop(brk: int, snd: int, size: int) returns (rest: int)
      requires Settled() && FreshSpace(book.ch, brk, snd) && MINSIZE <= snd - brk && brk % 8 == 0
      modifies this`mem, this`book, this`top, this`sbrkedMem
      ensures Settled() && top == brk && TopIs(book.ch, top) && TopHas(book.ch, top, snd - brk)
      ensures rest != 0 ==> rest - 8 in book.ch && !BordersTop(book.ch, rest - 8)
      ensures old(book.ch) == map[] ==> rest == 0
      ensures sbrkedMem == old(sbrkedMem) + snd - brk
      ensures BinnedPart(book.ch) == old(BinnedPart(book.ch)) && FastPart(book.ch) == old(FastPart(book.ch))
      ensures rest == 0 || (rest - 8 in LivePart(book.ch) && LivePart(book.ch) - {rest - 8} == old(LivePart(book.ch)))
      ensures rest == 0 ==> LivePart(book.ch) == old(LivePart(book.ch))
      ensures rest != 0 ==> old(top) in old(book.ch) && LivePart(book.ch)[rest - 8] == old(book.ch)[old(top)].size - 16
      ensures rest != 0 ==> old(book.ch)[old(top)].kind.Top? && Isolated(mem, book.ch, rest - 8)
      ensures fastChunks == old(fastChunks) && SamePayload(old(mem), mem, old(LivePart(book.ch)))
    {
      hide Inv, MapOk, PartsOf, SamePayload, LivePart, FastPart, BinnedPart, Total, TopIs, FreshSpace, SwitchBook;
      hide FencedBook, RegionCh, Holes, Isolated, TopOk, TopHas, BordersTop, FenceStores, AnyLimits, FastLimits;
      ghost var m0, b0 := mem, book;
      TopRead(mem, fastbins, book, top);
      HolesPart(book.ch);
      var oldTop := top;
      var oldSize := ChunkSize(At(mem, oldTop + 4));
      sbrkedMem := sbrkedMem + size;
      sbrkedMem := sbrkedMem + (snd - brk - size);
      top := brk;
      mem := mem[brk + 4 := snd - brk + PREV_INUSE];
      rest := 0;
      if oldSize != 0 {
        TopNot(m0, b0, oldTop);
        mem := FenceStores(mem, oldTop, oldSize);
        Switched(m0, fastbins, b0, oldTop, brk, snd - brk);
        book := SwitchBook(b0, oldTop, brk, snd - brk);
        if oldSize - 16 >= MINSIZE {
          rest := oldTop + 8;
        }
      } else {
        FirstRegion(m0, mem, fastbins, b0, brk, snd - brk);
        FirstTop(b0, brk, snd - brk);
        book := b0.(ch := RegionCh(b0.ch, brk, snd - brk));
      }
      HolesPart(book.ch);
      TopOkNow(mem, book.ch, top);
    }

    /** Change over to the new memory, and free what is left of the old top; that is too small for the request. */
    method NewRegion(brk: int, snd: int, size: int, ghost nb: int)
      requires Settled() && FreshSpace(book.ch, brk, snd) && MINSIZE <= snd - brk && brk % 8 == 0
      requires FlagOk(FastPart(book.ch), fastChunks) && !fastChunks && NoneFits(BinnedPart(book.ch), nb)
        && !TopServes(book.ch, top, nb)
      modifies this
      ensures Settled() && FlagOk(FastPart(book.ch), fastChunks) && NoneFits(BinnedPart(book.ch), nb)
      ensures LivePart(book.ch) == old(LivePart(book.ch)) && SamePayload(old(mem), mem, old(LivePart(book.ch)))
      ensures top == brk && TopHas(book.ch, top, snd - brk) && answers == old(answers)
        && lastRemainder == old(lastRemainder)
      ensures old(book.ch) == map[] ==> anyChunks == old(anyChunks)
    {
      hide Inv, MapOk, PartsOf, SamePayload, LivePart, FastPart, BinnedPart, Holes, Total, FreshSpace, Working;
      hide TopIs, Isolated, NoneFits, FreedAlone, TopPart, BordersTop, LargeSpace, FlagOk;
      ghost var m0, live0 := mem, LivePart(book.ch);
      var rest := SwitchTop(brk, snd, size);
      ghost var m1 := mem;
      if rest != 0 {
        ghost var bp1, size1, maxFast1, top1 := BinnedPart(book.ch), LivePart(book.ch)[rest - 8], maxFast, top;
        Free(rest);
        KeepPayload(m0, m1, mem, live0);
        NoneFitsAdded(bp1, BinnedPart(book.ch), rest - 8, size1, size1 <= maxFast1 || rest - 8 + size1 == top1, nb);
        StillFlagged(this);
      }
    }

    /** Ask the system for nb bytes and more; top becomes or stays the place to take them from. */
    method ExtendHeap(nb: int) returns (ok: bool)
      requires Settled() && FlagOk(FastPart(book.ch), fastChunks) && nb % 8 == 0 && MINSIZE <= nb <= ADDRESS_LIMIT - 24
      requires !fastChunks && NoneFits(BinnedPart(book.ch), nb) && !TopServes(book.ch, top, nb)
      modifies this
      ensures Settled() && FlagOk(FastPart(book.ch), fastChunks) && NoneFits(BinnedPart(book.ch), nb)
      ensures LivePart(book.ch) == old(LivePart(book.ch)) && SamePayload(old(mem), mem, old(LivePart(book.ch)))
      ensures !ok ==> book == old(book) && mem == old(mem) && top == old(top)
      ensures ok && old(book.ch) == map[] ==> TopAtLeast(book.ch, top, PAGESIZE) && anyChunks == old(anyChunks)
      ensures AskedFor(old(book.ch), old(top), old(answers), answers, nb, TopServes(book.ch, top, nb))
      ensures TopServes(book.ch, top, nb) ==> ok
      ensures ok ==> |answers| > |old(answers)| && top == TopFrom(old(book.ch), old(top), answers[|old(answers)|])
      ensures lastRemainder == old(lastRemainder) && (!ok ==> !fastChunks) && (ok ==> !NoMemory(old(answers), answers))
    {
      hide At, ChunkSize, Inv, MapOk, PartsOf, SamePayload, LivePart, FastPart, BinnedPart, Holes, Total, FreshSpace;
      hide Granted, MoreCoreRequest, TopIs, NoneFits, TopServes, FlagOk, Working, AskedFor, TopPart, TopHas,
        NoMemory;
      InvOf(this);
      ghost var m0, live0 := mem, LivePart(book.ch);
      PayloadOfSame(mem, live0);
      MoreCoreRequestCovers(nb);
      TopRead(mem, fastbins, book, top);
      HolesPart(book.ch);
      var oldSize := ChunkSize(At(mem, top + 4));
      var brk, snd := MORECORE_FAILURE, MORECORE_FAILURE;
      var size := MoreCoreRequest(nb);
      ghost var ch0, t0, a0 := book.ch, top, answers;
      TopEnd(ch0, t0);
      PagesAligned(if size > 0 then size else 0);
      if size > 0 {
        brk, snd := MoreCore(size);
      } else {
        NotAsked(ch0, t0, a0, nb);
      }
      if brk == MORECORE_FAILURE {
        if size > 0 {
          AskedNow(ch0, t0, t0 + oldSize, a0, answers, nb, size, brk, snd);
        }
        return false;
      }
      GrantedSpace(mem, fastbins, book, top, size, brk, snd);
      SomeMemory(a0, answers, Answer(size, brk, snd));
      AskedNow(ch0, t0, t0 + oldSize, a0, answers, nb, size, brk, snd);
      if brk == top + oldSize {
        GrowTop(size);
        HolesPart(book.ch);
        TopHasServes(book.ch, top, oldSize + size, nb);
      } else {
        NewRegion(brk, snd, size, nb);
        TopHasServes(book.ch, top, snd - brk, nb);
      }
      return true;
    }

    /** A request that fits a fastbin takes the most recently freed chunk of exactly that size. */
    method FastTake(nb: int) returns (victim: int)
      requires Settled() && FlagOk(FastPart(book.ch), fastChunks) && nb % 8 == 0 && MINSIZE <= nb <= maxFast
      modifies this`fastbins, this`book
      ensures Settled() && FlagOk(FastPart(book.ch), fastChunks)
      ensures BinnedPart(book.ch) == old(BinnedPart(book.ch)) && mem == old(mem)
      ensures 0 <= FastIndex(nb) < |old(book.fast)| && victim == Link(old(book.fast)[FastIndex(nb)], 0)
      ensures (victim != 0 <==> old(FastServes(nb))) && (victim != 0 ==> victim == old(fastbins)[FastIndex(nb)])
      ensures victim == 0 ==> book == old(book) && fastbins == old(fastbins) && book.fast[FastIndex(nb)] == []
      ensures victim != 0 ==> victim in old(FastPart(book.ch)) && victim % 8 == 0 && victim > 0 && fastChunks
      ensures victim != 0 ==> Taken(old(LivePart(book.ch)), LivePart(book.ch), victim, nb)
      ensures victim != 0 ==> victim in LivePart(book.ch) && LivePart(book.ch)[victim] == nb
    {
      hide Inv, MapOk, PartsOf, LivePart, FastPart, BinnedPart, Holes, Total, TopIs, PopBook, FlagOk;
      ghost var b0, live0 := book, LivePart(book.ch);
      FastIndexRange(nb);
      var idx := FastIndex(nb);
      FastHead(mem, fastbins, book, idx);
      victim := fastbins[idx];
      if victim != 0 {
        FastShape(mem, fastbins, book, victim);
        PopInv(mem, fastbins, book, idx);
        PopTotals(book, idx, victim);
        FastSizeOf(book.ch[victim].size, nb);
        HolesPart(book.ch);
        FlagIsSet(FastPart(book.ch), victim, fastChunks);
        FlagAfterPop(FastPart(book.ch), victim, fastChunks);
        fastbins := fastbins[idx := Fd(mem, victim)];
        book := PopBook(book, idx);
        HolesPart(book.ch);
        TakenNow(live0, victim, nb, nb);
      }
    }

    /** A small bin holds chunks of one size only: its oldest chunk fits exactly. */
    method SmallTake(nb: int) returns (victim: int)
      requires Settled() && nb % 8 == 0 && MINSIZE <= nb < MIN_LARGE_SIZE
      modifies this`mem, this`book
      ensures Settled()
      ensures FastPart(book.ch) == old(FastPart(book.ch)) && SamePayload(old(mem), mem, old(LivePart(book.ch)))
      ensures victim == 0 ==> book == old(book) && mem == old(mem) && |book.bins| == NBINS && book.bins[nb / 8] == []
      ensures victim != 0 ==>
        Taken(old(LivePart(book.ch)), LivePart(book.ch), victim, nb) && victim % 8 == 0 && victim > 0
      ensures victim != 0 ==> BestFitting(old(BinnedPart(book.ch)), victim, nb) && At(mem, victim + 4) % 2 == PREV_INUSE
      ensures victim != 0 ==>
        |old(book.bins)| == NBINS && var s := old(book.bins)[nb / 8]; s != [] && victim == s[|s| - 1]
    {
      hide Inv, MapOk, PartsOf, FreeTags, PrevFree, PrevHole, SamePayload, Working, LivePart, FastPart, BinnedPart;
      hide DeadPart, TopPart, Starts, Holes, Without, Taken, BestFitting;
      ghost var m0, live0, bp0 := mem, LivePart(book.ch), BinnedPart(book.ch);
      InvOf(this);
      PayloadOfSame(mem, live0);
      LastOf(mem, fastbins, book, nb / 8);
      victim := Bk(mem, BinAt(nb / 8));
      if victim == BinAt(nb / 8) {
        return 0;
      }
      HolesPart(book.ch);
      BinnedNotLive(book.ch, victim);
      InSmallBin(mem, fastbins, book, victim, nb);
      SameFreeOfSame(bp0);
      ExactIsBest(bp0, bp0, victim, nb);
      ghost var k := TakeOff(victim);
      HolesPart(book.ch);
      ghost var m1 := mem;
      TakeWhole(victim, nb);
      HolesPart(book.ch);
      KeepPayload(m0, m1, mem, live0);
      TakenNow(live0, victim, nb, nb);
    }

    /** Look for a best fit among the sorted bins: the request's own bin for a large request, then the
        bins above, whose every chunk is large enough. */
    method SearchBins(nb: int) returns (victim: int)
      requires Settled() && anyChunks && nb % 8 == 0 && MINSIZE <= nb < ADDRESS_LIMIT
      requires |book.bins| == NBINS && book.bins[UNSORTED] == [] && (nb < MIN_LARGE_SIZE ==> book.bins[nb / 8] == [])
      modifies this`mem, this`book, this`binmap, this`lastRemainder
      ensures Settled() && FastPart(book.ch) == old(FastPart(book.ch))
      ensures SamePayload(old(mem), mem, old(LivePart(book.ch)))
      ensures victim == 0 ==> book == old(book) && mem == old(mem) && NoneFits(BinnedPart(book.ch), nb)
      ensures victim != 0 ==>
        Taken(old(LivePart(book.ch)), LivePart(book.ch), victim, nb) && victim % 8 == 0 && victim > 0
      ensures victim != 0 ==> BestFitting(old(BinnedPart(book.ch)), victim, nb) && At(mem, victim + 4) % 2 == PREV_INUSE
      ensures victim != 0 ==> victim in old(BinnedPart(book.ch))
      ensures victim != 0 ==> LastOfBin(old(book), victim, nb)
      ensures lastRemainder ==
        if victim != 0 && old(BinnedPart(book.ch))[victim].size >= nb + MINSIZE && nb < MIN_LARGE_SIZE then victim + nb
        else old(lastRemainder)
    {
      hide Inv, MapOk, Working, SamePayload, LivePart, FastPart, BinnedPart, DeadPart, TopPart, Starts, Taken, AllEmpty,
        BinTooSmall;
      hide BestInBin, NoneFits, BestFitting, Holes, Total, TopIs, BinIndexBits, LastFitting, LastOfBin;
      ghost var bp := BinnedPart(book.ch);
      InvOf(this);
      BinIndexRange(nb);
      PayloadOfSame(mem, LivePart(book.ch));
      BitsAreIndex(nb);
      var idx := BinIndexBits(nb);
      victim := 0;
      if !InSmallRange(nb) {
        victim := ScanLarge(nb);
        if victim != 0 {
          ScanStart(binmap, book.bins, idx + 1);
          AllEmptyPrefix(book.bins, idx + 1, idx + 1, idx);
          BestFitOverall(mem, fastbins, book, nb, idx, victim);
        }
      } else {
        EmptyTooSmall(bp, book.bins[idx], nb);
      }
      if victim == 0 {
        var bin;
        ghost var i;
        bin, i := ScanBins(idx + 1);
        InvOf(this);
        if bin == 0 {
          NoneFitsOverall(mem, fastbins, book, nb);
          return 0;
        }
        NoHolesHere(this);
        LastOf(mem, fastbins, book, i);
        victim := Bk(mem, bin);
        LastIsBest(mem, fastbins, book, nb, i);
        BestFitOverall(mem, fastbins, book, nb, i, victim);
      }
      BestIn(bp, victim, nb);
      FoundInBin(book, victim, nb);
      ChunkShape(mem, fastbins, book, victim);
      TakeFitting(victim, nb);
    }

    /** sYSMALLOc: top cannot serve nb. Consolidate and start over if fastbins still hold chunks,
        else get memory from the system. The retry asks for nb - 7 bytes, which pads back to nb,
        and no fastchunks flag is left for it to find, so it happens at most once. */
    method SysMalloc(nb: int) returns (m: int, ghost how: Outcome, ghost from: Snapshot)
      requires Settled() && FlagOk(FastPart(book.ch), fastChunks) && nb % 8 == 0 && MINSIZE <= nb <= ADDRESS_LIMIT - 24
      requires (fastChunks ==> nb < MIN_LARGE_SIZE) && NoneFits(BinnedPart(book.ch), nb) && !TopServes(book.ch, top, nb)
      requires fastChunks ==> UnsortedIn(book.bins) == []
      modifies this
      ensures Valid() && SamePayload(old(mem), mem, old(LivePart(book.ch)))
      ensures m == 0 ==>
        LivePart(book.ch) == old(LivePart(book.ch)) && !TopServes(book.ch, top, nb) && NoneFits(BinnedPart(book.ch), nb)
      ensures m != 0 ==>
        Allocated(old(LivePart(book.ch)), LivePart(book.ch), m, nb) && At(mem, m - 4) % 2 == PREV_INUSE
          && !how.FromFastbin?
      ensures m != 0 && how.FromTop? ==> NoneFits(BinnedPart(book.ch), nb)
      ensures Explained(how, BinnedPart(from.book.ch), LivePart(book.ch), m, nb)
      ensures if old(fastChunks) then
                Consolidated(from, old(book)) && Ordered(from, old(book), [])
                  && Decided(from, nb, how, m, old(answers), answers)
        else from == old(Now()) && BySystem(old(book.ch), old(top), nb, how, m, old(answers), answers)
      ensures lastRemainder == RemainderAfter(from, nb, how, m - 8) && from.lastRemainder == old(lastRemainder)
      ensures m == 0 && NoMemory(old(answers), answers) ==> !fastChunks
      ensures old(book.ch) == map[] && !old(fastChunks) && m != 0 ==>
                anyChunks == old(anyChunks) && top == m - 8 + nb && TopAtLeast(book.ch, top, PAGESIZE - nb)
      decreases if fastChunks then 1 else 0, 0
    {
      hide Inv, Working, MapOk, PartsOf, SamePayload, LivePart, FastPart, BinnedPart, Holes, TopIs, Taken, NoneFits;
      hide FlagOk, Request2Size, Consolidated, Explained, TopServes, FastServes, TopCarved, TopAtLeast, Decided;
      hide AskedFor, Exhausted, DeadPart, TopPart, Starts, NoMemory, RemainderAfter, Ordered, SpaceOf, FastJoined,
        UnsortedIn, TopFrom;
      ghost var m0, live0 := mem, LivePart(book.ch);
      from := Now();
      TotalOf(this);
      PayloadOfSame(mem, live0);
      if fastChunks {
        FlagMeansBorn(this);
        MallocConsolidate();
        ghost var m1, from1 := mem, Now();
        ConsolidatedHere(this, old(book));
        OrderedNow(from1, old(book));
        PadsBack(nb);
        NoFastHead(this, nb);
        m, how, from := MAlloc(nb - MALLOC_ALIGN_MASK);
        KeepPayload(m0, m1, mem, live0);
        return;
      }
      SystemRemainder(from, nb);
      var ok := ExtendHeap(nb);
      if ok {
        ghost var m1, ch1, top1 := mem, book.ch, top;
        var victim := UseTop(nb);
        KeepPayload(m0, m1, mem, live0);
        if victim != 0 {
          NewBlock(this, live0, victim, nb);
          ServedBy(FromSystem, BinnedPart(from.book.ch), LivePart(book.ch), victim + 8, nb);
          TopLeft(ch1, top1, book.ch, top, nb, PAGESIZE);
          return victim + 8, FromSystem, from;
        }
      }
      ServedBy(Refused, BinnedPart(from.book.ch), LivePart(book.ch), 0, nb);
      return 0, Refused, from;
    }

    /** The loop of mALLOc: sort the unsorted list, and if that does not end the search, take the best fit. */
    method SortAndSearch(nb: int) returns (victim: int, ghost how: Outcome)
      requires Settled() && anyChunks && nb % 8 == 0 && MINSIZE <= nb < ADDRESS_LIMIT
      requires nb < MIN_LARGE_SIZE ==> |book.bins| == NBINS && book.bins[nb / 8] == []
      modifies this`mem, this`book, this`binmap, this`lastRemainder
      ensures victim != 0 ==> how == ListChoice(old(Now()), nb) && ChosenFrom(old(Now()), nb, how, victim)
      ensures victim != 0 ==> lastRemainder == RemainderAfter(old(Now()), nb, how, victim)
      ensures victim == 0 ==>
        ListChoice(old(Now()), nb).Refused? && lastRemainder == old(lastRemainder)
          && TopPart(book.ch) == old(TopPart(book.ch))
      ensures Settled() && FastPart(book.ch) == old(FastPart(book.ch))
        && SamePayload(old(mem), mem, old(LivePart(book.ch)))
      ensures victim != 0 ==> Allocated(old(LivePart(book.ch)), LivePart(book.ch), victim + 8, nb)
      ensures victim != 0 ==> how.LastRemainder? || how.ExactUnsorted? || how.BestFit?
      ensures victim != 0 ==> Explained(how, old(BinnedPart(book.ch)), LivePart(book.ch), victim + 8, nb)
      ensures victim != 0 ==> At(mem, victim + 4) % 2 == PREV_INUSE
      ensures victim == 0 ==>
        LivePart(book.ch) == old(LivePart(book.ch)) && SameFree(old(BinnedPart(book.ch)), BinnedPart(book.ch))
      ensures victim == 0 ==>
        DeadPart(book.ch) == old(DeadPart(book.ch)) && Starts(book.ch) == old(Starts(book.ch))
          && NoneFits(BinnedPart(book.ch), nb)
      ensures victim == 0 ==> UnsortedIn(book.bins) == [] && book.fast == old(book.fast)
    {
      hide Inv, Working, MapOk, PartsOf, SamePayload, LivePart, FastPart, BinnedPart, Holes, TopIs, Taken, NoneFits;
      hide BestFitting, NoneExact, SameFree, Allocated, DeadPart, TopPart, Starts;
      hide ListChoice, ChosenFrom, ExactHit, RemainderHit, SmallHit, RemainderAfter;
      ghost var m0, live0, avail, s0 := mem, LivePart(book.ch), BinnedPart(book.ch), Now();
      PayloadOfSame(mem, live0);
      InvOf(this);
      MapOkBins(binmap, book.bins);
      DrainStart(s0, nb);
      victim, how := DrainUnsorted(nb);
      KeepPayload(m0, m0, mem, live0);
      if victim != 0 {
        SplitRemainder(s0, nb, how, victim);
        NewBlock(this, live0, victim, nb);
        return;
      }
      ghost var m1, bp1 := mem, BinnedPart(book.ch);
      victim := SearchBins(nb);
      KeepPayload(m0, m1, mem, live0);
      BestOfSame(avail, bp1, victim, nb);
      if victim != 0 {
        NewBlock(this, live0, victim, nb);
        how := BestFit;
      }
      SearchDecided(s0, bp1, nb, victim, lastRemainder);
    }

    /** The bins that need no search: the fastbin of the request, and its small bin. */
    method TakeReady(nb: int) returns (victim: int, ghost how: Outcome)
      requires Settled() && FlagOk(FastPart(book.ch), fastChunks) && nb % 8 == 0 && MINSIZE <= nb < ADDRESS_LIMIT
      modifies this`mem, this`book, this`fastbins
      ensures Settled() && FlagOk(FastPart(book.ch), fastChunks) && SamePayload(old(mem), mem, old(LivePart(book.ch)))
      ensures victim != 0 ==> how.FromFastbin? || how.FromSmallbin?
      ensures victim != 0 && how.FromSmallbin? ==>
        how == ListChoice(old(Now()), nb) && ChosenFrom(old(Now()), nb, how, victim)
      ensures victim != 0 ==> Allocated(old(LivePart(book.ch)), LivePart(book.ch), victim + 8, nb)
      ensures victim != 0 ==> Explained(how, old(BinnedPart(book.ch)), LivePart(book.ch), victim + 8, nb)
      ensures victim != 0 ==> (how.FromFastbin? <==> old(FastServes(nb)))
      ensures victim != 0 ==> if how.FromFastbin? then fastChunks else At(mem, victim + 4) % 2 == PREV_INUSE
      ensures victim != 0 && how.FromFastbin? ==>
        victim == old(fastbins)[FastIndex(nb)] && mem == old(mem) && nb < MIN_LARGE_SIZE
      ensures victim == 0 ==> Now() == old(Now()) && !old(FastServes(nb))
      ensures victim == 0 && nb < MIN_LARGE_SIZE ==> |book.bins| == NBINS && book.bins[nb / 8] == []
    {
      hide Inv, Working, MapOk, PartsOf, SamePayload, LivePart, FastPart, BinnedPart, Holes, TopIs, Taken, NoneFits;
      hide FlagOk, BestFitting, NoneExact, Allocated, FastServes, ListChoice, ChosenFrom, SmallHit;
      ghost var s0, live0 := Now(), LivePart(book.ch);
      PayloadOfSame(mem, live0);
      FastNeeds(this, nb);
      FastSmall(this, nb);
      how, victim := FromFastbin, 0;
      if nb <= maxFast {
        victim := FastTake(nb);
        if victim != 0 {
          NewBlock(this, live0, victim, nb);
          return;
        }
      }
      if InSmallRange(nb) {
        victim := SmallTake(nb);
        if victim != 0 {
          NewBlock(this, live0, victim, nb);
          how := FromSmallbin;
          SmallDecided(s0, nb, victim);
        }
      }
    }

    /** mALLOc up to use_top, once something has been freed: fastbin, small bin, unsorted list, sorted bins.
        from is the heap the choice was made from: the one at the call, or for a large request, if fastbins
        held chunks, the consolidated one. */
    method TakeFree(nb: int) returns (victim: int, ghost how: Outcome, ghost from: Snapshot)
      requires Settled() && FlagOk(FastPart(book.ch), fastChunks) && anyChunks && nb % 8 == 0
        && MINSIZE <= nb < ADDRESS_LIMIT
      modifies this
      ensures Settled() && FlagOk(FastPart(book.ch), fastChunks) && SamePayload(old(mem), mem, old(LivePart(book.ch)))
      ensures victim == 0 ==> fastChunks == (old(fastChunks) && nb < MIN_LARGE_SIZE)
      ensures if old(fastChunks) && nb >= MIN_LARGE_SIZE then
                Consolidated(from, old(book)) && Ordered(from, old(book), UnsortedIn(old(book.bins)))
              else from == old(Now())
      ensures victim == 0 ==> UnsortedIn(book.bins) == [] && book.fast == from.book.fast
      ensures victim != 0 && !how.FromFastbin? ==> how == ListChoice(from, nb) && ChosenFrom(from, nb, how, victim)
      ensures victim == 0 ==>
        ListChoice(from, nb).Refused? && top == from.top && TopPart(book.ch) == TopPart(from.book.ch)
      ensures lastRemainder == if victim == 0 then old(lastRemainder) else RemainderAfter(from, nb, how, victim)
      ensures from.lastRemainder == old(lastRemainder) && answers == old(answers)
      ensures victim != 0 ==> Allocated(old(LivePart(book.ch)), LivePart(book.ch), victim + 8, nb)
      ensures victim != 0 ==> Explained(how, BinnedPart(from.book.ch), LivePart(book.ch), victim + 8, nb)
      ensures victim != 0 ==> !how.FromSystem? && !how.FromTop? && (how.FromFastbin? <==> old(FastServes(nb)))
      ensures victim != 0 ==> if how.FromFastbin? then old(fastChunks) else At(mem, victim + 4) % 2 == PREV_INUSE
      ensures victim != 0 && how.FromFastbin? ==> victim == old(fastbins)[FastIndex(nb)] && mem == old(mem)
      ensures victim == 0 ==>
        LivePart(book.ch) == old(LivePart(book.ch)) && DeadPart(book.ch) == old(DeadPart(book.ch))
          && Starts(book.ch) == old(Starts(book.ch))
      ensures victim == 0 ==> sbrkedMem == old(sbrkedMem) && SameFree(BinnedPart(from.book.ch), BinnedPart(book.ch))
      ensures victim == 0 ==> NoneFits(BinnedPart(book.ch), nb) && !old(FastServes(nb))
    {
      hide Inv, Working, MapOk, PartsOf, SamePayload, LivePart, FastPart, BinnedPart, Holes, TopIs, Taken, NoneFits;
      hide FlagOk, BestFitting, NoneExact, SameFree, Allocated, Consolidated, FastServes;
      hide ListChoice, ChosenFrom, TopPart, DeadPart, Starts, SmallHit, Explained, RemainderAfter, Ordered, SpaceOf,
        FastJoined, UnsortedIn;
      ghost var m0, live0 := mem, LivePart(book.ch);
      PayloadOfSame(mem, live0);
      from, how, victim := Now(), FromFastbin, 0;
      OtherRemainder(from, nb);
      TotalOf(this);
      SameFreeOfSame(BinnedPart(book.ch));
      victim, how := TakeReady(nb);
      if victim != 0 {
        LargeNotReady(from, nb, how);
        return;
      }
      if !InSmallRange(nb) && fastChunks {
        FlagMeansBorn(this);
        MallocConsolidate();
        ConsolidatedHere(this, old(book));
        from := Now();
        OrderedNow(from, old(book));
        SameFreeOfSame(BinnedPart(book.ch));
      }
      ghost var m1 := mem;
      victim, how := SortAndSearch(nb);
      KeepPayload(m0, m1, mem, live0);
    }

    /** From use_top on: take the block from the bottom of top, or from what the system supplies. */
    method TopOrSystem(nb: int) returns (m: int, ghost how: Outcome, ghost from: Snapshot)
      requires Settled() && FlagOk(FastPart(book.ch), fastChunks) && nb % 8 == 0 && MINSIZE <= nb <= ADDRESS_LIMIT - 24
      requires (fastChunks ==> nb < MIN_LARGE_SIZE && UnsortedIn(book.bins) == []) && NoneFits(BinnedPart(book.ch), nb)
      modifies this
      ensures Valid() && SamePayload(old(mem), mem, old(LivePart(book.ch)))
      ensures m == 0 ==>
        LivePart(book.ch) == old(LivePart(book.ch)) && !TopServes(book.ch, top, nb) && NoneFits(BinnedPart(book.ch), nb)
      ensures m != 0 ==>
        Allocated(old(LivePart(book.ch)), LivePart(book.ch), m, nb) && At(mem, m - 4) % 2 == PREV_INUSE
          && !how.FromFastbin?
      ensures m != 0 && how.FromTop? ==> NoneFits(BinnedPart(book.ch), nb)
      ensures Explained(how, BinnedPart(from.book.ch), LivePart(book.ch), m, nb)
      ensures old(TopServes(book.ch, top, nb)) ==>
        how.FromTop? && m != 0 && from == old(Now()) && answers == old(answers)
      ensures !old(TopServes(book.ch, top, nb)) ==>
                if old(fastChunks) then
                  Consolidated(from, old(book)) && Ordered(from, old(book), [])
                    && Decided(from, nb, how, m, old(answers), answers)
                else from == old(Now()) && BySystem(old(book.ch), old(top), nb, how, m, old(answers), answers)
      ensures lastRemainder == RemainderAfter(from, nb, how, m - 8) && from.lastRemainder == old(lastRemainder)
      ensures m == 0 && NoMemory(old(answers), answers) ==> !fastChunks
      ensures old(TopServes(book.ch, top, nb)) ==>
                m == old(top) + 8 && anyChunks == old(anyChunks) && TopCarved(old(book.ch), old(top), book.ch, top, nb)
      ensures old(book.ch) == map[] && !old(fastChunks) && m != 0 ==>
                anyChunks == old(anyChunks) && top == m - 8 + nb && TopAtLeast(book.ch, top, PAGESIZE - nb)
      decreases if fastChunks then 1 else 0, 1
    {
      hide Inv, Working, MapOk, PartsOf, SamePayload, LivePart, FastPart, BinnedPart, Holes, TopIs, Taken, NoneFits;
      hide FlagOk, Consolidated, FastServes, TopServes, Explained, DeadPart, TopPart, Starts, TopCarved, TopAtLeast;
      hide Decided, BySystem, NoMemory, RemainderAfter, Ordered, UnsortedIn;
      ghost var m0, live0, ch0, top0 := mem, LivePart(book.ch), book.ch, top;
      from := Now();
      SystemRemainder(from, nb);
      var victim := UseTop(nb);
      if victim != 0 {
        NewBlock(this, live0, victim, nb);
        m, how := victim + 8, FromTop;
        ServedBy(how, BinnedPart(from.book.ch), LivePart(book.ch), m, nb);
        TopLeft(ch0, top0, book.ch, top, nb, PAGESIZE);
        return;
      }
      ghost var m2 := mem;
      m, how, from := SysMalloc(nb);
      KeepPayload(m0, m2, mem, live0);
    }

    /** mALLOc before anything has been freed: initialise on the first call; no list has a chunk. */
    method BypassSearch(nb: int)
      requires Valid() && !anyChunks && nb % 8 == 0 && MINSIZE <= nb
      modifies this
      ensures Settled() && FlagOk(FastPart(book.ch), fastChunks) && !fastChunks && !anyChunks && book == old(book)
      ensures !old(FastServes(nb)) && !old(fastChunks)
      ensures ListChoice(old(Now()), nb).Refused? && TopAlike(old(book.ch), old(top), book.ch, top)
      ensures NoneFits(BinnedPart(book.ch), nb) && SamePayload(old(mem), mem, old(LivePart(book.ch)))
      ensures old(TopServes(book.ch, top, nb)) ==> top == old(top)
      ensures old(Unborn()) ==> book.ch == map[]
      ensures answers == old(answers) && lastRemainder == old(lastRemainder) && sbrkedMem == old(sbrkedMem)
    {
      hide Inv, Working, MapOk, PartsOf, SamePayload, LivePart, FastPart, BinnedPart, Holes, TopIs, NoneFits, FlagOk;
      hide FastServes, TopServes, DeadPart, TopPart, Starts, Total, ListChoice, TopAlike;
      ghost var s0 := Now();
      PayloadOfSame(mem, LivePart(book.ch));
      NothingFree(this);
      NoFastHead(this, nb);
      TopMeansBorn(this, nb);
      NothingListed(this, nb);
      if maxFast == 0 {
        MallocConsolidate();
      }
      TopAlikeBorn(s0, this);
      NothingFree(this);
      NoneFitsNone(BinnedPart(book.ch), nb);
    }

    /** mALLOc. from is the heap the choice was made from: the one at the call, or the same heap with its fastbins
        consolidated; for a small request the latter only if none of the free chunks fits it. */
    method MAlloc(bytes: int) returns (m: int, ghost how: Outcome, ghost from: Snapshot)
      requires Valid() && 0 <= bytes < ADDRESS_LIMIT
      modifies this
      ensures Valid() && SamePayload(old(mem), mem, old(LivePart(book.ch)))
      ensures m == 0 ==> LivePart(book.ch) == old(LivePart(book.ch))
      ensures m == 0 && bytes < REQUEST_LIMIT ==>
                !TopServes(book.ch, top, Request2Size(bytes)) && NoneFits(BinnedPart(book.ch), Request2Size(bytes))
      ensures m != 0 ==>
        bytes < REQUEST_LIMIT && Allocated(old(LivePart(book.ch)), LivePart(book.ch), m, Request2Size(bytes))
      ensures m != 0 && how.FromTop? ==> NoneFits(BinnedPart(book.ch), Request2Size(bytes))
      ensures bytes < REQUEST_LIMIT ==>
        Explained(how, BinnedPart(from.book.ch), LivePart(book.ch), m, Request2Size(bytes))
      ensures from == old(Now()) || (old(fastChunks) && Consolidated(from, old(book)))
      ensures bytes >= REQUEST_LIMIT || old(FastServes(Request2Size(bytes))) ==>
                from == old(Now()) && answers == old(answers)
      ensures bytes < REQUEST_LIMIT && old(FastServes(Request2Size(bytes))) ==> how.FromFastbin? && m != 0
      ensures bytes < REQUEST_LIMIT && !old(FastServes(Request2Size(bytes))) ==>
                Chosen(old(Now()), old(fastChunks), from, Request2Size(bytes), how, m, old(answers), answers)
      ensures bytes < REQUEST_LIMIT ==>
                MallocResult(old(Now()), old(fastChunks), old(ReadyHead(Request2Size(bytes))), from,
                  Request2Size(bytes), how, m, old(answers), answers)
      ensures bytes < REQUEST_LIMIT ==> lastRemainder == RemainderAfter(from, Request2Size(bytes), how, m - 8)
      ensures from.lastRemainder == old(lastRemainder)
      ensures m == 0 && bytes < REQUEST_LIMIT && NoMemory(old(answers), answers) ==> !fastChunks
      ensures m != 0 ==> (how.FromFastbin? <==> old(FastServes(Request2Size(bytes))))
      ensures m != 0 ==> if how.FromFastbin? then old(fastChunks) else At(mem, m - 4) % 2 == PREV_INUSE
      ensures m != 0 && how.FromFastbin? ==> m - 8 == old(fastbins)[FastIndex(Request2Size(bytes))] && mem == old(mem)
      ensures m == 0 && bytes < REQUEST_LIMIT ==> !old(FastServes(Request2Size(bytes)))
      ensures !old(anyChunks) && bytes < REQUEST_LIMIT && old(TopServes(book.ch, top, Request2Size(bytes))) ==>
                m == old(top) + 8 && !anyChunks && TopCarved(old(book.ch), old(top), book.ch, top, Request2Size(bytes))
      ensures old(Unborn()) && m != 0 ==>
                !anyChunks && top == m - 8 + Request2Size(bytes)
                  && TopAtLeast(book.ch, top, PAGESIZE - Request2Size(bytes))
      decreases if fastChunks then 1 else 0, 2
    {
      hide Inv, Working, MapOk, PartsOf, SamePayload, LivePart, FastPart, BinnedPart, Holes, TopIs, Taken, NoneFits;
      hide FlagOk, Request2Size, BestFitting, NoneExact, SameFree, Consolidated, FastServes, TopServes, Explained;
      hide DeadPart, TopPart, Starts, Total, TopCarved, TopAtLeast, ListChoice, ChosenFrom, Decided, BySystem, Chosen;
      hide RemainderAfter, NoMemory, TopAlike, Ordered, UnsortedIn;
      ghost var m0, live0, from0 := mem, LivePart(book.ch), Now();
      PayloadOfSame(mem, live0);
      SameFreeOfSame(BinnedPart(book.ch));
      from, how, m := from0, Refused, 0;
      if bytes >= REQUEST_LIMIT {
        return;
      }
      PaddedSize(bytes);
      var nb := Request2Size(bytes);
      var victim := 0;
      if !anyChunks {
        BypassSearch(nb);
      } else {
        TotalOf(this);
        OtherRemainder(from0, nb);
        FastNeeds(this, nb);
        FastSmall(this, nb);
        victim, how, from := TakeFree(nb);
        if victim != 0 {
          m := victim + 8;
          ChosenByList(from0, old(fastChunks), from, nb, how, victim, answers);
          return;
        }
        TopAlikeSame(from.book.ch, book.ch, top);
        TotalOf(this);
      }
      BestOfSame(BinnedPart(from.book.ch), BinnedPart(book.ch), victim, nb);
      ghost var m1, from1, b1, t1, again := mem, from, book, top, fastChunks && !TopServes(book.ch, top, nb);
      m, how, from := TopOrSystem(nb);
      KeepPayload(m0, m1, mem, live0);
      SystemRemainder(from1, nb);
      SystemRemainder(from, nb);
      BySystemHow(b1.ch, t1, nb, how, m, old(answers), answers);
      if again {
        ConsolidatedLater(from, b1, old(book));
        OrderedLater(from, b1, old(book));
      }
      Conclude(from0, old(fastChunks), from1, b1, t1, from, nb, how, m, old(answers), answers);
      if !again {
        ExplainedSame(how, BinnedPart(from1.book.ch), BinnedPart(b1.ch), LivePart(book.ch), m, nb);
        from := from1;
      }
    }
  }

  lemma StillFlagged(s: MallocState)
    requires s.Valid() && s.Settled()
    ensures FlagOk(FastPart(s.book.ch), s.fastChunks)
  {
  }

  lemma TopLeft(ch0: Chunks, t0: int, ch1: Chunks, t1: int, nb: int, size: int)
    requires TopCarved(ch0, t0, ch1, t1, nb)
    ensures t1 == t0 + nb && t0 in ch0 && (TopAtLeast(ch0, t0, size) ==> TopAtLeast(ch1, t1, size - nb))
  {
  }

  lemma TotalOf(s: MallocState)
    requires s.Working()
    ensures Total(s.book.ch) == s.sbrkedMem
  {
  }

  /** Chunks on a fastbin mean that the state has been initialised. */
  lemma FlagMeansBorn(s: MallocState)
    requires s.Settled()
    ensures s.maxFast != 0
  {
  }

  lemma ConsolidatedHere(s: MallocState, b0: Book)
    requires s.Settled() && (forall p :: p !in FastPart(s.book.ch))
    requires LivePart(s.book.ch) == LivePart(b0.ch) && DeadPart(s.book.ch) == DeadPart(b0.ch)
      && Starts(s.book.ch) == Starts(b0.ch)
      && Total(b0.ch) == s.sbrkedMem
    ensures Consolidated(s.Now(), b0)
  {
    hide LivePart, FastPart, DeadPart, TopPart, Starts, Total, Holes, Inv, MapOk, TopOk, FastLimits, AnyLimits;
    ConsolidatedNow(s.mem, s.fastbins, s.book, s.top, s.lastRemainder, b0);
  }

  lemma ServedBy(how: Outcome, bp: map<int, Entry>, live: map<int, int>, m: int, nb: int)
    requires NoneFits(bp, nb) && (how.FromTop? || how.FromSystem? || (how.Refused? && m == 0))
    ensures Explained(how, bp, live, m, nb)
  {
  }

  /** With the fastchunks flag clear no fastbin serves a request. */
  lemma NoFastHead(s: MallocState, nb: int)
    requires s.Valid() && !s.fastChunks && nb % 8 == 0
    ensures !s.FastServes(nb)
  {
    hide Inv, MapOk, TopOk, Holes, Total, FastPart, BinnedPart;
    if !s.Unborn() && s.FastServes(nb) {
      FastHead(s.mem, s.fastbins, s.book, 0);
      AnyFast(s.fastbins, s.mem, s.book, FastIndex(nb));
    }
  }

  lemma TopMeansBorn(s: MallocState, nb: int)
    requires s.Valid()
    ensures TopServes(s.book.ch, s.top, nb) ==> s.maxFast != 0
    ensures s.Unborn() ==> s.book.ch == map[] && s.maxFast == 0
    ensures s.maxFast == 0 ==> s.book.ch == map[]
  {
  }

  lemma FastSmall(s: MallocState, nb: int)
    requires s.Working()
    ensures nb <= s.maxFast ==> nb < MIN_LARGE_SIZE
  {
  }

  lemma FastNeeds(s: MallocState, nb: int)
    ensures nb > s.maxFast ==> !s.FastServes(nb)
  {
  }

  /** What Working says, for use where its definition is hidden. */
  lemma InvOf(s: MallocState)
    requires s.Working()
    ensures Inv(s.mem, s.fastbins, s.book) && TopOk(s.mem, s.book.ch, s.top) && MapOk(s.binmap, s.book.bins)
  {
  }

  lemma NotTop(ch: Chunks, t: int, n: int)
    requires TopIs(ch, t) && n in ch && n != t
    ensures !ch[n].kind.Top?
  {
  }

  /** Until something is freed, no list has a chunk. */
  lemma NothingListed(s: MallocState, nb: int)
    requires s.Valid() && !s.anyChunks
    ensures ListChoice(s.Now(), nb).Refused?
  {
    hide MapOk, TopOk, Tiled, Tagged, Rings, Chains, FastListed;
    var n := s.Now();
    NothingFree(s);
    if !s.Unborn() {
      forall i | 1 <= i < NBINS
        ensures s.book.bins[i] == []
      {
        FirstBinned(s.book, i);
      }
    }
  }

  lemma FirstBinned(b: Book, i: int)
    requires Listed(BinnedPart(b.ch), b.bins) && 1 <= i < NBINS
    ensures b.bins[i] != [] ==> b.bins[i][0] in BinnedPart(b.ch)
  {
    hide BinOk, BinnedPart;
    ListHeld(BinnedPart(b.ch), b.bins[i], i);
  }

  lemma ListHeld(bp: map<int, Entry>, s: seq<int>, i: int)
    requires BinOk(bp, s, i)
    ensures s != [] ==> s[0] in bp
  {
  }

  /** Initialisation gives no top. */
  lemma TopAlikeBorn(s: Snapshot, av: MallocState)
    requires s.book == av.book && (s.top == av.top || s.book.ch == map[])
    ensures s.book.ch == map[] ==> forall x :: x !in TopPart(s.book.ch)
    ensures TopAlike(s.book.ch, s.top, av.book.ch, av.top)
  {
  }

  lemma TopIsOf(s: MallocState, p: int)
    requires s.Working() && p in s.book.ch
    ensures TopIs(s.book.ch, s.top)
  {
  }

  lemma NoHolesHere(s: MallocState)
    requires s.Settled()
    ensures Holes(s.book.ch) == {}
  {
  }

  lemma NewBlock(s: MallocState, live0: map<int, int>, v: int, nb: int)
    requires s.Settled() && Taken(live0, LivePart(s.book.ch), v, nb)
    ensures Allocated(live0, LivePart(s.book.ch), v + 8, nb)
  {
    assert TileOk(s.book.ch, v);
  }

  /** Until something is freed, no chunk is on any list. */
  lemma NothingFree(s: MallocState)
    requires s.Valid() && !s.anyChunks
    ensures (forall p :: p !in BinnedPart(s.book.ch)) && !s.fastChunks
  {
  }
}
