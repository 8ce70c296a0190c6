/** Facts the consolidating half of the allocator rests on: free, malloc_consolidate, unlink. */
module FreeSteps {
  import opened Memory
  import opened Ring
  import opened Heap
  import opened HeapSteps
  import opened TopSteps
  import opened Census
  import opened BinIndex
  import opened Binmap


  const DEFAULT_MXFAST := 64
  const FASTBIN_CONSOLIDATION_THRESHOLD := 128 * 1024

  /** Pad a request by the size word and round up to a multiple of eight, at least MINSIZE. */
  function Request2Size(req: int): int {
    if req + SIZE_SZ + MALLOC_ALIGN_MASK < MINSIZE then MINSIZE
    else req + SIZE_SZ + MALLOC_ALIGN_MASK - (req + SIZE_SZ + MALLOC_ALIGN_MASK) % 8
  }

  /** chunksize(p), from the size word of p. */
  function ChunkSize(w: int): int { w - w % 4 }

  // ---------------------------------------------------------------- the rest of the invariant

  ghost predicate FastLimits(fp: map<int, int>, maxFast: int) {
    && 16 <= maxFast <= 88 && maxFast % 8 == 0
    && (forall p :: p in fp ==> fp[p] <= maxFast)
  }

  /** A clear fastchunks flag promises that every fastbin is empty. */
  ghost predicate FlagOk(fp: map<int, int>, fastChunks: bool) {
    !fastChunks ==> forall p :: p !in fp
  }

  ghost predicate AnyLimits(bp: map<int, Entry>, anyChunks: bool, fastChunks: bool) {
    !anyChunks ==> (forall p :: p !in bp) && !fastChunks
  }

  /** Neither neighbour of chunk p is free: its own size word and the kind of the next chunk say so. */
  ghost predicate Isolated(m: Mem, ch: Chunks, p: int) {
    p in ch && At(m, p + 4) % 2 == PREV_INUSE && Succ(ch, p) in ch && !ch[Succ(ch, p)].kind.Binned?
  }

  /** The free chunks after an isolated chunk has been freed: it joins them as it is, unless it went elsewhere,
      to a fastbin or to top. */
  ghost predicate FreedAlone(bp: map<int, Entry>, bp': map<int, Entry>, p: int, size: int, elsewhere: bool) {
    bp' == if elsewhere then bp else bp[p := Entry(size, UNSORTED)]
  }

  // ---------------------------------------------------------------- what freeing a chunk comes to

  /** Where the free chunk begins that freeing p makes, and where it ends. */
  ghost function MergeStart(ch: Chunks, p: int): int
    requires p in ch
  {
    if PrevFree(ch, p) then ch[p].prev else p
  }

  ghost function MergeEnd(ch: Chunks, p: int): int
    requires p in ch
  {
    var n := Succ(ch, p);
    if n in ch && (ch[n].kind.Binned? || ch[n].kind.Top?) then Succ(ch, n) else n
  }

  /** Freeing p makes a space large enough to consolidate the fastbins for. */
  ghost predicate LargeSpace(ch: Chunks, p: int) {
    p in ch && MergeEnd(ch, p) - MergeStart(ch, p) >= FASTBIN_CONSOLIDATION_THRESHOLD
  }

  ghost predicate BordersTop(ch: Chunks, p: int)
    requires p in ch
  {
    Succ(ch, p) in ch && ch[Succ(ch, p)].kind.Top?
  }

  /** The free chunks after p has been freed: its free neighbours are gone, and what it has become with them is on
      the unsorted list, or part of top. */
  ghost function FreedPart(ch: Chunks, p: int): map<int, Entry>
    requires p in ch
  {
    var q := MergeStart(ch, p);
    var bp := BinnedPart(ch) - {q} - {Succ(ch, p)};
    if BordersTop(ch, p) then bp else bp[q := Entry(MergeEnd(ch, p) - q, UNSORTED)]
  }

  /** s without x. */
  ghost function Purged(s: seq<int>, x: int): seq<int> {
    if s == [] then [] else if s[0] == x then s[1..] else [s[0]] + Purged(s[1..], x)
  }

  /** The lists without x, which is on the list of its bin. */
  ghost function PurgedBins(bins: seq<seq<int>>, ch: Chunks, x: int): seq<seq<int>> {
    if x in ch && ch[x].kind.Binned? && 0 <= ch[x].kind.bin < |bins|
    then bins[ch[x].kind.bin := Purged(bins[ch[x].kind.bin], x)]
    else bins
  }

  /** The lists after p has been freed: the chunk that it has become is the first of the unsorted list. */
  ghost function FreedBins(b: Book, p: int): seq<seq<int>>
    requires p in b.ch
  {
    var q := MergeStart(b.ch, p);
    var bins := PurgedBins(PurgedBins(b.bins, b.ch, q), b.ch, Succ(b.ch, p));
    if BordersTop(b.ch, p) || |bins| <= UNSORTED then bins else bins[UNSORTED := [q] + bins[UNSORTED]]
  }

  lemma {:induction false} PurgedIs(s: seq<int>, k: int)
    requires NoDup(s) && 0 <= k < |s|
    ensures Purged(s, s[k]) == Without(s, k)
  {
    if k > 0 {
      var t := s[1..];
      TailNoDup(s);
      PurgedIs(t, k - 1);
      assert t[k - 1] == s[k] && s[0] != s[k];
      WithoutTail(s, k);
    } else {
      assert Without(s, 0) == s[1..];
    }
  }

  lemma WithoutTail(s: seq<int>, k: int)
    requires 0 < k < |s|
    ensures Without(s, k) == [s[0]] + Without(s[1..], k - 1)
  {
    assert s[..k] == [s[0]] + s[1..][..k - 1] && s[k + 1..] == s[1..][k..];
  }

  /** Unlinking a chunk takes it out of its list. */
  lemma UnlinkPurges(m: Mem, fb: seq<int>, b: Book, i: int, k: int)
    requires Inv(m, fb, b) && 1 <= i < NBINS && |b.bins| == NBINS && 0 <= k < |b.bins[i]| && b.bins[i][k] in b.ch
    ensures TakeBook(b, i, k).bins == PurgedBins(b.bins, b.ch, b.bins[i][k])
  {
    hide Tiled, Tagged, Rings, Chains, FastListed, BinnedPart, FastPart;
    BinEntry(b, i, k);
    assert BinOk(BinnedPart(b.ch), b.bins[i], i);
    PurgedIs(b.bins[i], k);
  }

  /** What freeing p comes to, case by case. */
  lemma FreedCases(b: Book, p: int, t: int)
    requires p in b.ch && TopIs(b.ch, t) && Succ(b.ch, p) in b.ch && |b.bins| == NBINS
    ensures var n, q := Succ(b.ch, p), MergeStart(b.ch, p);
            && (BordersTop(b.ch, p) <==> n == t)
            && MergeEnd(b.ch, p) == (if n == t || b.ch[n].kind.Binned? then n + b.ch[n].size else n)
            && FreedPart(b.ch, p) ==
               (if n == t then BinnedPart(b.ch) - {q} - {n}
                else (BinnedPart(b.ch) - {q} - {n})[q := Entry(MergeEnd(b.ch, p) - q, UNSORTED)])
            && (n == t || !b.ch[n].kind.Binned? ==>
                  BinnedPart(b.ch) - {q} - {n} == BinnedPart(b.ch) - {q}
                    && PurgedBins(PurgedBins(b.bins, b.ch, q), b.ch, n) == PurgedBins(b.bins, b.ch, q))
            && |PurgedBins(PurgedBins(b.bins, b.ch, q), b.ch, n)| == NBINS
            && FreedBins(b, p) ==
               (var bins := PurgedBins(PurgedBins(b.bins, b.ch, q), b.ch, n);
                if n == t then bins else bins[UNSORTED := [q] + bins[UNSORTED]])
  {
    hide PurgedBins;
    var n, q := Succ(b.ch, p), MergeStart(b.ch, p);
    PurgedLength(b.bins, b.ch, q);
    PurgedLength(PurgedBins(b.bins, b.ch, q), b.ch, n);
    if n == t || !b.ch[n].kind.Binned? {
      NotPurged(Book(b.ch, PurgedBins(b.bins, b.ch, q), b.fast), n);
      assert BinnedPart(b.ch) - {q} - {n} == BinnedPart(b.ch) - {n} - {q};
    }
  }

  lemma PurgedLength(bins: seq<seq<int>>, ch: Chunks, x: int)
    ensures |PurgedBins(bins, ch, x)| == |bins|
  {
  }

  lemma PurgedSame(bins: seq<seq<int>>, ch: Chunks, ch': Chunks, x: int)
    requires x in ch && x in ch' && ch[x].kind == ch'[x].kind
    ensures PurgedBins(bins, ch, x) == PurgedBins(bins, ch', x)
  {
  }

  lemma PutFirst(b: Book, p: int)
    requires p in b.ch && |b.bins| == NBINS
    ensures PutBook(b, UNSORTED, 0, p).bins == b.bins[UNSORTED := [p] + b.bins[UNSORTED]]
  {
    assert With(b.bins[UNSORTED], 0, p) == [p] + b.bins[UNSORTED];
  }

  lemma NotPurged(b: Book, x: int)
    requires x in b.ch && !b.ch[x].kind.Binned?
    ensures PurgedBins(b.bins, b.ch, x) == b.bins && BinnedPart(b.ch) - {x} == BinnedPart(b.ch)
  {
  }

  ghost predicate MapOk(binmap: seq<nat>, bins: seq<seq<int>>) {
    && WordsOk(binmap) && |bins| == NBINS
    && forall i {:trigger bins[i]} :: 2 <= i < NBINS && bins[i] != [] ==> IsMarked(binmap, i)
  }

  /** Before the first region arrives, top is the unsorted bin, whose size word reads zero. */
  ghost predicate TopOk(m: Mem, ch: Chunks, t: int) {
    TopIs(ch, t) || (ch == map[] && t == BinAt(UNSORTED) && At(m, t + 4) == 0)
  }

  lemma MapOkTake(binmap: seq<nat>, bins: seq<seq<int>>, i: int, k: int)
    requires MapOk(binmap, bins) && 1 <= i < NBINS && 0 <= k < |bins[i]|
    ensures MapOk(binmap, bins[i := Without(bins[i], k)])
  {
  }

  lemma MapOkUnsorted(binmap: seq<nat>, bins: seq<seq<int>>, s: seq<int>)
    requires MapOk(binmap, bins)
    ensures MapOk(binmap, bins[UNSORTED := s])
  {
  }

  /** The tags at the far end of a free chunk: its footer, and a following chunk in use. */
  ghost predicate FreeEnd(m: Mem, ch: Chunks, p: int)
    requires p in ch && Succ(ch, p) in ch
  {
    var n := Succ(ch, p);
    && !ch[n].kind.Binned? && !ch[n].kind.Top? && !ch[n].kind.Hole?
    && At(m, n + 4) == HeadSize(ch[n])
  }

  lemma TakenTags(m: Mem, m': Mem, fb: seq<int>, b: Book, p: int, w: set<int>)
    requires Inv(m, fb, b) && p in b.ch && b.ch[p].kind.Binned?
    requires LinkStores(b.ch, w) && SameBut(m, m', w)
    ensures var ch' := Retag(b.ch, p, Hole);
            && Succ(ch', p) in ch' && !PrevFree(ch', p)
            && (!ch'[Succ(ch', p)].kind.Hole? ==> FreeEnd(m', ch', p))
            && (!ch'[Succ(ch', p)].kind.Hole? && !PrevHole(ch', p) ==> FreeTags(m', ch', p))
  {
    var ch := b.ch;
    assert TileOk(ch, p) && TagOk(m, ch, p);
    var n := Succ(ch, p);
    assert TileOk(ch, n) && TagOk(m, ch, n);
    assert forall a :: a in w ==> LinksFree(ch, p, a) && LinksFree(ch, n, a);
  }

  lemma PrevTag(m: Mem, fb: seq<int>, b: Book, p: int)
    requires Inv(m, fb, b) && p in b.ch && b.ch[p].kind.Live? && !PrevHole(b.ch, p)
    ensures At(m, p + 4) % 2 == 0 <==> PrevFree(b.ch, p)
    ensures PrevFree(b.ch, p) ==>
              var q := p - At(m, p);
                q in b.ch && b.ch[q].kind.Binned? && q == b.ch[p].prev && q + b.ch[q].size == p && q < p
  {
    assert TagOk(m, b.ch, p) && TileOk(b.ch, p);
    if PrevFree(b.ch, p) {
      var q := b.ch[p].prev;
      assert TagOk(m, b.ch, q) && TileOk(b.ch, q);
      assert Succ(b.ch, q) == p && At(m, p) == b.ch[q].size;
    }
    FlagBit(HeadSize(b.ch[p]));
  }

  /** Sizes are multiples of eight (four, for a fencepost), so the low bit is free. */
  lemma FlagBit(s: int)
    requires s % 8 == 0 || s == SIZE_SZ
    ensures s % 2 == 0 && (s + PREV_INUSE) % 2 == 1 && ChunkSize(s) == s && ChunkSize(s + PREV_INUSE) == s
  {
  }

  lemma HeadRead(m: Mem, fb: seq<int>, b: Book, p: int)
    requires Inv(m, fb, b) && p in b.ch && !b.ch[p].kind.Hole?
    ensures ChunkSize(At(m, p + 4)) == HeadSize(b.ch[p])
  {
    assert TagOk(m, b.ch, p) && TileOk(b.ch, p);
    FlagBit(HeadSize(b.ch[p]));
  }

  /** The in-use bit of n, found behind n at the distance its own size word gives. */
  lemma NextInuse(m: Mem, fb: seq<int>, b: Book, n: int)
    requires Inv(m, fb, b) && n in b.ch && !b.ch[n].kind.Top? && !b.ch[n].kind.Hole?
    requires !b.ch[n].kind.Fence? ==> n + b.ch[n].size in b.ch && !b.ch[n + b.ch[n].size].kind.Hole?
    ensures At(m, n + HeadSize(b.ch[n]) + 4) % 2 == 0 <==> b.ch[n].kind.Binned?
  {
    assert TagOk(m, b.ch, n) && TileOk(b.ch, n);
    if !b.ch[n].kind.Fence? {
      var nn := Succ(b.ch, n);
      assert TagOk(m, b.ch, nn) && TileOk(b.ch, nn);
      FlagBit(HeadSize(b.ch[nn]));
    }
    hide Inv;
  }

  lemma AfterLive(m: Mem, fb: seq<int>, b: Book, p: int)
    requires Inv(m, fb, b) && p in b.ch && (b.ch[p].kind.Live? || b.ch[p].kind.Hole?)
    ensures HEAP_BASE <= p && p % 8 == 0 && MINSIZE <= b.ch[p].size && b.ch[p].size % 8 == 0
    ensures Succ(b.ch, p) in b.ch && b.ch[Succ(b.ch, p)].prev == p
    ensures b.ch[p].kind.Live? && !b.ch[Succ(b.ch, p)].kind.Hole? ==>
              At(m, Succ(b.ch, p) + 4) == HeadSize(b.ch[Succ(b.ch, p)]) + PREV_INUSE
  {
    assert TileOk(b.ch, p) && TagOk(m, b.ch, Succ(b.ch, p));
  }

  lemma MergeNeighbours(m: Mem, fb: seq<int>, b: Book, a: int, c: int)
    requires Inv(m, fb, b) && Adjacent(b.ch, a, c)
    ensures var ch, ch' := b.ch, MergeCh(b.ch, a, c);
            && a in ch' && PrevFree(ch', a) == PrevFree(ch, a) && PrevHole(ch', a) == PrevHole(ch, a)
            && ch'[a].kind.Hole? && ch'[a].size == ch[a].size + ch[c].size
            && Succ(ch', a) == Succ(ch, c) && Succ(ch', a) in ch'
            && ch'[Succ(ch, c)].kind == ch[Succ(ch, c)].kind && ch'[Succ(ch, c)].size == ch[Succ(ch, c)].size
            && FreeEnd(m, ch', a) == FreeEnd(m, ch, c)
  {
    MergeFacts(b.ch, a, c);
  }

  lemma MapOkBins(binmap: seq<nat>, bins: seq<seq<int>>)
    requires MapOk(binmap, bins)
    ensures |bins| == NBINS && WordsOk(binmap)
  {
  }

  lemma ClearInv(m: Mem, m': Mem, fb: seq<int>, b: Book, p: int)
    requires Inv(m, fb, b) && p in b.ch && b.ch[p].kind.Hole? && !PrevHole(b.ch, p)
    requires Succ(b.ch, p) in b.ch && !b.ch[Succ(b.ch, p)].kind.Hole?
    requires m' == m[Succ(b.ch, p) + 4 := HeadSize(b.ch[Succ(b.ch, p)])]
    ensures Inv(m', fb, b) && SamePayload(m, m', LivePart(b.ch))
  {
    var ch, n := b.ch, Succ(b.ch, p);
    assert SameBut(m, m', TagWords(ch, p));
    assert SameBut(m, m', {} + TagWords(ch, p));
    ListsKeepTags(m, m', fb, b, p);
    TagsOffPayload(ch, p);
    PayloadKept(m, m', ch, TagWords(ch, p));
    ClearTagged(m, m', ch, p);
  }

  lemma ClearTagged(m: Mem, m': Mem, ch: Chunks, p: int)
    requires Tiled(ch) && Tagged(m, ch) && p in ch && ch[p].kind.Hole?
    requires Succ(ch, p) in ch && !ch[Succ(ch, p)].kind.Hole?
    requires m' == m[Succ(ch, p) + 4 := HeadSize(ch[Succ(ch, p)])]
    ensures Tagged(m', ch)
  {
    var n := Succ(ch, p);
    assert TileOk(ch, p) && TagOk(m, ch, p) && TagOk(m, ch, n) && TileOk(ch, n);
    assert Retag(ch, p, Hole) == ch;
    assert SameBut(m, m', {} + TagWords(ch, p));
    RetagTagged(m, m', ch, p, Hole, {});
  }

  lemma OpenNeighbours(m: Mem, fb: seq<int>, b: Book, x: int, p: int)
    requires Inv(m, fb, b) && x in b.ch && b.ch[x].kind.Live? && p in b.ch && p <= x
    ensures var ch, ch' := b.ch, OpenBook(b, x).ch;
            && p in ch' && x in ch' && x + ch[x].size in ch' && PrevFree(ch', p) == PrevFree(ch, p)
               && PrevHole(ch', p) == PrevHole(ch, p)
            && ch'[x] == ch[x].(kind := Hole) && (p != x ==> ch'[p] == ch[p])
            && x + ch[x].size in ch && ch'[x + ch[x].size] == ch[x + ch[x].size]
  {
    assert TileOk(b.ch, p) && TileOk(b.ch, x);
  }

  lemma TakeNeighbours(m: Mem, fb: seq<int>, b: Book, i: int, k: int)
    requires Inv(m, fb, b) && 1 <= i < NBINS && 0 <= k < |b.bins[i]| && Holes(b.ch) == {}
    ensures b.bins[i][k] in b.ch && b.ch[b.bins[i][k]].kind.Binned?
    ensures var p := b.bins[i][k];
            var ch' := TakeBook(b, i, k).ch;
            && p in ch' && !PrevHole(ch', p) && ch'[p] == b.ch[p].(kind := Hole)
            && (forall x :: x in b.ch && x != p ==> x in ch' && ch'[x] == b.ch[x])
  {
    BinEntry(b, i, k);
    var p := b.bins[i][k];
    NoHoleBefore(b, p);
    assert TileOk(b.ch, p);
  }

  lemma PayloadLess(m: Mem, m': Mem, live: map<int, int>, p: int)
    requires m' == m || SamePayload(m, m', live)
    ensures SamePayload(m, m', live - {p})
  {
    if m' != m {
      forall q, a | q in live - {p} && q + 8 <= a < q + live[q] + 4
        ensures At(m', a) == At(m, a)
      {
        assert q in live;
      }
    }
  }

  lemma RingHead(m: Mem, fb: seq<int>, b: Book, i: int)
    requires Inv(m, fb, b) && 1 <= i < NBINS
    ensures |b.bins| == NBINS
    ensures Fd(m, BinAt(i)) == Node(BinAt(i), b.bins[i], 0)
      && Bk(m, BinAt(i)) == Node(BinAt(i), b.bins[i], |b.bins[i]| - 1)
  {
    var s := b.bins[i];
    assert RingOk(m, s, i);
    assert Linked(m, Node(BinAt(i), s, -1), Node(BinAt(i), s, 0));
    assert Linked(m, Node(BinAt(i), s, |s| - 1), Node(BinAt(i), s, |s|));
  }

  lemma PlacedSame(m: Mem, m': Mem, ch: Chunks, p: int, bck: int, fwd: int, h: int, f: int)
    requires p in ch
    requires m' == Inserted(m, p, bck, fwd)[p + 4 := h][Succ(ch, p) := f]
    ensures SameBut(Inserted(m, p, bck, fwd), m', TagWords(ch, p))
    ensures At(m', p + 4) == if p + ch[p].size == p + 4 then f else h
    ensures At(m', Succ(ch, p)) == f
  {
  }

  /** The tags a hole needs to become a free chunk, once its head and foot are stored. */
  lemma PlacedTags(m: Mem, m': Mem, fb: seq<int>, b: Book, i: int, p: int, bck: int, fwd: int)
    requires Inv(m, fb, b) && 1 <= i < NBINS && p in b.ch && b.ch[p].kind.Hole? && !PrevFree(b.ch, p)
      && !PrevHole(b.ch, p)
    requires InBinOrHeader(b.ch, bck, i) && InBinOrHeader(b.ch, fwd, i)
    requires Succ(b.ch, p) in b.ch && FreeEnd(m, b.ch, p)
    requires m' == Inserted(m, p, bck, fwd)[p + 4 := b.ch[p].size + PREV_INUSE][Succ(b.ch, p) := b.ch[p].size]
    ensures FreeTags(m', b.ch, p)
  {
    var ch, n := b.ch, Succ(b.ch, p);
    assert TileOk(ch, p) && TileOk(ch, n);
    LinkWords(ch, n, p);
    if bck in ch {
      assert TileOk(ch, bck);
    }
    if fwd in ch {
      assert TileOk(ch, fwd);
    }
    LinkWords(ch, n, bck);
    LinkWords(ch, n, fwd);
  }

  lemma PlacedInv(m: Mem, m': Mem, fb: seq<int>, b: Book, p: int, bck: int, fwd: int)
    requires Inv(m, fb, b) && p in b.ch && b.ch[p].kind.Hole? && !PrevFree(b.ch, p) && !PrevHole(b.ch, p)
    requires Succ(b.ch, p) in b.ch && FreeEnd(m, b.ch, p)
    requires bck == BinAt(UNSORTED) && fwd == Fd(m, bck)
    requires m' == Inserted(m, p, bck, fwd)[p + 4 := b.ch[p].size + PREV_INUSE][Succ(b.ch, p) := b.ch[p].size]
    ensures |b.bins| == NBINS && Inv(m', fb, PutBook(b, UNSORTED, 0, p)) && SamePayload(m, m', LivePart(b.ch))
  {
    RingHead(m, fb, b, UNSORTED);
    UnsortedFits(BinnedPart(b.ch), b.bins[UNSORTED], b.ch[p].size);
    UnsortedNodes(b);
    AfterLive(m, fb, b, p);
    PlacedSame(m, m', b.ch, p, bck, fwd, b.ch[p].size + PREV_INUSE, b.ch[p].size);
    PlacedTags(m, m', fb, b, UNSORTED, p, bck, fwd);
    PutInv(m, Inserted(m, p, bck, fwd), m', fb, b, UNSORTED, 0, p);
  }

  /** What queueing a chunk does to everything that does not look at memory. */
  lemma PlacedTotals(m: Mem, m': Mem, b: Book, p: int, t: int, fastChunks: bool, binmap: seq<nat>)
    requires p in b.ch && b.ch[p].kind.Hole? && |b.bins| == NBINS && TopOk(m, b.ch, t) && MapOk(binmap, b.bins)
    ensures var b', q := PutBook(b, UNSORTED, 0, p), PartsOf(b.ch);
            && PartsOf(b'.ch) == q.(binned := q.binned[p := Entry(b.ch[p].size, UNSORTED)], holes := q.holes - {p})
            && Total(b'.ch) == Total(b.ch) && (TopIs(b.ch, t) ==> TopIs(b'.ch, t)) && TopOk(m', b'.ch, t)
            && MapOk(binmap, b'.bins) && AnyLimits(BinnedPart(b'.ch), true, fastChunks) && b'.fast == b.fast
  {
    hide LivePart, FastPart, BinnedPart, DeadPart, TopPart, Starts, Total, Holes, MapOk, Retag, TopIs;
    RetagCensus(b.ch, p, Binned(UNSORTED));
    PutCensus(b.ch, p, UNSORTED);
    MapOkUnsorted(binmap, b.bins, With(b.bins[UNSORTED], 0, p));
  }

  lemma UnsortedFits(bp: map<int, Entry>, s: seq<int>, size: int)
    ensures FitsAt(bp, s, UNSORTED, 0, size)
  {
  }

  lemma UnsortedNodes(b: Book)
    requires Listed(BinnedPart(b.ch), b.bins)
    ensures InBinOrHeader(b.ch, Node(BinAt(UNSORTED), b.bins[UNSORTED], -1), UNSORTED)
    ensures InBinOrHeader(b.ch, Node(BinAt(UNSORTED), b.bins[UNSORTED], 0), UNSORTED)
  {
    assert BinOk(BinnedPart(b.ch), b.bins[UNSORTED], UNSORTED);
    NodesInBin(b.ch, b.bins[UNSORTED], UNSORTED, 0);
  }

  lemma NoHoleBefore(b: Book, p: int)
    requires p in b.ch && Holes(b.ch) == {}
    ensures !PrevHole(b.ch, p)
  {
    assert b.ch[p].prev !in Holes(b.ch);
  }

  lemma HolesPart(ch: Chunks)
    ensures PartsOf(ch).live == LivePart(ch) && PartsOf(ch).fast == FastPart(ch) && PartsOf(ch).binned == BinnedPart(ch)
    ensures PartsOf(ch).holes == Holes(ch) && PartsOf(ch).dead == DeadPart(ch) && PartsOf(ch).starts == Starts(ch)
      && PartsOf(ch).tops == TopPart(ch)
  {
  }

  lemma SinkIntoTop(m: Mem, m': Mem, fb: seq<int>, b: Book, p: int, t: int)
    requires Inv(m, fb, b) && TopIs(b.ch, t) && p in b.ch && b.ch[p].kind.Hole? && p + b.ch[p].size == t
    requires !PrevFree(b.ch, p) && !PrevHole(b.ch, p)
    requires m' == m[p + 4 := b.ch[p].size + b.ch[t].size + PREV_INUSE]
    ensures Inv(m', fb, b.(ch := SinkCh(b.ch, p, t))) && SamePayload(m, m', LivePart(b.ch))
    ensures PartsOf(SinkCh(b.ch, p, t)) ==
      PartsOf(b.ch).(holes := Holes(b.ch) - {p}, tops := TopPart(SinkCh(b.ch, p, t)))
    ensures Total(SinkCh(b.ch, p, t)) == Total(b.ch)
    ensures TopIs(SinkCh(b.ch, p, t), p)
  {
    SinkCensus(b.ch, p, t);
    SinkKinds(b.ch, p, t);
    SinkInv(m, m', fb, b, p, t);
  }

  lemma NextOfHole(m: Mem, fb: seq<int>, b: Book, p: int, n: int)
    requires Inv(m, fb, b) && p in b.ch && b.ch[p].kind.Hole? && Holes(b.ch) == {p} && n == p + b.ch[p].size
      && n in b.ch
    ensures b.ch[n].kind.Binned? ==>
      n + b.ch[n].size in b.ch && !b.ch[n + b.ch[n].size].kind.Hole? && n + b.ch[n].size != p
    ensures !b.ch[n].kind.Hole? && n > p
    ensures !b.ch[n].kind.Top? && !b.ch[n].kind.Fence? ==>
      n + b.ch[n].size in b.ch && !b.ch[n + b.ch[n].size].kind.Hole?
  {
    assert TileOk(b.ch, p) && TileOk(b.ch, n);
    assert b.ch[n].kind.Hole? ==> n in Holes(b.ch);
    if !EndsRegion(b.ch[n].kind) {
      var nn := Succ(b.ch, n);
      assert b.ch[nn].kind.Hole? ==> nn in Holes(b.ch);
    }
  }

  lemma TakeAfter(m: Mem, fb: seq<int>, b: Book, i: int, k: int, p: int)
    requires Inv(m, fb, b) && 1 <= i < NBINS && 0 <= k < |b.bins[i]| && p in b.ch && b.ch[p].kind.Hole?
      && Holes(b.ch) == {p}
    requires p + b.ch[p].size == b.bins[i][k]
    requires !PrevFree(b.ch, p) && !PrevHole(b.ch, p)
    ensures var n := b.bins[i][k]; n in b.ch && TakeBook(b, i, k).ch == Retag(b.ch, n, Hole)
    ensures var n := b.bins[i][k];
            var ch' := TakeBook(b, i, k).ch;
            && Adjacent(ch', p, n) && !PrevFree(ch', p) && !PrevHole(ch', p)
            && ch'[p] == b.ch[p] && ch'[n] == b.ch[n].(kind := Hole)
            && n + b.ch[n].size in b.ch && ch'[n + b.ch[n].size] == b.ch[n + b.ch[n].size]
               && !b.ch[n + b.ch[n].size].kind.Hole?
  {
    BinEntry(b, i, k);
    var n := b.bins[i][k];
    NextOfHole(m, fb, b, p, n);
    assert TileOk(b.ch, p) && TileOk(b.ch, n);
  }

  lemma ClearedEnd(m: Mem, b: Book, p: int)
    requires p in b.ch && Succ(b.ch, p) in b.ch && !b.ch[Succ(b.ch, p)].kind.Hole?
    requires !b.ch[Succ(b.ch, p)].kind.Binned? && !b.ch[Succ(b.ch, p)].kind.Top?
    ensures FreeEnd(m[Succ(b.ch, p) + 4 := HeadSize(b.ch[Succ(b.ch, p)])], b.ch, p)
  {
  }

  lemma KeepPayload(m0: Mem, m1: Mem, m2: Mem, live: map<int, int>)
    requires (m1 == m0 || SamePayload(m0, m1, live)) && (m2 == m1 || SamePayload(m1, m2, live))
    ensures SamePayload(m0, m2, live)
  {
    PayloadOfSame(m0, live);
    PayloadOfSame(m1, live);
    SamePayloadTransitive(m0, m1, m2, live, live);
  }

  lemma PayloadOfSame(m: Mem, live: map<int, int>)
    ensures SamePayload(m, m, live)
  {
  }

  lemma NoHoleAfter(b: Book, n: int)
    requires n in b.ch && Holes(b.ch) == {}
    ensures !b.ch[n].kind.Hole?
  {
    assert b.ch[n].kind.Hole? ==> n in Holes(b.ch);
  }

  /** b' is b with every chunk of fastbin i counted as live. */
  ghost predicate Detached(b: Book, b': Book, i: int)
    requires |b.fast| == NFASTBINS && 0 <= i < NFASTBINS
  {
    && b'.bins == b.bins && b'.fast == b.fast[i := []]
    && BinnedPart(b'.ch) == BinnedPart(b.ch) && DeadPart(b'.ch) == DeadPart(b.ch) && Holes(b'.ch) == Holes(b.ch)
    && Total(b'.ch) == Total(b.ch) && Starts(b'.ch) == Starts(b.ch)
    && (forall t :: TopIs(b.ch, t) ==> TopIs(b'.ch, t))
    && (b'.ch == map[] <==> b.ch == map[])
    && (forall q :: q in LivePart(b'.ch) <==> q in LivePart(b.ch) || q in b.fast[i])
    && (forall q :: q in LivePart(b.ch) ==> q in LivePart(b'.ch) && LivePart(b'.ch)[q] == LivePart(b.ch)[q])
    && (forall q :: q in FastPart(b'.ch) ==> q in FastPart(b.ch) && FastPart(b'.ch)[q] == FastPart(b.ch)[q])
    && (forall q :: q in b.fast[i] && q in FastPart(b.ch) ==> LivePart(b'.ch)[q] == FastPart(b.ch)[q])
  }

  lemma {:induction false} Detach(m: Mem, fb: seq<int>, b: Book, i: int) returns (b': Book)
    requires Inv(m, fb, b) && 0 <= i < NFASTBINS && |fb| == NFASTBINS && |b.fast| == NFASTBINS
    ensures Inv(m, fb[i := 0], b') && Detached(b, b', i)
    decreases |b.fast[i]|
  {
    FastHead(m, fb, b, i);
    if b.fast[i] == [] {
      assert fb[i := 0] == fb && b.fast[i := []] == b.fast;
      b' := b;
    } else {
      var p, b1, fb1 := fb[i], PopBook(b, i), fb[i := Fd(m, fb[i])];
      PopInv(m, fb, b, i);
      b' := Detach(m, fb1, b1, i);
      assert fb1[i := 0] == fb[i := 0] && b1.fast[i := []] == b.fast[i := []];
      PopDetached(b, b1, b', i, p);
    }
  }

  lemma PopDetached(b: Book, b1: Book, b': Book, i: int, p: int)
    requires |b.fast| == NFASTBINS && 0 <= i < NFASTBINS && b.fast[i] != [] && p == b.fast[i][0] && p in b.ch
      && b.ch[p].kind.Fast?
    requires b1 == PopBook(b, i) && Detached(b1, b', i)
    ensures Detached(b, b', i)
  {
    hide LivePart, FastPart, BinnedPart, DeadPart, TopPart, Starts, Holes, Total, TopIs, PopBook;
    PoppedParts(b, i, p);
    assert forall q :: q in b.fast[i] <==> q == p || q in b1.fast[i];
    assert b1.fast[i := []] == b.fast[i := []];
  }

  lemma PoppedParts(b: Book, i: int, p: int)
    requires 0 <= i < |b.fast| && b.fast[i] != [] && p == b.fast[i][0] && p in b.ch && b.ch[p].kind.Fast?
    ensures var ch, ch' := b.ch, PopBook(b, i).ch;
            && LivePart(ch') == LivePart(ch)[p := ch[p].size] && p !in LivePart(ch)
               && FastPart(ch') == FastPart(ch) - {p}
            && BinnedPart(ch') == BinnedPart(ch) && DeadPart(ch') == DeadPart(ch) && Holes(ch') == Holes(ch)
            && Total(ch') == Total(ch) && Starts(ch') == Starts(ch)
            && (forall t :: TopIs(ch, t) ==> TopIs(ch', t)) && ch' != map[] && ch != map[]
            && p in FastPart(ch) && FastPart(ch)[p] == ch[p].size
    ensures PopBook(b, i).bins == b.bins && PopBook(b, i).fast == b.fast[i := b.fast[i][1..]]
  {
    var ch' := Retag(b.ch, p, Live);
    assert p in ch' && p !in LivePart(b.ch) && p in FastPart(b.ch);
    PopCensus(b.ch, p);
    RetagCensus(b.ch, p, Live);
    HolesPart(b.ch);
    HolesPart(ch');
  }

  /** Detached chunks still chained through their fd words, waiting to be consolidated. */
  ghost predicate Pending(m: Mem, ch: Chunks, rest: seq<int>, live0: map<int, int>) {
    && NoDup(rest)
    && (forall q :: q in LivePart(ch) <==> q in live0 || q in rest)
    && (forall q :: q in live0 ==> q in LivePart(ch) && LivePart(ch)[q] == live0[q] && q !in rest)
    && (forall j :: 0 <= j < |rest| ==> Fd(m, rest[j]) == Link(rest, j + 1))
  }

  lemma PendingStep(m: Mem, m': Mem, fb: seq<int>, b: Book, ch': Chunks, rest: seq<int>, live0: map<int, int>)
    requires Inv(m, fb, b) && Pending(m, b.ch, rest, live0) && rest != []
    requires LivePart(ch') == LivePart(b.ch) - {rest[0]} && SamePayload(m, m', LivePart(ch'))
    ensures Pending(m', ch', rest[1..], live0) && SamePayload(m, m', live0) && NoDup(rest)
  {
    TailNoDup(rest);
    var t := rest[1..];
    assert rest[0] in rest;
    forall j | 0 <= j < |t|
      ensures Fd(m', t[j]) == Link(t, j + 1)
    {
      var x := rest[j + 1];
      assert x in rest && x != rest[0] && x in LivePart(ch');
      AfterLive(m, fb, b, x);
      assert At(m', x + 8) == At(m, x + 8);
      assert Fd(m, rest[j + 1]) == Link(rest, j + 2);
    }
    forall q, a | q in live0 && q + 8 <= a < q + live0[q] + 4
      ensures At(m', a) == At(m, a)
    {
      assert q in LivePart(ch') && LivePart(ch')[q] == live0[q];
    }
  }

  lemma PendingStart(m: Mem, fb: seq<int>, b: Book, b': Book, i: int)
    requires Inv(m, fb, b) && 0 <= i < NFASTBINS && |fb| == NFASTBINS && |b.fast| == NFASTBINS && Detached(b, b', i)
    ensures Pending(m, b'.ch, b.fast[i], LivePart(b.ch)) && fb[i] == Link(b.fast[i], 0)
  {
    assert IsChain(m, fb[i], b.fast[i]) && FastOk(FastPart(b.ch), b.fast[i], i);
    forall q | q in LivePart(b.ch)
      ensures q !in b.fast[i]
    {
      assert q in b.fast[i] ==> q in FastPart(b.ch);
    }
  }

  lemma PendingDone(m: Mem, ch: Chunks, live0: map<int, int>)
    requires Pending(m, ch, [], live0)
    ensures LivePart(ch) == live0
  {
    assert forall q :: q in LivePart(ch) <==> q in live0;
  }

  lemma PendingHead(m: Mem, fb: seq<int>, b: Book, rest: seq<int>, live0: map<int, int>)
    requires Inv(m, fb, b) && Pending(m, b.ch, rest, live0)
    ensures (Link(rest, 0) == 0 <==> rest == [])
    ensures rest != [] ==> rest[0] in b.ch && b.ch[rest[0]].kind.Live? && Fd(m, rest[0]) == Link(rest[1..], 0)
    ensures rest != [] ==> ChunkSize(At(m, rest[0] + 4)) == b.ch[rest[0]].size
  {
    hide Inv, Pending;
    if rest != [] {
      PendingFirst(m, b.ch, rest, live0);
      AfterLive(m, fb, b, rest[0]);
      HeadRead(m, fb, b, rest[0]);
      hide LivePart;
    }
  }

  lemma PendingFirst(m: Mem, ch: Chunks, rest: seq<int>, live0: map<int, int>)
    requires Pending(m, ch, rest, live0) && rest != []
    ensures rest[0] in LivePart(ch) && Fd(m, rest[0]) == Link(rest[1..], 0)
  {
    hide LivePart, NoDup;
    assert rest[0] in rest;
    assert Link(rest, 1) == Link(rest[1..], 0);
  }

  lemma DetachedLimits(b: Book, b': Book, i: int, maxFast: int)
    requires |b.fast| == NFASTBINS && 0 <= i < NFASTBINS && Detached(b, b', i) && FastLimits(FastPart(b.ch), maxFast)
    ensures FastLimits(FastPart(b'.ch), maxFast)
  {
  }

  lemma AnyFast(fb: seq<int>, m: Mem, b: Book, i: int)
    requires Inv(m, fb, b) && 0 <= i < NFASTBINS && |fb| == NFASTBINS && fb[i] != 0
    ensures exists p :: p in FastPart(b.ch)
  {
    FastHead(m, fb, b, i);
    assert fb[i] in FastPart(b.ch);
  }

  lemma EmptyInv(m: Mem, fb: seq<int>)
    requires fb == seq(NFASTBINS, _ => 0)
    requires forall i {:trigger BinAt(i)} :: 1 <= i < NBINS ==>
      Fd(m, BinAt(i)) == BinAt(i) && Bk(m, BinAt(i)) == BinAt(i)
    ensures Inv(m, fb, Book(map[], seq(NBINS, _ => []), seq(NFASTBINS, _ => [])))
  {
    var b := Book(map[], seq(NBINS, _ => []), seq(NFASTBINS, _ => []));
    forall i | 1 <= i < NBINS
      ensures RingOk(m, b.bins[i], i) && BinOk(BinnedPart(b.ch), b.bins[i], i)
    {
    }
    forall i | 0 <= i < NFASTBINS
      ensures IsChain(m, fb[i], b.fast[i]) && FastOk(FastPart(b.ch), b.fast[i], i)
    {
    }
  }

  lemma EmptyTotal()
    ensures Total(map[]) == 0 && Holes(map[]) == {} && (forall p :: p !in FastPart(map[]))
      && (forall p :: p !in BinnedPart(map[]))
    ensures forall p :: p !in LivePart(map[])
  {
    assert Sizes(map[]) == map[];
  }

  lemma EmptyWords()
    ensures WordsOk(seq(BINMAPSIZE + 1, _ => 0))
  {
  }

  lemma FastOnList(fp: map<int, int>, fast: seq<seq<int>>, p: int)
    requires FastListed(fp, fast) && p in fp
    ensures 0 <= FastIndex(fp[p]) < |fast| && p in fast[FastIndex(fp[p])]
  {
  }

  /** A chunk on a fastbin has the index of its bin, so empty bins up to max_fast mean no fast chunk. */
  lemma NoFastLeft(m: Mem, fb: seq<int>, b: Book, maxFast: int)
    requires Inv(m, fb, b) && FastLimits(FastPart(b.ch), maxFast) && |b.fast| == NFASTBINS
    requires forall i :: 0 <= i <= FastIndex(maxFast) ==> b.fast[i] == []
    ensures forall p :: p !in FastPart(b.ch)
  {
    hide FastListed;
    var fp := FastPart(b.ch);
    forall p
      ensures p !in fp
    {
      if p in fp {
        FastOnList(fp, b.fast, p);
        assert false;
      }
    }
  }

  lemma LiveChunk(ch: Chunks, p: int)
    requires p in LivePart(ch)
    ensures p in ch && ch[p].kind.Live? && LivePart(ch)[p] == ch[p].size
  {
  }

  lemma FastIndexRange(size: int)
    requires size % 8 == 0 && MINSIZE <= size <= 88
    ensures 0 <= FastIndex(size) < NFASTBINS
  {
  }

  lemma PushTotals(b: Book, i: int, p: int)
    requires 0 <= i < |b.fast| && p in b.ch && b.ch[p].kind.Live?
    ensures var b' := PushBook(b, i, p);
            && Total(b'.ch) == Total(b.ch) && Holes(b'.ch) == Holes(b.ch) && DeadPart(b'.ch) == DeadPart(b.ch)
            && BinnedPart(b'.ch) == BinnedPart(b.ch) && FastPart(b'.ch) == FastPart(b.ch)[p := b.ch[p].size]
            && LivePart(b'.ch) == LivePart(b.ch) - {p} && b'.bins == b.bins && Starts(b'.ch) == Starts(b.ch)
            && (forall t :: TopIs(b.ch, t) ==> TopIs(b'.ch, t)) && p in b'.ch
            && TopPart(b'.ch) == TopPart(b.ch)
  {
    RetagCensus(b.ch, p, Fast);
    PushCensus(b.ch, p);
    HolesPart(b.ch);
    HolesPart(Retag(b.ch, p, Fast));
  }

  lemma ListedOf(m: Mem, fb: seq<int>, b: Book)
    requires Inv(m, fb, b)
    ensures Listed(BinnedPart(b.ch), b.bins) && Tiled(b.ch)
  {
  }

  lemma FindInBin(m: Mem, fb: seq<int>, b: Book, p: int) returns (k: int)
    requires Inv(m, fb, b) && p in b.ch && b.ch[p].kind.Binned?
    ensures |b.bins| == NBINS && 1 <= b.ch[p].kind.bin < NBINS
    ensures 0 <= k < |b.bins[b.ch[p].kind.bin]| && b.bins[b.ch[p].kind.bin][k] == p
  {
    var i := b.ch[p].kind.bin;
    assert p in BinnedPart(b.ch) && BinnedPart(b.ch)[p].bin == i;
    k :| 0 <= k < |b.bins[i]| && b.bins[i][k] == p;
  }
}
