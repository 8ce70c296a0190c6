/** Facts the allocating half rests on: splitting, sorting into bins, the bitmap scan, and best fit. */
module AllocSteps {
  import opened Memory
  import opened Ring
  import opened Heap
  import opened HeapSteps
  import opened TopSteps
  import opened Census
  import opened BinIndex
  import opened Binmap
  import opened FreeSteps
  import opened Joining

  lemma WholeInv(m: Mem, m': Mem, fb: seq<int>, b: Book, p: int, w: int)
    requires Inv(m, fb, b) && p in b.ch && b.ch[p].kind.Hole? && Succ(b.ch, p) in b.ch && FreeTags(m, b.ch, p)
    requires w == At(m, Succ(b.ch, p) + 4) && m' == m[Succ(b.ch, p) + 4 := w - w % 2 + PREV_INUSE]
    ensures Inv(m', fb, CloseBook(b, p)) && SamePayload(m, m', LivePart(b.ch))
    ensures LivePart(CloseBook(b, p).ch) == LivePart(b.ch)[p := b.ch[p].size]
  {
    var n := Succ(b.ch, p);
    assert TileOk(b.ch, p) && TileOk(b.ch, n);
    FlagBit(HeadSize(b.ch[n]));
    assert SameBut(m, m', TagWords(b.ch, p));
    hide Inv, SameBut, LivePart, SamePayload;
    CloseInv(m, m', fb, b, p);
  }

  /** The stores of a split, in the program's order: the remainder alone on the unsorted list,
      then both size words and the remainder's foot. */
  function SplitStores(m: Mem, p: int, nb: int, rs: int): Mem {
    var r, u := p + nb, BinAt(UNSORTED);
    m[u + 8 := r][u + 12 := r][r + 8 := u][r + 12 := u]
     [p + 4 := nb + PREV_INUSE][r + 4 := rs + PREV_INUSE][r + rs := rs]
  }

  ghost function SplitBook(b: Book, p: int, nb: int): Book
    requires p in b.ch && p + b.ch[p].size in b.ch && |b.bins| == NBINS
  {
    PutBook(CloseBook(b.(ch := SplitCh(b.ch, p, nb)), p), UNSORTED, 0, p + nb)
  }

  lemma SplitCloseReady(m: Mem, b: Book, p: int, nb: int)
    requires Tiled(b.ch) && CanSplit(b.ch, p, nb) && FreeTags(m, b.ch, p)
    ensures var m', ch1 := m[p + 4 := nb + PREV_INUSE], SplitCh(b.ch, p, nb);
            && p in ch1 && ch1[p].kind.Hole? && ch1[p].size == nb && Succ(ch1, p) in ch1
            && SameBut(m, m', TagWords(ch1, p)) && NextMarked(m', ch1, p)
            && At(m', p + 4) == ch1[p].size + if PrevFree(ch1, p) then 0 else PREV_INUSE
  {
    SplitFacts(b.ch, p, nb);
    assert TileOk(b.ch, p);
  }

  lemma SplitCloseInv(m: Mem, fb: seq<int>, b: Book, p: int, nb: int)
    requires Inv(m, fb, b) && CanSplit(b.ch, p, nb) && FreeTags(m, b.ch, p)
    ensures var b1 := b.(ch := SplitCh(b.ch, p, nb));
            && p in b1.ch && Inv(m[p + 4 := nb + PREV_INUSE], fb, CloseBook(b1, p))
            && SamePayload(m, m[p + 4 := nb + PREV_INUSE], LivePart(b.ch))
            && LivePart(CloseBook(b1, p).ch) == LivePart(b.ch)[p := nb]
  {
    hide Inv, SameBut, TagWords, NextMarked, PrevFree, FreeTags, LivePart, SplitCh, CloseBook;
    ListedOf(m, fb, b);
    SplitInv(m, fb, b, p, nb);
    SplitParts(b.ch, p, nb);
    SplitCloseReady(m, b, p, nb);
    CloseInv(m, m[p + 4 := nb + PREV_INUSE], fb, b.(ch := SplitCh(b.ch, p, nb)), p);
  }

  lemma SplitPutInv(m: Mem, ma: Mem, m': Mem, fb: seq<int>, b: Book, b2: Book, p: int, nb: int)
    requires Inv(m, fb, b) && CanSplit(b.ch, p, nb) && FreeTags(m, b.ch, p) && |b.bins| == NBINS
      && b.bins[UNSORTED] == []
    requires ma == m[p + 4 := nb + PREV_INUSE] && m' == SplitStores(m, p, nb, b.ch[p].size - nb)
    requires b2 == CloseBook(b.(ch := SplitCh(b.ch, p, nb)), p) && Inv(ma, fb, b2)
    ensures Inv(m', fb, SplitBook(b, p, nb)) && SamePayload(ma, m', LivePart(b2.ch))
  {
    var r, u := p + nb, BinAt(UNSORTED);
    var m1 := Inserted(ma, r, u, u);
    SplitFacts(b.ch, p, nb);
    assert TileOk(b.ch, p);
    SplitPutTags(m, m1, m', b, b2, p, nb);
    UnsortedFits(BinnedPart(b2.ch), [], b2.ch[r].size);
    hide Inv, SameBut, FreeTags, LivePart, BinnedPart, FitsAt;
    PutInv(ma, m1, m', fb, b2, UNSORTED, 0, r);
  }

  lemma SplitPutTags(m: Mem, m1: Mem, m': Mem, b: Book, b2: Book, p: int, nb: int)
    requires Tiled(b.ch) && CanSplit(b.ch, p, nb) && FreeTags(m, b.ch, p)
    requires m1 == Inserted(m[p + 4 := nb + PREV_INUSE], p + nb, BinAt(UNSORTED), BinAt(UNSORTED))
    requires m' == SplitStores(m, p, nb, b.ch[p].size - nb)
    requires b2 == CloseBook(b.(ch := SplitCh(b.ch, p, nb)), p)
    ensures var r := p + nb;
            && r in b2.ch && b2.ch[r] == Chunk(b.ch[p].size - nb, p, Hole) && Succ(b2.ch, r) in b2.ch
            && SameBut(m1, m', TagWords(b2.ch, r)) && FreeTags(m', b2.ch, r)
  {
    SplitFacts(b.ch, p, nb);
    assert TileOk(b.ch, p) && TileOk(b.ch, Succ(b.ch, p));
  }

  lemma SplitOffInv(m: Mem, m': Mem, fb: seq<int>, b: Book, p: int, nb: int)
    requires Inv(m, fb, b) && CanSplit(b.ch, p, nb) && FreeTags(m, b.ch, p) && |b.bins| == NBINS
      && b.bins[UNSORTED] == []
    requires m' == SplitStores(m, p, nb, b.ch[p].size - nb)
    ensures Inv(m', fb, SplitBook(b, p, nb)) && SamePayload(m, m', LivePart(b.ch))
  {
    hide Inv, LivePart, SamePayload;
    var ma, b2 := m[p + 4 := nb + PREV_INUSE], CloseBook(b.(ch := SplitCh(b.ch, p, nb)), p);
    SplitCloseInv(m, fb, b, p, nb);
    SplitPutInv(m, ma, m', fb, b, b2, p, nb);
    NotLive(b.ch, p);
    SamePayloadTransitive(m, ma, m', LivePart(b.ch), LivePart(b2.ch));
  }

  lemma NotLive(ch: Chunks, p: int)
    requires p in ch && !ch[p].kind.Live?
    ensures p !in LivePart(ch)
  {
  }

  /** The front of an open chunk goes into use, the rest stays open. */
  lemma FrontParts(ch: Chunks, p: int, nb: int, t: int)
    requires Tiled(ch) && CanSplit(ch, p, nb)
    ensures var ch1, q, r := SplitCh(ch, p, nb), PartsOf(ch), p + nb;
            && p in ch1
            && var ch2 := Retag(ch1, p, Live);
               && PartsOf(ch2) == q.(live := q.live[p := nb], holes := q.holes + {r} - {p}) && r !in q.holes
               && Total(ch2) == Total(ch) && (TopIs(ch, t) ==> TopIs(ch2, t))
               && r in ch2 && ch2[r].kind.Hole? && ch2[r].size == ch[p].size - nb
  {
    hide Tiled, SplitCh, Retag, Total, TopIs, LivePart, FastPart, BinnedPart, DeadPart, TopPart, Starts, Holes;
    var ch1 := SplitCh(ch, p, nb);
    SplitFacts(ch, p, nb);
    SplitCensus(ch, p, nb);
    SplitKinds(ch, p, nb);
    SplitPieces(ch, p, nb);
    NewHole(ch, p + nb);
    RetagCensus(ch1, p, Live);
    CloseCensus(ch1, p);
    if TopIs(ch, t) {
      SplitTop(ch, p, nb, t);
    }
  }

  lemma SplitTotals(b: Book, p: int, nb: int, t: int)
    requires Tiled(b.ch) && CanSplit(b.ch, p, nb) && |b.bins| == NBINS
    ensures var b', q := SplitBook(b, p, nb), PartsOf(b.ch);
            && PartsOf(b'.ch) == q.(live := q.live[p := nb],
               binned := q.binned[p + nb := Entry(b.ch[p].size - nb, UNSORTED)], holes := q.holes - {p})
            && Total(b'.ch) == Total(b.ch) && (TopIs(b.ch, t) ==> TopIs(b'.ch, t))
            && (b.bins[UNSORTED] == [] ==> b'.bins == b.bins[UNSORTED := [p + nb]]) && b'.fast == b.fast
  {
    hide Tiled, SplitCh, Retag, PartsOf, Total, TopIs;
    FrontParts(b.ch, p, nb, t);
    var ch2 := Retag(SplitCh(b.ch, p, nb), p, Live);
    RetagCensus(ch2, p + nb, Binned(UNSORTED));
    PutCensus(ch2, p + nb, UNSORTED);
    assert [][..0] + [p + nb] + [][0..] == [p + nb];
  }

  lemma SplitPieces(ch: Chunks, p: int, nb: int)
    requires Tiled(ch) && CanSplit(ch, p, nb)
    ensures var ch1 := SplitCh(ch, p, nb);
            && p in ch1 && ch1[p].kind.Hole? && ch1[p].size == nb
            && p + nb in ch1 && ch1[p + nb].kind.Hole? && ch1[p + nb].size == ch[p].size - nb
            && var ch2 := Retag(ch1, p, Live); p + nb in ch2 && ch2[p + nb] == ch1[p + nb]
  {
    SplitFacts(ch, p, nb);
  }

  lemma NewHole(ch: Chunks, r: int)
    requires r !in ch
    ensures r !in Holes(ch)
  {
  }

  lemma SplitReady(ch: Chunks, p: int, nb: int)
    requires p in ch && ch[p].kind.Hole? && Succ(ch, p) in ch && nb % 8 == 0 && MINSIZE <= nb
      && nb + MINSIZE <= ch[p].size
    ensures CanSplit(ch, p, nb)
  {
  }

  lemma NotEmpty(ch: Chunks, p: int)
    requires p in ch
    ensures ch != map[]
  {
  }

  // ---------------------------------------------------------------- placing a chunk in its bin

  lemma InsertedTags(m: Mem, fb: seq<int>, b: Book, i: int, p: int, bck: int, fwd: int)
    requires Inv(m, fb, b) && 1 <= i < NBINS && p in b.ch && b.ch[p].kind.Hole?
    requires InBinOrHeader(b.ch, bck, i) && InBinOrHeader(b.ch, fwd, i)
    requires Succ(b.ch, p) in b.ch && FreeTags(m, b.ch, p)
    ensures FreeTags(Inserted(m, p, bck, fwd), b.ch, p)
  {
    hide Inv, Tiled;
    ListedOf(m, fb, b);
    var ch, n := b.ch, Succ(b.ch, p);
    TileAt(ch, p);
    TileAt(ch, n);
    LinkWords(ch, n, p);
    LinkWords(ch, n, bck);
    LinkWords(ch, n, fwd);
    LinkWords(ch, p, bck);
    LinkWords(ch, p, fwd);
  }

  lemma InsertedInv(m: Mem, fb: seq<int>, b: Book, i: int, k: int, p: int, bck: int, fwd: int)
    requires Inv(m, fb, b) && 1 <= i < NBINS && p in b.ch && b.ch[p].kind.Hole? && |b.bins| == NBINS
    requires FitsAt(BinnedPart(b.ch), b.bins[i], i, k, b.ch[p].size)
    requires bck == Node(BinAt(i), b.bins[i], k - 1) && fwd == Node(BinAt(i), b.bins[i], k)
    requires Succ(b.ch, p) in b.ch && FreeTags(m, b.ch, p)
    ensures Inv(Inserted(m, p, bck, fwd), fb, PutBook(b, i, k, p))
    ensures SamePayload(m, Inserted(m, p, bck, fwd), LivePart(b.ch))
  {
    assert BinOk(BinnedPart(b.ch), b.bins[i], i);
    NodesInBin(b.ch, b.bins[i], i, k - 1);
    NodesInBin(b.ch, b.bins[i], i, k);
    InsertedTags(m, fb, b, i, p, bck, fwd);
    PutInv(m, Inserted(m, p, bck, fwd), Inserted(m, p, bck, fwd), fb, b, i, k, p);
  }

  /** The size word of a binned chunk, while the chunk in transit p borders no binned chunk. */
  lemma BinnedHead(m: Mem, fb: seq<int>, b: Book, p: int, q: int)
    requires Inv(m, fb, b) && p in b.ch && Holes(b.ch) == {p} && Succ(b.ch, p) in b.ch && FreeTags(m, b.ch, p)
    requires q in BinnedPart(b.ch)
    ensures At(m, q + 4) == BinnedPart(b.ch)[q].size + PREV_INUSE
    ensures q in b.ch && b.ch[q].kind.Binned? && b.ch[q].size == BinnedPart(b.ch)[q].size
  {
    assert TagOk(m, b.ch, q) && TileOk(b.ch, q);
    assert TileOk(b.ch, p) && b.ch[q].prev != p;
    OnlyHole(b.ch, p, q);
  }

  lemma OnlyHole(ch: Chunks, p: int, q: int)
    requires q in ch && Holes(ch) == {p} && ch[q].prev != p
    ensures !PrevHole(ch, q)
  {
    assert ch[q].prev !in Holes(ch);
  }

  /** The node at position k of bin i, its neighbours and its place in the bin. */
  lemma BinWalk(m: Mem, fb: seq<int>, b: Book, i: int, k: int)
    requires Inv(m, fb, b) && 1 <= i < NBINS
    ensures |b.bins| == NBINS
    ensures 0 <= k < |b.bins[i]| ==> var q := b.bins[i][k];
              && q in BinnedPart(b.ch) && BinnedPart(b.ch)[q].bin == i && q in b.ch && HEAP_BASE <= q
              && Fd(m, q) == Node(BinAt(i), b.bins[i], k + 1) && Bk(m, q) == Node(BinAt(i), b.bins[i], k - 1)
  {
    assert RingOk(m, b.bins[i], i) && BinOk(BinnedPart(b.ch), b.bins[i], i);
    if 0 <= k < |b.bins[i]| {
      BinMember(BinnedPart(b.ch), b.bins[i], i, k);
      assert TileOk(b.ch, b.bins[i][k]);
      RingAt(m, BinAt(i), b.bins[i], k);
    }
  }

  lemma BinOrder(m: Mem, fb: seq<int>, b: Book, i: int, j: int, k: int)
    requires Inv(m, fb, b) && 2 <= i < NBINS && |b.bins| == NBINS && 0 <= j <= k < |b.bins[i]|
    ensures var bp, s := BinnedPart(b.ch), b.bins[i];
            && s[j] in bp && s[k] in bp && bp[s[j]].size >= bp[s[k]].size
            && BinIndex.BinIndex(bp[s[j]].size) == i
  {
    assert BinOk(BinnedPart(b.ch), b.bins[i], i);
    BinMember(BinnedPart(b.ch), b.bins[i], i, j);
    BinMember(BinnedPart(b.ch), b.bins[i], i, k);
    assert b.bins[i][j] in b.bins[i];
  }

  lemma FitsIf(m: Mem, fb: seq<int>, b: Book, i: int, k: int, size: int)
    requires Inv(m, fb, b) && 2 <= i < NBINS && |b.bins| == NBINS && 0 <= k <= |b.bins[i]|
      && BinIndex.BinIndex(size) == i
    requires k > 0 ==> b.bins[i][k - 1] in BinnedPart(b.ch) && BinnedPart(b.ch)[b.bins[i][k - 1]].size >= size
    requires k < |b.bins[i]| ==> b.bins[i][k] in BinnedPart(b.ch) && size >= BinnedPart(b.ch)[b.bins[i][k]].size
    ensures FitsAt(BinnedPart(b.ch), b.bins[i], i, k, size)
  {
    var bp, s := BinnedPart(b.ch), b.bins[i];
    forall j | 0 <= j < k
      ensures s[j] in bp && bp[s[j]].size >= size
    {
      BinOrder(m, fb, b, i, j, k - 1);
    }
    forall j | k <= j < |s|
      ensures s[j] in bp && size >= bp[s[j]].size
    {
      BinOrder(m, fb, b, i, k, j);
    }
  }

  /** Among chunks of its own size a chunk goes first, in a small bin as in a large one; except that in a large
      bin whose smallest chunks have that size, it goes last. */
  ghost predicate SlotAmongEquals(bp: map<int, Entry>, s: seq<int>, k: int, size: int) {
    if size < MIN_LARGE_SIZE || s == [] then k == 0
    else if s[|s| - 1] in bp && size <= bp[s[|s| - 1]].size then k == |s|
    else forall j :: 0 <= j < k && j < |s| ==> s[j] in bp && bp[s[j]].size > size
  }

  lemma SlotIf(m: Mem, fb: seq<int>, b: Book, i: int, k: int, size: int)
    requires Inv(m, fb, b) && 2 <= i < NBINS && |b.bins| == NBINS && b.bins[i] != [] && 0 <= k <= |b.bins[i]|
      && size >= MIN_LARGE_SIZE
    requires var bp, s := BinnedPart(b.ch), b.bins[i];
             var last := s[|s| - 1];
             last in bp && if size <= bp[last].size then k == |s| else k > 0 ==>
               s[k - 1] in bp && bp[s[k - 1]].size > size
    ensures SlotAmongEquals(BinnedPart(b.ch), b.bins[i], k, size)
  {
    hide Inv, BinnedPart, BinIndex.BinIndex;
    var bp, s := BinnedPart(b.ch), b.bins[i];
    forall j | 0 <= j < k && j < |s|
      ensures s[j] in bp && (size > bp[s[|s| - 1]].size ==> bp[s[j]].size > size)
    {
      BinOrder(m, fb, b, i, j, k - 1);
    }
  }

  /** The documented order, ahead of all equals, is kept exactly unless the chunk is as large as the smallest one of
      a bin of large chunks. */
  lemma AheadOfEquals(bp: map<int, Entry>, s: seq<int>, i: int, k: int, size: int)
    requires i != UNSORTED && FitsAt(bp, s, i, k, size) && Descending(bp, s) && SlotAmongEquals(bp, s, k, size)
    requires s != [] && size >= MIN_LARGE_SIZE && s[|s| - 1] in bp
    ensures (forall j :: 0 <= j < k ==> s[j] in bp && bp[s[j]].size != size) <==> bp[s[|s| - 1]].size != size
  {
    var last := |s| - 1;
    forall j | 0 <= j < k && bp[s[last]].size > size
      ensures s[j] in bp && bp[s[j]].size > size
    {
      assert j < last ==> bp[s[j]].size >= bp[s[last]].size;
    }
    assert k == |s| ==> s[last] in bp && 0 <= last < k;
  }

  /** Such an input: a chunk of 512 bytes, filed in its bin with one more of that size in it, goes behind it. */
  lemma BehindItsEqual()
    ensures BinIndex.BinIndex(512) == 36
    ensures var bp, s := map[0x1000 := Entry(512, 36)], [0x1000];
            && FitsAt(bp, s, 36, 0, 512) && FitsAt(bp, s, 36, 1, 512)
            && SlotAmongEquals(bp, s, 1, 512) && !SlotAmongEquals(bp, s, 0, 512)
  {
    Log2Unique(2, 1);
    Pow2Table(1);
  }

  lemma SmallBinSizes(s: int, t: int)
    requires s % 8 == 0 && t % 8 == 0 && 0 <= s < MIN_LARGE_SIZE && BinIndex.BinIndex(s) == BinIndex.BinIndex(t)
      && 0 <= t
    ensures s == t
  {
    if t >= MIN_LARGE_SIZE {
      LargeIndexLarge(t);
    }
  }

  lemma LargeIndexLarge(t: int)
    requires t >= MIN_LARGE_SIZE
    ensures BinIndex.BinIndex(t) >= 32
  {
    if t / 256 < 0x10000 {
      var m, j := LargebinWhere(t);
    }
  }

  /** The bin of a size, as free chunks are filed: exact sizes below 256 bytes. */
  predicate InSmallRange(sz: int) { sz < MIN_LARGE_SIZE }

  lemma BinSizes(m: Mem, fb: seq<int>, b: Book, q: int)
    requires Inv(m, fb, b) && q in BinnedPart(b.ch)
    ensures BinnedPart(b.ch)[q].size % 8 == 0 && MINSIZE <= BinnedPart(b.ch)[q].size
    ensures q in b.ch && b.ch[q].kind == Binned(BinnedPart(b.ch)[q].bin) && b.ch[q].size == BinnedPart(b.ch)[q].size
  {
    assert TileOk(b.ch, q);
  }

  lemma ChunkBound(m: Mem, fb: seq<int>, b: Book, p: int)
    requires Inv(m, fb, b) && p in b.ch
    ensures b.ch[p].size < ADDRESS_LIMIT
  {
    assert TileOk(b.ch, p);
  }

  lemma MapOkWith(binmap: seq<nat>, bins: seq<seq<int>>, i: int, s: seq<int>)
    requires MapOk(binmap, bins) && 2 <= i < NBINS
    ensures MapOk(MarkBin(binmap, i), bins[i := s])
  {
    MarkBinMarks(binmap, i);
  }

  lemma TransitNext(b: Book, p: int, n: int)
    requires n in b.ch && Holes(b.ch) == {p} && n != p
    ensures !b.ch[n].kind.Hole?
  {
    assert n !in Holes(b.ch);
  }

  /** The free chunks and their sizes, whatever bins they are in. */
  ghost predicate SameFree(bp: map<int, Entry>, bp': map<int, Entry>) {
    && (forall p :: p in bp <==> p in bp')
    && (forall p :: p in bp && p in bp' ==> bp'[p].size == bp[p].size)
  }

  /** Which way an allocation was satisfied. */
  datatype Outcome =
    | Refused
    | FromFastbin
    | FromSmallbin
    | LastRemainder
    | ExactUnsorted
    | BestFit
    | FromTop
    | FromSystem

  /** v is a new live block of at least nb bytes, with less than a minimal chunk to spare. */
  ghost predicate Taken(live0: map<int, int>, live1: map<int, int>, v: int, nb: int) {
    && v !in live0 && v in live1 && live1 == live0[v := live1[v]]
    && nb <= live1[v] < nb + MINSIZE
  }

  lemma TakenNow(live0: map<int, int>, v: int, nb: int, size: int)
    requires v !in live0 && nb <= size < nb + MINSIZE
    ensures Taken(live0, live0[v := size], v, nb)
  {
  }

  lemma BinnedNotLive(ch: Chunks, p: int)
    requires p in ch && ch[p].kind.Binned?
    ensures p !in LivePart(ch) && p in BinnedPart(ch) && BinnedPart(ch)[p] == Entry(ch[p].size, ch[p].kind.bin)
  {
  }

  /** The last chunk of a list, as read through the header's bk word. */
  lemma LastOf(m: Mem, fb: seq<int>, b: Book, i: int)
    requires Inv(m, fb, b) && 1 <= i < NBINS && Holes(b.ch) == {}
    ensures |b.bins| == NBINS && (Bk(m, BinAt(i)) == BinAt(i) <==> b.bins[i] == [])
    ensures b.bins[i] != [] ==> var v := Bk(m, BinAt(i));
              && v == b.bins[i][|b.bins[i]| - 1] && v in b.ch && b.ch[v].kind == Binned(i)
              && ChunkSize(At(m, v + 4)) == b.ch[v].size && b.ch[v].size % 8 == 0 && MINSIZE <= b.ch[v].size
              && HEAP_BASE <= v && v % 8 == 0
  {
    RingHead(m, fb, b, i);
    var s := b.bins[i];
    if s != [] {
      BinWalk(m, fb, b, i, |s| - 1);
      var v := s[|s| - 1];
      BinSizes(m, fb, b, v);
      HeadRead(m, fb, b, v);
      assert TileOk(b.ch, v);
    }
  }

  lemma WithoutLast(s: seq<int>, k: int)
    requires 0 <= k < |s|
    ensures |Without(s, k)| == |s| - 1
  {
  }

  lemma SameFreeMoved0(bp: map<int, Entry>, p: int, i: int)
    requires p in bp
    ensures SameFree(bp, (bp - {p})[p := Entry(bp[p].size, i)])
  {
  }

  lemma OtherBin(size: int, nb: int)
    requires size % 8 == 0 && nb % 8 == 0 && MINSIZE <= size && MINSIZE <= nb && size != nb
    ensures nb < MIN_LARGE_SIZE ==> 2 <= nb / 8 < 32 && BinIndex.BinIndex(size) != nb / 8
    ensures BinIndex.BinIndex(size) != UNSORTED
  {
    BinIndexRange(size);
    if nb < MIN_LARGE_SIZE && BinIndex.BinIndex(size) == nb / 8 {
      SmallBinSizes(nb, size);
    }
  }

  /** A chunk of the unsorted list whose bk is the header is alone when it is also the last. */
  lemma OnlyUnsorted(m: Mem, fb: seq<int>, b: Book, v: int)
    requires Inv(m, fb, b) && v in b.ch && b.ch[v].kind == Binned(UNSORTED) && |b.bins| == NBINS
    requires Bk(m, v) == BinAt(UNSORTED) && Bk(m, BinAt(UNSORTED)) == v
    ensures b.bins[UNSORTED] == [v]
  {
    var s := b.bins[UNSORTED];
    RingHead(m, fb, b, UNSORTED);
    assert TileOk(b.ch, v);
    BinWalk(m, fb, b, UNSORTED, |s| - 1);
    if |s| > 1 {
      BinWalk(m, fb, b, UNSORTED, |s| - 2);
    }
  }

  /** A chunk that is alone on the unsorted list has the header before it. */
  lemma AloneUnsorted(m: Mem, fb: seq<int>, b: Book, v: int)
    requires Inv(m, fb, b) && |b.bins| == NBINS && b.bins[UNSORTED] == [v]
    ensures Bk(m, v) == BinAt(UNSORTED)
  {
    assert RingOk(m, b.bins[UNSORTED], UNSORTED);
    RingAt(m, BinAt(UNSORTED), b.bins[UNSORTED], 0);
  }

  /** Off the end of a list. */
  lemma TakenLast(m: Mem, fb: seq<int>, b: Book, i: int, k: int, v: int)
    requires Inv(m, fb, b) && 1 <= i < NBINS && |b.bins| == NBINS && 0 <= k < |b.bins[i]| && b.bins[i][k] == v
      && v == b.bins[i][|b.bins[i]| - 1]
    ensures Without(b.bins[i], k) == b.bins[i][..|b.bins[i]| - 1]
  {
    hide Tiled, Tagged, Rings, Chains, FastListed;
    assert BinOk(BinnedPart(b.ch), b.bins[i], i);
    assert k == |b.bins[i]| - 1;
  }

  lemma SameFreeTransitive(a: map<int, Entry>, b: map<int, Entry>, c: map<int, Entry>)
    requires (a == b || SameFree(a, b)) && SameFree(b, c)
    ensures SameFree(a, c)
  {
  }

  /** No free chunk has exactly this size. */
  ghost predicate NoneExact(bp: map<int, Entry>, nb: int) {
    forall q :: q in bp ==> bp[q].size != nb
  }

  /** With the small bin of nb empty and one larger chunk unsorted, no free chunk has size nb. */
  lemma NoExactFit(m: Mem, fb: seq<int>, b: Book, v: int, nb: int, bp0: map<int, Entry>)
    requires Inv(m, fb, b) && |b.bins| == NBINS && |b.bins[UNSORTED]| == 1 && Bk(m, BinAt(UNSORTED)) == v
      && v in b.ch && b.ch[v].size > nb
    requires nb % 8 == 0 && MINSIZE <= nb < MIN_LARGE_SIZE && b.bins[nb / 8] == [] && SameFree(bp0, BinnedPart(b.ch))
    ensures NoneExact(bp0, nb)
  {
    var bp := BinnedPart(b.ch);
    RingHead(m, fb, b, UNSORTED);
    forall q | q in bp0
      ensures bp0[q].size != nb
    {
      assert q in bp;
      BinnedWhere(m, fb, b, q);
      BinSizes(m, fb, b, q);
      assert bp[q].bin == UNSORTED ==> q == v;
    }
  }

  /** A binned chunk is in the bin of its index, unless it is still on the unsorted list. */
  lemma BinnedWhere(m: Mem, fb: seq<int>, b: Book, q: int)
    requires Inv(m, fb, b) && q in BinnedPart(b.ch)
    ensures var e := BinnedPart(b.ch)[q];
            && 1 <= e.bin < NBINS == |b.bins| && q in b.bins[e.bin]
            && (e.bin != UNSORTED ==> BinIndex.BinIndex(e.size) == e.bin)
  {
    var e := BinnedPart(b.ch)[q];
    assert q in b.bins[e.bin];
    assert BinOk(BinnedPart(b.ch), b.bins[e.bin], e.bin);
  }

  lemma SameFreeOfSame(bp: map<int, Entry>)
    ensures SameFree(bp, bp)
  {
  }

  // ---------------------------------------------------------------- scanning the bitmap

  ghost predicate AllEmpty(bins: seq<seq<int>>, lo: int, hi: int) {
    |bins| == NBINS && forall j {:trigger bins[j]} :: lo <= j < hi && 2 <= j < NBINS ==> bins[j] == []
  }

  /** bit is the mask of bin i in its block, or zero once it has been shifted out. */
  ghost predicate BitOf(bit: int, block: int, i: int) {
    && 0 <= block <= 3 && 32 * block <= i <= 32 * block + 32
    && bit == if i == 32 * block + 32 then 0 else Pow2(i - 32 * block)
  }

  function ShlBit(bit: nat): nat { bit * 2 % WORD }

  lemma NextBit(bit: nat, block: int, i: int)
    requires BitOf(bit, block, i) && i < 32 * block + 32
    ensures BitOf(ShlBit(bit), block, i + 1) && bit > 0
  {
    var k := i - 32 * block;
    Pow2Word();
    Pow2Monotone(k + 1, 32);
    assert Pow2(k + 1) == 2 * Pow2(k);
    if k < 31 {
      Pow2Monotone(k + 1, 31);
      assert Pow2(32) == 2 * Pow2(31);
    }
  }

  /** bit > map, or bit shifted out: the rest of the block is unmarked, hence empty. */
  lemma RestEmpty(binmap: seq<nat>, bins: seq<seq<int>>, bit: nat, block: int, i: int)
    requires MapOk(binmap, bins) && BitOf(bit, block, i) && (bit > binmap[block] || bit == 0)
    ensures AllEmpty(bins, i, 32 * block + 32)
  {
    hide MapOk, Bit, Pow2;
    MapOkBins(binmap, bins);
    forall j | i <= j < 32 * block + 32 && 2 <= j < NBINS
      ensures bins[j] == []
    {
      NoneAbove(binmap[block], i - 32 * block, j - 32 * block);
      ClearBitEmpty(binmap, bins, block, j);
    }
  }

  lemma ClearBitEmpty(binmap: seq<nat>, bins: seq<seq<int>>, block: int, j: int)
    requires MapOk(binmap, bins) && 0 <= block <= 3 && 32 * block <= j < 32 * block + 32 && 2 <= j < NBINS
    requires !Bit(binmap[block], j - 32 * block)
    ensures bins[j] == []
  {
    hide Bit, WordsOk;
    assert j / 32 == block && j % 32 == j - 32 * block;
    assert !IsMarked(binmap, j);
  }

  lemma BlockEmpty(binmap: seq<nat>, bins: seq<seq<int>>, block: int)
    requires MapOk(binmap, bins) && 0 <= block <= 3 && binmap[block] == 0
    ensures AllEmpty(bins, 32 * block, 32 * block + 32)
  {
    RestEmpty(binmap, bins, 1, block, 32 * block);
  }

  lemma UnmarkedEmpty(binmap: seq<nat>, bins: seq<seq<int>>, bit: nat, block: int, i: int)
    requires MapOk(binmap, bins) && BitOf(bit, block, i) && i < 32 * block + 32 && bit > 0
      && Masked(binmap[block], bit) == 0
    ensures AllEmpty(bins, i, i + 1) && !Bit(binmap[block], i - 32 * block)
  {
    MaskedIsBit(binmap[block], i - 32 * block);
    assert !IsMarked(binmap, i);
  }

  lemma AllEmptyJoin(bins: seq<seq<int>>, a: int, b: int, c: int)
    requires AllEmpty(bins, a, b) && AllEmpty(bins, b, c)
    ensures AllEmpty(bins, a, c)
  {
  }

  lemma UnmarkOk(binmap: seq<nat>, bins: seq<seq<int>>, block: int, bit: nat, i: int)
    requires MapOk(binmap, bins) && BitOf(bit, block, i) && 2 <= i < NBINS && i < 32 * block + 32 && bins[i] == []
    ensures bit > 0 && MapOk(binmap[block := Unmarked(binmap[block], bit)], bins)
  {
    hide Bit, Unmarked, Pow2, WordsOk, IsMarked;
    UnmarkBinUnmarks(binmap, i);
    assert i / 32 == block && i % 32 == i - 32 * block;
  }

  lemma ScanStart(binmap: seq<nat>, bins: seq<seq<int>>, idx: int)
    requires MapOk(binmap, bins) && 2 <= idx <= NBINS
    ensures |binmap| == BINMAPSIZE + 1 && 0 <= Idx2Block(idx) <= 3 && BitOf(Idx2Bit(idx), Idx2Block(idx), idx)
    ensures |bins| == NBINS && AllEmpty(bins, idx, idx)
  {
  }

  lemma BitRange(bit: int, block: int, i: int)
    requires BitOf(bit, block, i)
    ensures 0 <= block <= 3 && 32 * block <= i <= 32 * block + 32 && (bit == 0 <==> i == 32 * block + 32) && bit >= 0
  {
  }

  lemma AllEmptyPrefix(bins: seq<seq<int>>, a: int, b: int, c: int)
    requires AllEmpty(bins, a, b) && c <= b
    ensures AllEmpty(bins, a, c)
  {
  }

  lemma OneEmpty(bins: seq<seq<int>>, i: int)
    requires |bins| == NBINS && 0 <= i < NBINS && bins[i] == []
    ensures AllEmpty(bins, i, i + 1)
  {
  }

  lemma FirstBit(block: int)
    requires 0 <= block <= 3
    ensures BitOf(1, block, 32 * block)
  {
    assert Pow2(0) == 1;
  }

  lemma BitPositive(bit: int, block: int, i: int)
    requires BitOf(bit, block, i) && i < 32 * block + 32
    ensures bit > 0
  {
  }

  /** bit <= map and bit not shifted out: some bit at or above it is set. */
  lemma MarkedAbove(map_: nat, bit: int, block: int, i: int) returns (j: int)
    requires BitOf(bit, block, i) && 0 < bit <= map_ < WORD
    ensures i <= j < 32 * block + 32 && Bit(map_, j - 32 * block)
  {
    Pow2Word();
    var k := SomeAbove(map_, i - 32 * block, 32);
    j := 32 * block + k;
  }

  /** Only real bins are marked: the trailing word of the bitmap is zero. */
  lemma MarkedInRange(binmap: seq<nat>, bins: seq<seq<int>>, map_: nat, bit: nat, block: int, i: int)
    requires MapOk(binmap, bins) && 0 <= block <= 3 && map_ == binmap[block] && BitOf(bit, block, i) && bit > 0
      && Masked(map_, bit) != 0
    ensures i < NBINS && i < 32 * block + 32
  {
  }

  // ---------------------------------------------------------------- best fit

  /** v is a smallest free chunk among those of at least nb bytes. */
  ghost predicate BestFitting(bp: map<int, Entry>, v: int, nb: int) {
    && v in bp && bp[v].size >= nb
    && forall q :: q in bp && bp[q].size >= nb ==> bp[v].size <= bp[q].size
  }

  ghost predicate NoneFits(bp: map<int, Entry>, nb: int) {
    forall q :: q in bp ==> bp[q].size < nb
  }

  ghost predicate BinTooSmall(bp: map<int, Entry>, s: seq<int>, nb: int) {
    forall q :: q in s ==> q in bp && bp[q].size < nb
  }

  /** v is the last chunk of list s that is large enough: its equals are ahead of it. */
  ghost predicate LastFitting(bp: map<int, Entry>, s: seq<int>, v: int, nb: int) {
    exists k :: 0 <= k < |s| && s[k] == v && forall j :: k < j < |s| ==> s[j] in bp && bp[s[j]].size < nb
  }

  ghost predicate BestInBin(bp: map<int, Entry>, s: seq<int>, v: int, nb: int) {
    && v in s && v in bp && bp[v].size >= nb && LastFitting(bp, s, v, nb)
    && forall q :: q in s && q in bp && bp[q].size >= nb ==> bp[v].size <= bp[q].size
  }

  /** In the bin it is in. */
  ghost predicate LastOfBin(b: Book, v: int, nb: int) {
    var bp := BinnedPart(b.ch);
    v in bp && 0 <= bp[v].bin < |b.bins| && LastFitting(bp, b.bins[bp[v].bin], v, nb)
  }

  lemma FoundInBin(b: Book, v: int, nb: int)
    requires v in BinnedPart(b.ch) && 0 <= BinnedPart(b.ch)[v].bin < |b.bins|
      && LastFitting(BinnedPart(b.ch), b.bins[BinnedPart(b.ch)[v].bin], v, nb)
    ensures LastOfBin(b, v, nb)
  {
  }

  /** The search order finds the best fit: an index below i means a size below nb, and an index above i
      means a size above v's, because bin indices are monotone in sizes. */
  lemma BestFitOverall(m: Mem, fb: seq<int>, b: Book, nb: int, i: int, v: int)
    requires Inv(m, fb, b) && |b.bins| == NBINS && b.bins[UNSORTED] == [] && nb >= MINSIZE
    requires BinIndex.BinIndex(nb) <= i < NBINS && 2 <= i && BestInBin(BinnedPart(b.ch), b.bins[i], v, nb)
    requires i > BinIndex.BinIndex(nb) ==> BinTooSmall(BinnedPart(b.ch), b.bins[BinIndex.BinIndex(nb)], nb)
    requires AllEmpty(b.bins, BinIndex.BinIndex(nb) + 1, i)
    ensures BestFitting(BinnedPart(b.ch), v, nb)
    ensures BinnedPart(b.ch)[v].bin == i && LastFitting(BinnedPart(b.ch), b.bins[i], v, nb)
  {
    hide LastFitting;
    var bp := BinnedPart(b.ch);
    BinIndexRange(nb);
    BinSizes(m, fb, b, v);
    BinnedWhere(m, fb, b, v);
    BinHolds(m, fb, b, i, v);
    forall q | q in bp && bp[q].size >= nb
      ensures bp[v].size <= bp[q].size
    {
      BinnedWhere(m, fb, b, q);
      BinIndexMonotone(nb, bp[q].size);
      var j := bp[q].bin;
      if j > i && bp[q].size < bp[v].size {
        BinIndexMonotone(bp[q].size, bp[v].size);
      }
    }
  }

  lemma BinHolds(m: Mem, fb: seq<int>, b: Book, i: int, v: int)
    requires Inv(m, fb, b) && 1 <= i < NBINS == |b.bins| && v in b.bins[i]
    ensures v in BinnedPart(b.ch) && BinnedPart(b.ch)[v].bin == i
  {
    assert BinOk(BinnedPart(b.ch), b.bins[i], i);
  }

  lemma NoneFitsOverall(m: Mem, fb: seq<int>, b: Book, nb: int)
    requires Inv(m, fb, b) && |b.bins| == NBINS && b.bins[UNSORTED] == [] && nb >= MINSIZE
    requires 2 <= BinIndex.BinIndex(nb) < NBINS && BinTooSmall(BinnedPart(b.ch), b.bins[BinIndex.BinIndex(nb)], nb)
    requires AllEmpty(b.bins, BinIndex.BinIndex(nb) + 1, NBINS)
    ensures NoneFits(BinnedPart(b.ch), nb)
  {
    hide Inv, BinnedPart, BinIndex.BinIndex;
    var bp := BinnedPart(b.ch);
    forall q | q in bp
      ensures bp[q].size < nb
    {
      BinnedWhere(m, fb, b, q);
      BinSizes(m, fb, b, q);
      if bp[q].size >= nb {
        BinIndexMonotone(nb, bp[q].size);
      }
    }
  }

  /** The last chunk of a bin of larger index is the smallest of its bin, and fits. */
  lemma LastIsBest(m: Mem, fb: seq<int>, b: Book, nb: int, i: int)
    requires Inv(m, fb, b) && |b.bins| == NBINS && nb >= MINSIZE && BinIndex.BinIndex(nb) < i < NBINS && 2 <= i
      && b.bins[i] != []
    ensures BestInBin(BinnedPart(b.ch), b.bins[i], b.bins[i][|b.bins[i]| - 1], nb)
  {
    hide Inv, BinnedPart, BinIndex.BinIndex;
    var bp, s := BinnedPart(b.ch), b.bins[i];
    var v := s[|s| - 1];
    BinOrder(m, fb, b, i, |s| - 1, |s| - 1);
    BinSizes(m, fb, b, v);
    if bp[v].size < nb {
      BinIndexMonotone(bp[v].size, nb);
    }
    forall q | q in s && q in bp
      ensures bp[v].size <= bp[q].size
    {
      var j :| 0 <= j < |s| && s[j] == q;
      BinOrder(m, fb, b, i, j, |s| - 1);
    }
  }

  lemma FirstIsBest(m: Mem, fb: seq<int>, b: Book, i: int, k: int, nb: int)
    requires Inv(m, fb, b) && 2 <= i < NBINS == |b.bins| && 0 <= k < |b.bins[i]|
    requires var bp, s := BinnedPart(b.ch), b.bins[i];
             && s[k] in bp && bp[s[k]].size >= nb && forall j :: k < j < |s| ==> s[j] in bp && bp[s[j]].size < nb
    ensures BestInBin(BinnedPart(b.ch), b.bins[i], b.bins[i][k], nb)
  {
    var bp, s := BinnedPart(b.ch), b.bins[i];
    forall q | q in s && q in bp && bp[q].size >= nb
      ensures bp[s[k]].size <= bp[q].size
    {
      var j :| 0 <= j < |s| && s[j] == q;
      BinOrder(m, fb, b, i, if j <= k then j else k, k);
    }
  }

  lemma AllTooSmall(bp: map<int, Entry>, s: seq<int>, nb: int)
    requires forall j :: 0 <= j < |s| ==> s[j] in bp && bp[s[j]].size < nb
    ensures BinTooSmall(bp, s, nb)
  {
  }

  /** An exact fit is a best fit. */
  lemma ExactIsBest(bp0: map<int, Entry>, bp: map<int, Entry>, v: int, nb: int)
    requires SameFree(bp0, bp) && v in bp && bp[v].size == nb
    ensures BestFitting(bp0, v, nb)
  {
  }

  lemma ExactNow(ch: Chunks, v: int, nb: int)
    requires v in ch && ch[v].kind.Binned? && ch[v].size == nb
    ensures v in BinnedPart(ch) && BinnedPart(ch)[v].size == nb
  {
  }

  lemma BestOfSame(bp0: map<int, Entry>, bp: map<int, Entry>, v: int, nb: int)
    requires SameFree(bp0, bp)
    ensures BestFitting(bp0, v, nb) <==> BestFitting(bp, v, nb)
    ensures NoneFits(bp0, nb) <==> NoneFits(bp, nb)
  {
  }

  lemma NoneFitsNone(bp: map<int, Entry>, nb: int)
    requires forall p :: p !in bp
    ensures NoneFits(bp, nb)
  {
  }

  // ---------------------------------------------------------------- fastbins

  lemma PopTotals(b: Book, i: int, p: int)
    requires 0 <= i < |b.fast| && b.fast[i] != [] && p == b.fast[i][0] && p in b.ch && b.ch[p].kind.Fast?
    ensures var b', q := PopBook(b, i), PartsOf(b.ch);
            && PartsOf(b'.ch) == q.(live := q.live[p := b.ch[p].size], fast := q.fast - {p})
            && Total(b'.ch) == Total(b.ch) && b'.bins == b.bins && (forall t :: TopIs(b.ch, t) ==> TopIs(b'.ch, t))
            && p !in q.live && p in q.fast && p in b'.ch
  {
    RetagCensus(b.ch, p, Live);
    PopCensus(b.ch, p);
  }

  lemma FastSizeOf(size: int, nb: int)
    requires FastIndex(size) == FastIndex(nb) && size % 8 == 0 && nb % 8 == 0
    ensures size == nb
  {
  }

  lemma FlagIsSet(fp: map<int, int>, p: int, fastChunks: bool)
    requires FlagOk(fp, fastChunks) && p in fp
    ensures fastChunks
  {
  }

  lemma FlagAfterPop(fp: map<int, int>, p: int, fastChunks: bool)
    requires FlagOk(fp, fastChunks) && p in fp
    ensures FlagOk(fp - {p}, fastChunks)
  {
  }

  lemma FastShape(m: Mem, fb: seq<int>, b: Book, p: int)
    requires Inv(m, fb, b) && p in b.ch
    ensures p % 8 == 0 && p > 0 && b.ch[p].size % 8 == 0
  {
    assert TileOk(b.ch, p);
  }

  lemma InSmallBin(m: Mem, fb: seq<int>, b: Book, v: int, nb: int)
    requires Inv(m, fb, b) && nb % 8 == 0 && MINSIZE <= nb < MIN_LARGE_SIZE && v in b.ch
      && b.ch[v].kind == Binned(nb / 8)
    ensures b.ch[v].size == nb
  {
    assert v in BinnedPart(b.ch);
    BinnedWhere(m, fb, b, v);
    BinSizes(m, fb, b, v);
    SmallBinSizes(nb, b.ch[v].size);
  }

  lemma EmptyTooSmall(bp: map<int, Entry>, s: seq<int>, nb: int)
    requires s == []
    ensures BinTooSmall(bp, s, nb)
  {
  }

  lemma BestIn(bp: map<int, Entry>, v: int, nb: int)
    requires BestFitting(bp, v, nb)
    ensures v in bp && bp[v].size >= nb
  {
  }

  lemma ChunkShape(m: Mem, fb: seq<int>, b: Book, v: int)
    requires Inv(m, fb, b) && v in BinnedPart(b.ch)
    ensures v % 8 == 0 && v > 0
  {
    assert TileOk(b.ch, v);
  }

  lemma SameFreeNone(bp: map<int, Entry>, bp': map<int, Entry>)
    requires (forall p :: p !in bp) && forall p :: p !in bp'
    ensures SameFree(bp, bp')
  {
  }

  /** Requests of at least this size would wrap around zero when padded. */
  const REQUEST_LIMIT := ADDRESS_LIMIT - 2 * MINSIZE

  lemma PaddedSize(bytes: int)
    requires 0 <= bytes < REQUEST_LIMIT
    ensures var nb := Request2Size(bytes); nb % 8 == 0 && MINSIZE <= nb <= ADDRESS_LIMIT - 24 && bytes + SIZE_SZ <= nb
  {
  }

  /** The internal retry asks for nb - 7 bytes, which pads back to nb. */
  lemma PadsBack(nb: int)
    requires nb % 8 == 0 && MINSIZE <= nb
    ensures Request2Size(nb - MALLOC_ALIGN_MASK) == nb
  {
  }

  /** A chunk on a list follows a chunk in use, and its size word says so. */
  lemma FreeHead(m: Mem, m': Mem, fb: seq<int>, b: Book, p: int, w: int)
    requires Inv(m, fb, b) && p in b.ch && b.ch[p].kind.Hole? && Succ(b.ch, p) in b.ch && FreeTags(m, b.ch, p)
    requires m' == m[Succ(b.ch, p) + 4 := w]
    ensures At(m', p + 4) % 2 == PREV_INUSE
  {
    assert TileOk(b.ch, p);
    FlagBit(b.ch[p].size);
  }

  lemma SplitHead(m: Mem, p: int, nb: int, rs: int)
    requires nb % 8 == 0 && MINSIZE <= nb && MINSIZE <= rs
    ensures At(SplitStores(m, p, nb, rs), p + 4) % 2 == PREV_INUSE
  {
    var r, u := p + nb, BinAt(UNSORTED);
    LastStores(m[u + 8 := r][u + 12 := r][r + 8 := u][r + 12 := u], p + 4, nb + PREV_INUSE, r + 4, rs + PREV_INUSE,
      r + rs, rs);
    FlagBit(nb);
  }

  lemma LastStores(m: Mem, x: int, v: int, y: int, a: int, z: int, b: int)
    requires x != y && x != z
    ensures At(m[x := v][y := a][z := b], x) == v
  {
  }

  // ---------------------------------------------------------------- what an allocation promises

  /** A heap, as a value: the one a choice was made from. */
  datatype Snapshot = Snapshot(mem: Mem, fastbins: seq<int>, book: Book, top: int, lastRemainder: int)

  /** s is the heap of catalogue b with its fastbins consolidated: the same blocks in use, the same regions,
      the same memory obtained and lost, and no chunk left on a fastbin. */
  ghost predicate Consolidated(s: Snapshot, b: Book) {
    && Inv(s.mem, s.fastbins, s.book) && TopOk(s.mem, s.book.ch, s.top)
    && Holes(s.book.ch) == {} && (forall p :: p !in FastPart(s.book.ch))
    && LivePart(s.book.ch) == LivePart(b.ch) && DeadPart(s.book.ch) == DeadPart(b.ch)
    && Starts(s.book.ch) == Starts(b.ch) && Total(s.book.ch) == Total(b.ch)
  }

  /** The chunks of the fastbins of b have joined its free space one by one, unsorted being its unsorted list. */
  ghost predicate Ordered(s: Snapshot, b: Book, unsorted: seq<int>) {
    SpaceOf(s.book) == FastJoined(SpaceOf(b).(unsorted := unsorted), b.fast, 0)
  }

  lemma OrderedNow(s: Snapshot, b: Book)
    requires SpaceOf(s.book) == FastJoined(SpaceOf(b), b.fast, 0)
    ensures Ordered(s, b, UnsortedIn(b.bins))
  {
    hide FastJoined, FreeSizes, BinnedPart, TopPart, UnsortedIn;
  }

  /** Filing all unsorted chunks makes no difference to sizes and addresses. */
  lemma OrderedLater(s: Snapshot, b: Book, b0: Book)
    requires Ordered(s, b, []) && SameFree(BinnedPart(b0.ch), BinnedPart(b.ch)) && TopPart(b.ch) == TopPart(b0.ch)
      && b.fast == b0.fast
    ensures Ordered(s, b0, [])
  {
    hide FastJoined, BinnedPart, TopPart;
    SameSizes(BinnedPart(b0.ch), BinnedPart(b.ch));
  }

  lemma SameSizes(bp: map<int, Entry>, bp': map<int, Entry>)
    requires SameFree(bp, bp')
    ensures FreeSizes(bp') == FreeSizes(bp)
  {
  }

  lemma ConsolidatedLater(s: Snapshot, b: Book, b0: Book)
    requires Consolidated(s, b)
    requires LivePart(b.ch) == LivePart(b0.ch) && DeadPart(b.ch) == DeadPart(b0.ch) && Starts(b.ch) == Starts(b0.ch)
      && Total(b.ch) == Total(b0.ch)
    ensures Consolidated(s, b0)
  {
  }

  lemma ConsolidatedNow(m: Mem, fb: seq<int>, b: Book, t: int, r: int, b0: Book)
    requires Inv(m, fb, b) && TopOk(m, b.ch, t) && Holes(b.ch) == {} && (forall p :: p !in FastPart(b.ch))
    requires LivePart(b.ch) == LivePart(b0.ch) && DeadPart(b.ch) == DeadPart(b0.ch) && Starts(b.ch) == Starts(b0.ch)
      && Total(b.ch) == Total(b0.ch)
    ensures Consolidated(Snapshot(m, fb, b, t, r), b0)
  {
  }

  /** With no chunk on a fastbin, a free chunk lies between blocks in use, dead chunks and the edge of its region. */
  lemma FreeBounds(s: Snapshot, b: Book, p: int)
    requires Consolidated(s, b) && p in s.book.ch && s.book.ch[p].kind.Binned?
    ensures var ch := s.book.ch;
            var n, l := Succ(ch, p), ch[p].prev;
            && n in ch && InUse(ch, n) && ch[n].prev == p
            && (l != NONE ==> l in ch && InUse(ch, l) && Succ(ch, l) == p)
  {
    hide BinnedPart, LivePart, DeadPart, TopPart, Starts, Total, FastListed, Rings, Chains, Listed;
    var ch := s.book.ch;
    var n, l := Succ(ch, p), ch[p].prev;
    assert TileOk(ch, p) && TagOk(s.mem, ch, p);
    assert TileOk(ch, n) && TagOk(s.mem, ch, n);
    NeverFastOrHole(ch, n);
    if l != NONE {
      NeverFastOrHole(ch, l);
    }
  }

  /** A block in use, a fencepost or the slack in front of one. */
  ghost predicate InUse(ch: Chunks, p: int)
    requires p in ch
  {
    ch[p].kind.Live? || ch[p].kind.Fence? || ch[p].kind.Slack?
  }

  lemma NeverFastOrHole(ch: Chunks, p: int)
    requires (forall q :: q !in FastPart(ch)) && Holes(ch) == {} && p in ch
    ensures !ch[p].kind.Fast? && !ch[p].kind.Hole?
  {
    assert p !in FastPart(ch) && p !in Holes(ch);
  }

  lemma InUseSame(ch: Chunks, ch': Chunks, p: int)
    requires Tiled(ch) && Tiled(ch') && LivePart(ch') == LivePart(ch) && DeadPart(ch') == DeadPart(ch)
    requires p in ch && InUse(ch, p)
    ensures p in ch' && InUse(ch', p) && ch'[p].size == ch[p].size && ch'[p].kind.Fence? == ch[p].kind.Fence?
  {
    assert p in LivePart(ch) || p in DeadPart(ch);
    assert p in LivePart(ch) ==> LivePart(ch')[p] == LivePart(ch)[p];
    assert p in DeadPart(ch) ==> DeadPart(ch')[p] == DeadPart(ch)[p];
    assert TileOk(ch, p) && TileOk(ch', p);
  }

  lemma OneBefore(ch: Chunks, p: int, q: int)
    requires Tiled(ch) && p in ch && q in ch && Succ(ch, p) == Succ(ch, q)
    ensures p == q
  {
    assert TileOk(ch, p) && TileOk(ch, q);
    assert q < p ==> Before(ch, q, p);
    assert p < q ==> Before(ch, p, q);
  }

  /** Its bounds are those of a free chunk in every consolidation of the same heap. */
  lemma FreeEnds(s: Snapshot, s': Snapshot, b: Book, p: int) returns (q: int)
    requires Consolidated(s, b) && Consolidated(s', b) && p in s.book.ch && s.book.ch[p].kind.Binned?
    ensures p in s'.book.ch && q in s'.book.ch && s'.book.ch[q].kind.Binned?
    ensures Succ(s'.book.ch, q) == Succ(s.book.ch, p)
  {
    hide BinnedPart, LivePart, DeadPart, TopPart, Total, FastListed, Rings, Chains, Listed, Tagged;
    var ch, ch' := s.book.ch, s'.book.ch;
    var n, l := Succ(ch, p), ch[p].prev;
    FreeBounds(s, b, p);
    if l == NONE {
      assert p in Starts(ch);
    } else {
      InUseSame(ch, ch', l);
      assert TileOk(ch, p) && TileOk(ch', l);
    }
    InUseSame(ch, ch', n);
    assert TileOk(ch, p) && TileOk(ch', n);
    assert n in Starts(ch') ==> n in Starts(ch);
    q := ch'[n].prev;
    if InUse(ch', q) {
      InUseSame(ch', ch, q);
      OneBefore(ch, p, q);
    }
    NeverFastOrHole(ch', q);
  }

  /** The heap decides what consolidating its fastbins leaves free: every consolidation of it has the same
      free chunks. */
  lemma ConsolidatedUnique(s: Snapshot, s': Snapshot, b: Book)
    requires Consolidated(s, b) && Consolidated(s', b)
    ensures SameFree(BinnedPart(s.book.ch), BinnedPart(s'.book.ch))
  {
    hide Consolidated, Succ;
    forall p | p in BinnedPart(s.book.ch)
      ensures p in BinnedPart(s'.book.ch) && BinnedPart(s'.book.ch)[p].size == BinnedPart(s.book.ch)[p].size
    {
      FreeSame(s, s', b, p);
    }
    forall p | p in BinnedPart(s'.book.ch)
      ensures p in BinnedPart(s.book.ch)
    {
      FreeSame(s', s, b, p);
    }
  }

  lemma FreeSame(s: Snapshot, s': Snapshot, b: Book, p: int)
    requires Consolidated(s, b) && Consolidated(s', b) && p in s.book.ch && s.book.ch[p].kind.Binned?
    ensures p in s'.book.ch && s'.book.ch[p].kind.Binned? && s'.book.ch[p].size == s.book.ch[p].size
  {
    hide BinnedPart, LivePart, DeadPart, TopPart, Starts, Total, FastListed, Rings, Chains, Listed, Tagged;
    var q := FreeEnds(s, s', b, p);
    var r := FreeEnds(s', s, b, q);
    var ch, ch' := s.book.ch, s'.book.ch;
    assert TileOk(ch, p) && TileOk(ch', q);
    assert q < p ==> Before(ch', q, p);
    assert p < q ==> Before(ch, p, q);
  }

  lemma ExplainedSame(how: Outcome, bp0: map<int, Entry>, bp: map<int, Entry>, live: map<int, int>, m: int, nb: int)
    requires SameFree(bp0, bp) && Explained(how, bp, live, m, nb)
    ensures Explained(how, bp0, live, m, nb)
  {
    BestOfSame(bp0, bp, m - 8, nb);
    forall q | q in bp0 && NoneExact(bp, nb)
      ensures bp0[q].size != nb
    {
      assert q in bp;
    }
  }

  /** So it makes no difference which consolidation of the heap a choice is measured against. */
  lemma ChoiceDetermined(s: Snapshot, s': Snapshot, b: Book, how: Outcome, live: map<int, int>, m: int, nb: int)
    requires Consolidated(s, b) && Consolidated(s', b)
    ensures Explained(how, BinnedPart(s.book.ch), live, m, nb)
      <==> Explained(how, BinnedPart(s'.book.ch), live, m, nb)
  {
    hide Consolidated, Explained, BinnedPart;
    ConsolidatedUnique(s, s', b);
    ConsolidatedUnique(s', s, b);
    var bp, bp' := BinnedPart(s.book.ch), BinnedPart(s'.book.ch);
    if Explained(how, bp, live, m, nb) {
      ExplainedSame(how, bp', bp, live, m, nb);
    }
    if Explained(how, bp', live, m, nb) {
      ExplainedSame(how, bp, bp', live, m, nb);
    }
  }

  lemma NoneFitsAdded(bp: map<int, Entry>, bp': map<int, Entry>, p: int, size: int, elsewhere: bool, nb: int)
    requires NoneFits(bp, nb) && size < nb && FreedAlone(bp, bp', p, size, elsewhere)
    ensures NoneFits(bp', nb)
  {
  }

  // ---------------------------------------------------------------- the choice, from the lists

  ghost function UnsortedOf(s: Snapshot): seq<int> {
    if |s.book.bins| == NBINS then s.book.bins[UNSORTED] else []
  }

  ghost predicate HasSize(bp: map<int, Entry>, q: int, nb: int) {
    q in bp && bp[q].size == nb
  }

  /** The small bin of nb has a chunk. */
  ghost predicate SmallHit(s: Snapshot, nb: int) {
    MINSIZE <= nb < MIN_LARGE_SIZE && |s.book.bins| == NBINS && s.book.bins[nb / 8] != []
  }

  /** Chunk k of the unsorted list has exactly the size, and none behind it has. */
  ghost predicate ExactAt(bp: map<int, Entry>, u: seq<int>, k: int, nb: int) {
    0 <= k < |u| && HasSize(bp, u[k], nb) && forall j {:trigger u[j]} :: k < j < |u| ==> !HasSize(bp, u[j], nb)
  }

  ghost predicate ExactHit(s: Snapshot, nb: int) {
    exists k :: ExactAt(BinnedPart(s.book.ch), UnsortedOf(s), k, nb)
  }

  /** The front of the unsorted list is the last remainder, and a small request can be split off it. */
  ghost predicate RemainderHit(s: Snapshot, nb: int) {
    var u, bp := UnsortedOf(s), BinnedPart(s.book.ch);
    nb < MIN_LARGE_SIZE && u != [] && u[0] == s.lastRemainder && u[0] in bp && bp[u[0]].size > nb + MINSIZE
  }

  /** Which list serves a request that no fastbin serves; Refused if none does. */
  ghost function ListChoice(s: Snapshot, nb: int): Outcome {
    if SmallHit(s, nb) then FromSmallbin
    else if ExactHit(s, nb) then ExactUnsorted
    else if RemainderHit(s, nb) then LastRemainder
    else if !NoneFits(BinnedPart(s.book.ch), nb) then BestFit
    else Refused
  }

  /** Which chunk of that list is taken: the oldest of a small bin, the oldest exact fit, the last remainder, or a
      best fit. */
  ghost predicate ChosenFrom(s: Snapshot, nb: int, how: Outcome, v: int) {
    match how
    case FromSmallbin =>
      SmallHit(s, nb) && v == s.book.bins[nb / 8][|s.book.bins[nb / 8]| - 1]
    case ExactUnsorted =>
      exists k :: ExactAt(BinnedPart(s.book.ch), UnsortedOf(s), k, nb) && v == UnsortedOf(s)[k]
    case LastRemainder => v == s.lastRemainder
    case BestFit => BestFitting(BinnedPart(s.book.ch), v, nb)
    case _ => false
  }

  /** No unsorted chunk from place n on has the size. */
  ghost predicate NoneBehind(s: Snapshot, n: int, nb: int) {
    0 <= n <= |UnsortedOf(s)| && forall j {:trigger UnsortedOf(s)[j]} :: n <= j < |UnsortedOf(s)| ==>
      !HasSize(BinnedPart(s.book.ch), UnsortedOf(s)[j], nb)
  }

  /** The unsorted chunk v at place n - 1, of this size, is alone, the last remainder, and can be split. */
  ghost predicate SplitsRemainder(s: Snapshot, n: int, v: int, size: int, nb: int) {
    nb < MIN_LARGE_SIZE && n == 1 && s.lastRemainder == v && size > nb + MINSIZE
  }

  /** The drain ends with v: that is what the lists as they were decide. */
  lemma DrainFound(s: Snapshot, n: int, v: int, size: int, nb: int, how: Outcome)
    requires NoneBehind(s, n, nb) && 0 < n && v == UnsortedOf(s)[n - 1] && !SmallHit(s, nb)
    requires v in BinnedPart(s.book.ch) && BinnedPart(s.book.ch)[v].size == size
    requires if SplitsRemainder(s, n, v, size, nb) then how.LastRemainder? else how.ExactUnsorted? && size == nb
    ensures how == ListChoice(s, nb) && ChosenFrom(s, nb, how, v)
  {
    hide BinnedPart;
    var bp, u := BinnedPart(s.book.ch), UnsortedOf(s);
    if how.ExactUnsorted? {
      assert ExactAt(bp, u, n - 1, nb);
    } else {
      NoExactHit(s, nb);
    }
  }

  lemma DrainStart(s: Snapshot, nb: int)
    requires |s.book.bins| == NBINS && (nb < MIN_LARGE_SIZE ==> MINSIZE <= nb && s.book.bins[nb / 8] == [])
    ensures UnsortedOf(s) == s.book.bins[UNSORTED] && !SmallHit(s, nb)
    ensures NoneBehind(s, |UnsortedOf(s)|, nb) && UnsortedOf(s)[..|UnsortedOf(s)|] == UnsortedOf(s)
    ensures UnsortedOf(s) == [] ==> !RemainderHit(s, nb)
  {
  }

  lemma SplitsIf(s: Snapshot, n: int, v: int, size: int, nb: int)
    ensures SplitsRemainder(s, n, v, size, nb) <==>
      nb < MIN_LARGE_SIZE && n == 1 && s.lastRemainder == v && size > nb + MINSIZE
  {
  }

  lemma SizeKept(bp0: map<int, Entry>, ch: Chunks, v: int)
    requires SameFree(bp0, BinnedPart(ch)) && v in ch && ch[v].kind.Binned?
    ensures v in bp0 && bp0[v].size == ch[v].size
  {
    assert v in BinnedPart(ch);
  }

  lemma NoExactHit(s: Snapshot, nb: int)
    requires NoneBehind(s, 0, nb) || (NoneBehind(s, 1, nb) && !HasSize(BinnedPart(s.book.ch), UnsortedOf(s)[0], nb))
    ensures !ExactHit(s, nb)
  {
    hide BinnedPart;
    forall k
      ensures !ExactAt(BinnedPart(s.book.ch), UnsortedOf(s), k, nb)
    {
      assert 0 <= k < |UnsortedOf(s)| ==> k == 0 || !HasSize(BinnedPart(s.book.ch), UnsortedOf(s)[k], nb);
    }
  }

  /** The drain goes on. */
  lemma DrainPassed(s: Snapshot, n: int, v: int, size: int, nb: int)
    requires NoneBehind(s, n, nb) && 0 < n && v == UnsortedOf(s)[n - 1] && size != nb
    requires v in BinnedPart(s.book.ch) && BinnedPart(s.book.ch)[v].size == size
    requires !SplitsRemainder(s, n, v, size, nb)
    ensures NoneBehind(s, n - 1, nb) && (n == 1 ==> !RemainderHit(s, nb))
  {
    hide BinnedPart;
  }

  /** The last remainder afterwards: what has been split off for a small request. */
  ghost function RemainderAfter(s: Snapshot, nb: int, how: Outcome, v: int): int {
    var bp := BinnedPart(s.book.ch);
    if how.LastRemainder? || (how.BestFit? && nb < MIN_LARGE_SIZE && v in bp && bp[v].size >= nb + MINSIZE)
    then v + nb else s.lastRemainder
  }

  lemma OtherRemainder(s: Snapshot, nb: int)
    ensures forall v: int {:trigger RemainderAfter(s, nb, FromFastbin, v)} ::
      RemainderAfter(s, nb, FromFastbin, v) == s.lastRemainder
    ensures forall v: int {:trigger RemainderAfter(s, nb, FromSmallbin, v)} ::
      RemainderAfter(s, nb, FromSmallbin, v) == s.lastRemainder
  {
  }

  lemma LargeNotReady(s: Snapshot, nb: int, how: Outcome)
    requires how.FromFastbin? ==> nb < MIN_LARGE_SIZE
    requires how.FromSmallbin? ==> ListChoice(s, nb).FromSmallbin?
    ensures how.FromFastbin? || how.FromSmallbin? ==> nb < MIN_LARGE_SIZE
  {
  }

  lemma SmallDecided(s: Snapshot, nb: int, v: int)
    requires MINSIZE <= nb < MIN_LARGE_SIZE && |s.book.bins| == NBINS
    requires s.book.bins[nb / 8] != [] && v == s.book.bins[nb / 8][|s.book.bins[nb / 8]| - 1]
    ensures ListChoice(s, nb).FromSmallbin? && ChosenFrom(s, nb, FromSmallbin, v)
  {
  }

  lemma SystemRemainder(s: Snapshot, nb: int)
    ensures forall v: int {:trigger RemainderAfter(s, nb, FromTop, v)} ::
      RemainderAfter(s, nb, FromTop, v) == s.lastRemainder
    ensures forall v: int {:trigger RemainderAfter(s, nb, FromSystem, v)} ::
      RemainderAfter(s, nb, FromSystem, v) == s.lastRemainder
    ensures forall v: int {:trigger RemainderAfter(s, nb, Refused, v)} ::
      RemainderAfter(s, nb, Refused, v) == s.lastRemainder
  {
  }

  lemma SplitRemainder(s: Snapshot, nb: int, how: Outcome, v: int)
    requires how.LastRemainder? || how.ExactUnsorted?
    ensures RemainderAfter(s, nb, how, v) == if how.LastRemainder? then v + nb else s.lastRemainder
  {
  }

  /** With nothing taken from the unsorted list, the search of the sorted bins decides. */
  lemma SearchDecided(s: Snapshot, bp: map<int, Entry>, nb: int, v: int, remainder: int)
    requires !SmallHit(s, nb) && !ExactHit(s, nb) && !RemainderHit(s, nb) && SameFree(BinnedPart(s.book.ch), bp)
    requires v == 0 ==> NoneFits(bp, nb)
    requires v != 0 ==> BestFitting(bp, v, nb) && v in bp
    requires remainder ==
      if v != 0 && bp[v].size >= nb + MINSIZE && nb < MIN_LARGE_SIZE then v + nb else s.lastRemainder
    ensures v == 0 ==> ListChoice(s, nb).Refused? && remainder == s.lastRemainder
    ensures v != 0 ==> ListChoice(s, nb).BestFit? && ChosenFrom(s, nb, BestFit, v)
    ensures v != 0 ==> remainder == RemainderAfter(s, nb, BestFit, v)
  {
    hide BinnedPart, SmallHit, ExactHit, RemainderHit;
    BestOfSame(BinnedPart(s.book.ch), bp, v, nb);
  }

  /** m is a new block: aligned, of at least nb bytes with its size word, and none of the old ones. */
  ghost predicate Allocated(live0: map<int, int>, live1: map<int, int>, m: int, nb: int) {
    m != 0 && m % 8 == 0 && Taken(live0, live1, m - 8, nb)
  }

  /** Best fit with respect to the free chunks avail. The only exceptions are a fastbin chunk of exactly
      the right size, and, for a small request without an exact fit, splitting the last remainder. */
  ghost predicate Explained(how: Outcome, avail: map<int, Entry>, live: map<int, int>, m: int, nb: int) {
    match how
    case Refused => m == 0 && NoneFits(avail, nb)
    case FromFastbin => m - 8 in live && live[m - 8] == nb
    case LastRemainder => nb < MIN_LARGE_SIZE && NoneExact(avail, nb)
    case FromTop => NoneFits(avail, nb)
    case FromSystem => NoneFits(avail, nb)
    case _ => BestFitting(avail, m - 8, nb)
  }
}
