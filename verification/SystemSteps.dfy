/** Carving top, and replacing it by a new region from the system. */
module SystemSteps {
  import opened Memory
  import opened Ring
  import opened Heap
  import opened HeapSteps
  import opened TopSteps
  import opened Census
  import opened BinIndex
  import opened Binmap
  import opened FreeSteps
  import opened Joining
  import opened AllocSteps

  lemma CarvedInv(m: Mem, m': Mem, fb: seq<int>, b: Book, t: int, nb: int)
    requires Inv(m, fb, b) && CanCarve(b.ch, t, nb) && Holes(b.ch) == {}
    requires m' == m[t + 4 := nb + PREV_INUSE][t + nb + 4 := b.ch[t].size - nb + PREV_INUSE]
    ensures var b1 := b.(ch := CarveCh(b.ch, t, nb));
            && t in b1.ch && Inv(m', fb, CloseBook(b1, t)) && SamePayload(m, m', LivePart(b.ch))
            && PartsOf(CloseBook(b1, t).ch) == PartsOf(b.ch).(live := LivePart(b.ch)[t := nb],
                 tops := TopPart(b1.ch))
            && Total(CloseBook(b1, t).ch) == Total(b.ch) && TopIs(CloseBook(b1, t).ch, t + nb)
            && t !in LivePart(b.ch)
  {
    var b1 := b.(ch := CarveCh(b.ch, t, nb));
    CarveReady(m, m', b, t, nb);
    CarveInv(m, m', fb, b, t, nb);
    CarveCensus(b.ch, t, nb);
    CarveKinds(b.ch, t, nb);
    NotLive(b.ch, t);
    CloseInv(m', m', fb, b1, t);
    RetagCensus(b1.ch, t, Live);
    CloseCensus(b1.ch, t);
    HolesPart(b1.ch);
    HolesPart(b.ch);
  }

  lemma CarveReady(m: Mem, m': Mem, b: Book, t: int, nb: int)
    requires Tiled(b.ch) && Tagged(m, b.ch) && CanCarve(b.ch, t, nb) && Holes(b.ch) == {}
    requires m' == m[t + 4 := nb + PREV_INUSE][t + nb + 4 := b.ch[t].size - nb + PREV_INUSE]
    ensures SameBut(m, m', {t + 4, t + nb + 4}) && SameBut(m', m', TagWords(b.ch, t))
    ensures var ch' := CarveCh(b.ch, t, nb);
            && t in ch' && ch'[t].kind.Hole? && ch'[t].size == nb && Succ(ch', t) in ch' && !PrevHole(ch', t)
               && !PrevFree(ch', t)
            && NextMarked(m', ch', t) && SameBut(m', m', TagWords(ch', t))
  {
    CarveFacts(b.ch, t, nb);
    NoHoleBefore(b, t);
    assert TagOk(m, b.ch, t) && TileOk(b.ch, t);
  }

  lemma TopRead(m: Mem, fb: seq<int>, b: Book, t: int)
    requires Inv(m, fb, b) && TopOk(m, b.ch, t)
    ensures TopIs(b.ch, t) ==>
      t in b.ch && ChunkSize(At(m, t + 4)) == b.ch[t].size && b.ch[t].size % 8 == 0 && MINSIZE <= b.ch[t].size
                               && HEAP_BASE <= t && t % 8 == 0 && t + b.ch[t].size <= ADDRESS_LIMIT
    ensures !TopIs(b.ch, t) ==> b.ch == map[] && t == BinAt(UNSORTED) && ChunkSize(At(m, t + 4)) == 0
  {
    if TopIs(b.ch, t) {
      HeadRead(m, fb, b, t);
      assert TileOk(b.ch, t);
    }
  }

  lemma CanCarveTop(ch: Chunks, t: int, nb: int)
    requires TopIs(ch, t) && nb % 8 == 0 && MINSIZE <= nb && nb + MINSIZE <= ch[t].size
    ensures CanCarve(ch, t, nb)
  {
  }

  /** Top can serve a request and still be a chunk. */
  ghost predicate TopServes(ch: Chunks, t: int, nb: int) {
    t in ch && ch[t].kind.Top? && ch[t].size >= nb + MINSIZE
  }

  /** nb bytes have been taken from the bottom of top. */
  ghost predicate TopCarved(ch0: Chunks, t0: int, ch1: Chunks, t1: int, nb: int) {
    t0 in ch0 && t1 == t0 + nb && t1 in ch1 && ch1[t1].kind.Top? && ch1[t1].size == ch0[t0].size - nb
  }

  lemma TopCarvedNow(ch: Chunks, t: int, nb: int)
    requires CanCarve(ch, t, nb)
    ensures t in CarveCh(ch, t, nb) && TopCarved(ch, t, Retag(CarveCh(ch, t, nb), t, Live), t + nb, nb)
  {
  }

  /** The chunk that a first region of at least a page leaves as top. */
  ghost predicate TopAtLeast(ch: Chunks, t: int, size: int) {
    t in ch && ch[t].kind.Top? && ch[t].size >= size
  }

  ghost predicate TopHas(ch: Chunks, t: int, size: int) {
    t in TopPart(ch) && TopPart(ch)[t] == size
  }

  lemma GrownTop(ch: Chunks, t: int, extra: int)
    requires TopIs(ch, t)
    ensures TopHas(GrowCh(ch, t, extra), t, ch[t].size + extra)
  {
  }

  lemma TopHasServes(ch: Chunks, t: int, size: int, nb: int)
    requires TopHas(ch, t, size)
    ensures (TopServes(ch, t, nb) <==> size >= nb + MINSIZE) && TopAtLeast(ch, t, size)
  {
  }

  lemma TopShort(m: Mem, fb: seq<int>, b: Book, t: int, nb: int)
    requires Inv(m, fb, b) && TopOk(m, b.ch, t) && ChunkSize(At(m, t + 4)) < nb + MINSIZE
    ensures !TopServes(b.ch, t, nb)
  {
    hide Inv, ChunkSize;
    TopRead(m, fb, b, t);
  }

  lemma TopLong(m: Mem, fb: seq<int>, b: Book, t: int, nb: int)
    requires Inv(m, fb, b) && TopOk(m, b.ch, t) && ChunkSize(At(m, t + 4)) >= nb + MINSIZE && nb > 0
    ensures TopServes(b.ch, t, nb)
  {
    hide Inv, ChunkSize;
    TopRead(m, fb, b, t);
  }

  lemma CarvedBit(m: Mem, m': Mem, t: int, nb: int, rest: int)
    requires nb % 8 == 0 && MINSIZE <= nb && m' == m[t + 4 := nb + PREV_INUSE][t + nb + 4 := rest + PREV_INUSE]
    ensures At(m', t + 4) % 2 == PREV_INUSE
  {
    FlagBit(nb);
  }

  lemma TopOkNow(m: Mem, ch: Chunks, t: int)
    requires TopIs(ch, t)
    ensures TopOk(m, ch, t)
  {
  }

  // ---------------------------------------------------------------- a new region

  /** The stores that turn the last 16 bytes of old top t into fenceposts. */
  function FenceStores(m: Mem, t: int, size: int): Mem {
    var s := size - 16;
    m[t + 4 := s + PREV_INUSE][t + s + 4 := SIZE_SZ + PREV_INUSE][t + s + 8 := SIZE_SZ + PREV_INUSE]
  }

  /** The catalogue after them: what is left of old top is a chunk in use, if it is a chunk at all. */
  ghost function FencedBook(b: Book, t: int): Book
    requires t in b.ch
  {
    var b1 := b.(ch := FenceCh(b.ch, t));
    if b.ch[t].size >= 32 && t in b1.ch then CloseBook(b1, t) else b1
  }

  lemma FenceReady(m: Mem, b: Book, t: int)
    requires Tiled(b.ch) && Tagged(m, b.ch) && TopIs(b.ch, t) && Holes(b.ch) == {}
    ensures var m', size := FenceStores(m, t, b.ch[t].size), b.ch[t].size;
            && SameBut(m, m', {t + 4, t + size - 12, t + size - 8}) && FenceWords(m', t, size - 16)
    ensures !PrevHole(b.ch, t) && !PrevFree(b.ch, t) && MINSIZE <= b.ch[t].size && b.ch[t].size % 8 == 0
  {
    assert TileOk(b.ch, t) && TagOk(m, b.ch, t);
    NoHoleBefore(b, t);
  }

  lemma FenceClosed(m': Mem, b: Book, t: int)
    requires Tiled(b.ch) && TopIs(b.ch, t) && b.ch[t].size % 8 == 0 && !PrevHole(b.ch, t) && !PrevFree(b.ch, t)
    requires FenceWords(m', t, b.ch[t].size - 16)
    ensures b.ch[t].size >= 32 ==>
              var ch' := FenceCh(b.ch, t);
              && t in ch' && ch'[t].kind.Hole? && ch'[t].size == b.ch[t].size - 16 && !PrevHole(ch', t)
                 && !PrevFree(ch', t)
              && SameBut(m', m', TagWords(ch', t)) && Succ(ch', t) in ch' && NextMarked(m', ch', t)
  {
    FenceTiled(b.ch, t);
  }

  lemma FencedInv(m: Mem, fb: seq<int>, b: Book, t: int)
    requires Inv(m, fb, b) && TopIs(b.ch, t) && Holes(b.ch) == {}
    ensures var b', m' := FencedBook(b, t), FenceStores(m, t, b.ch[t].size);
            && Inv(m', fb, b') && SamePayload(m, m', LivePart(b.ch))
            && LivePart(b'.ch) == (if b.ch[t].size >= 32 then LivePart(b.ch)[t := b.ch[t].size - 16]
               else LivePart(b.ch))
            && t !in LivePart(b.ch)
  {
    var m' := FenceStores(m, t, b.ch[t].size);
    FenceReady(m, b, t);
    FenceInv(m, m', fb, b, t);
    FenceClosed(m', b, t);
    NotLive(b.ch, t);
    if b.ch[t].size >= 32 {
      CloseInv(m', m', fb, b.(ch := FenceCh(b.ch, t)), t);
    }
  }

  lemma FencedTotals(b: Book, t: int)
    requires Tiled(b.ch) && TopIs(b.ch, t) && Holes(b.ch) == {}
    ensures var b' := FencedBook(b, t);
            && BinnedPart(b'.ch) == BinnedPart(b.ch) && FastPart(b'.ch) == FastPart(b.ch) && Holes(b'.ch) == {}
            && Total(b'.ch) == Total(b.ch) && b'.bins == b.bins && b'.fast == b.fast
  {
    hide Total, LivePart, FastPart, BinnedPart, DeadPart, TopPart, Starts;
    FenceCensus(b.ch, t);
    FenceKinds(b.ch, t);
    FenceTiled(b.ch, t);
    var ch1 := FenceCh(b.ch, t);
    HolesPart(b.ch);
    HolesPart(ch1);
    if b.ch[t].size >= 32 {
      RetagCensus(ch1, t, Live);
      CloseCensus(ch1, t);
      HolesPart(FencedBook(b, t).ch);
    }
  }

  /** Fencing adds no space and leaves no top. */
  lemma FencedSpace(b: Book, t: int, lo: int, hi: int)
    requires Tiled(b.ch) && TopIs(b.ch, t) && FreshSpace(b.ch, lo, hi)
    ensures FreshSpace(FencedBook(b, t).ch, lo, hi)
    ensures forall x :: x in FencedBook(b, t).ch ==> !FencedBook(b, t).ch[x].kind.Top?
  {
    FenceTiled(b.ch, t);
  }

  /** The stores that leave old top t for a region of len bytes at brk, in the program's order. */
  function SwitchStores(m: Mem, t: int, size: int, brk: int, len: int): Mem {
    FenceStores(m[brk + 4 := len + PREV_INUSE], t, size)
  }

  lemma SwitchWords(m: Mem, ch: Chunks, t: int, brk: int, len: int)
    requires Tiled(ch) && TopIs(ch, t) && MINSIZE <= len && FreshSpace(ch, brk, brk + len)
    ensures var m', size := SwitchStores(m, t, ch[t].size, brk, len), ch[t].size;
            SameBut(FenceStores(m, t, size), m', {brk + 4}) && At(m', brk + 4) == len + PREV_INUSE
  {
    assert TileOk(ch, t);
  }

  ghost function SwitchBook(b: Book, t: int, brk: int, len: int): Book
    requires t in b.ch
  {
    var b1 := FencedBook(b, t);
    b1.(ch := RegionCh(b1.ch, brk, len))
  }

  lemma SwitchInv(m: Mem, fb: seq<int>, b: Book, t: int, brk: int, len: int)
    requires Inv(m, fb, b) && TopIs(b.ch, t) && Holes(b.ch) == {} && MINSIZE <= len && FreshSpace(b.ch, brk, brk + len)
    ensures var b', m' := SwitchBook(b, t, brk, len), SwitchStores(m, t, b.ch[t].size, brk, len);
            && Inv(m', fb, b') && SamePayload(m, m', LivePart(b.ch)) && TopIs(b'.ch, brk) && t !in LivePart(b.ch)
            && LivePart(b'.ch) == (if b.ch[t].size >= 32 then LivePart(b.ch)[t := b.ch[t].size - 16]
               else LivePart(b.ch))
  {
    var m1, b1, m' := FenceStores(m, t, b.ch[t].size), FencedBook(b, t), SwitchStores(m, t, b.ch[t].size, brk, len);
    SwitchWords(m, b.ch, t, brk, len);
    FencedInv(m, fb, b, t);
    FencedSpace(b, t, brk, brk + len);
    RegionInv(m1, m', fb, b1, brk, len);
    SamePayloadTransitive(m, m1, m', LivePart(b.ch), LivePart(b1.ch));
  }

  lemma SwitchTotals(b: Book, t: int, brk: int, len: int)
    requires Tiled(b.ch) && TopIs(b.ch, t) && Holes(b.ch) == {} && MINSIZE <= len && FreshSpace(b.ch, brk, brk + len)
    requires Tiled(FencedBook(b, t).ch)
    ensures var b' := SwitchBook(b, t, brk, len);
            && BinnedPart(b'.ch) == BinnedPart(b.ch) && FastPart(b'.ch) == FastPart(b.ch) && Holes(b'.ch) == {}
            && Total(b'.ch) == Total(b.ch) + len && b'.bins == b.bins && b'.fast == b.fast
  {
    var b1 := FencedBook(b, t);
    FencedTotals(b, t);
    FencedSpace(b, t, brk, brk + len);
    RegionTiled(b1.ch, brk, len);
    RegionCensus(b1.ch, brk, len);
    RegionKinds(b1.ch, brk, len);
    HolesPart(b1.ch);
    HolesPart(RegionCh(b1.ch, brk, len));
  }

  /** What is left of old top lies between a chunk in use and its fencepost. */
  lemma RestIsolated(m: Mem, fb: seq<int>, b: Book, t: int, brk: int, len: int)
    requires Inv(m, fb, b) && TopIs(b.ch, t) && Holes(b.ch) == {} && MINSIZE <= len && FreshSpace(b.ch, brk, brk + len)
    requires b.ch[t].size >= 32
    ensures var b', m' := SwitchBook(b, t, brk, len), SwitchStores(m, t, b.ch[t].size, brk, len); Isolated(m', b'.ch, t)
    ensures t in SwitchBook(b, t, brk, len).ch && !BordersTop(SwitchBook(b, t, brk, len).ch, t)
    ensures SwitchBook(b, t, brk, len).ch[t].kind.Live? && SwitchBook(b, t, brk, len).ch[t].size == b.ch[t].size - 16
  {
    FenceTiled(b.ch, t);
    assert TileOk(b.ch, t);
    RestHead(m[brk + 4 := len + PREV_INUSE], t, b.ch[t].size);
  }

  lemma RestHead(m: Mem, t: int, size: int)
    requires size % 8 == 0 && 32 <= size
    ensures At(FenceStores(m, t, size), t + 4) % 2 == PREV_INUSE
  {
    FlagBit(size - 16);
  }

  /** Everything a change of regions keeps, and what is left of old top. */
  lemma Switched(m: Mem, fb: seq<int>, b: Book, t: int, brk: int, len: int)
    requires Inv(m, fb, b) && TopIs(b.ch, t) && Holes(b.ch) == {} && MINSIZE <= len && FreshSpace(b.ch, brk, brk + len)
    ensures t in b.ch && b.ch[t].kind.Top? && b.ch[t].size % 8 == 0
    ensures var b', m' := SwitchBook(b, t, brk, len), SwitchStores(m, t, b.ch[t].size, brk, len);
            && Inv(m', fb, b') && SamePayload(m, m', LivePart(b.ch)) && TopIs(b'.ch, brk) && TopHas(b'.ch, brk, len)
            && BinnedPart(b'.ch) == BinnedPart(b.ch) && FastPart(b'.ch) == FastPart(b.ch) && Holes(b'.ch) == {}
            && Total(b'.ch) == Total(b.ch) + len && b'.bins == b.bins
            && (b.ch[t].size < 32 ==> LivePart(b'.ch) == LivePart(b.ch))
            && (b.ch[t].size >= 32 ==>
                  && t in LivePart(b'.ch) && LivePart(b'.ch) - {t} == LivePart(b.ch)
                     && LivePart(b'.ch)[t] == b.ch[t].size - 16
                  && Isolated(m', b'.ch, t) && t in b'.ch && !BordersTop(b'.ch, t))
  {
    hide LivePart, FastPart, BinnedPart, Total, Holes, Isolated, SwitchBook, SwitchStores, Inv, FreshSpace, SamePayload;
    SwitchInv(m, fb, b, t, brk, len);
    SwitchTiled(m, fb, b, t);
    SwitchTotals(b, t, brk, len);
    NewTop(b, t, brk, len);
    if b.ch[t].size >= 32 {
      AddedThenRemoved(LivePart(b.ch), t, b.ch[t].size - 16);
      RestIsolated(m, fb, b, t, brk, len);
    }
  }

  lemma NewTop(b: Book, t: int, brk: int, len: int)
    requires Tiled(b.ch) && TopIs(b.ch, t)
    ensures TopHas(SwitchBook(b, t, brk, len).ch, brk, len) && t in b.ch && b.ch[t].kind.Top?
      && b.ch[t].size % 8 == 0
  {
    assert TileOk(b.ch, t);
  }

  lemma FirstTop(b: Book, brk: int, len: int)
    ensures TopHas(RegionCh(b.ch, brk, len), brk, len)
  {
  }

  lemma SwitchTiled(m: Mem, fb: seq<int>, b: Book, t: int)
    requires Inv(m, fb, b) && TopIs(b.ch, t) && Holes(b.ch) == {}
    ensures Tiled(b.ch) && Tiled(FencedBook(b, t).ch)
  {
    FencedInv(m, fb, b, t);
  }

  lemma TopNot(m: Mem, b: Book, t: int)
    requires TopOk(m, b.ch, t) && ChunkSize(At(m, t + 4)) != 0
    ensures TopIs(b.ch, t)
  {
  }

  lemma AddedThenRemoved(live: map<int, int>, p: int, size: int)
    requires p !in live
    ensures p in live[p := size] && live[p := size] - {p} == live
  {
  }

  // ---------------------------------------------------------------- asking the system

  const PAGESIZE := 4096
  const MORECORE_FAILURE := -1

  /** The argument of MORECORE: computed in unsigned 32-bit words, then taken as signed. */
  function MoreCoreRequest(nb: int): int {
    var padded := (nb + MINSIZE + PAGESIZE - 1) % ADDRESS_LIMIT;
    var pages := padded - padded % PAGESIZE;
    if pages >= ADDRESS_LIMIT / 2 then pages - ADDRESS_LIMIT else pages
  }

  /** A request that wraps, or that would look negative, is never made. */
  lemma MoreCoreRequestCovers(nb: int)
    requires MINSIZE <= nb <= ADDRESS_LIMIT - 24
    ensures MoreCoreRequest(nb) > 0 <==> nb + MINSIZE <= ADDRESS_LIMIT / 2 - PAGESIZE
    ensures MoreCoreRequest(nb) > 0 ==>
              nb + MINSIZE <= MoreCoreRequest(nb) < nb + MINSIZE + PAGESIZE && MoreCoreRequest(nb) % PAGESIZE == 0
  {
  }

  /** A call of MORECORE: what was asked for, and where the memory begins and ends, or a failure. */
  datatype Answer = Answer(size: int, brk: int, snd: int)

  /** The memory is enough: it continues top, or it is large enough by itself. */
  ghost predicate Enough(ch: Chunks, t: int, a: Answer, nb: int) {
    a.brk != MORECORE_FAILURE
      && ((t in TopPart(ch) && a.brk == t + TopPart(ch)[t]) || nb + MINSIZE <= a.snd - a.brk)
  }

  /** Where top begins then: where it was, if the memory continues it. */
  ghost function TopFrom(ch: Chunks, t: int, a: Answer): int {
    if t in TopPart(ch) && a.brk == t + TopPart(ch)[t] then t else a.brk
  }

  /** The system has been asked, once, for memory for nb bytes, unless the argument would wrap around or look
      negative; and whether the answer was enough. */
  ghost predicate AskedFor(ch: Chunks, t: int, a0: seq<Answer>, a1: seq<Answer>, nb: int, enough: bool) {
    if MoreCoreRequest(nb) <= 0 then a1 == a0 && !enough
    else
      |a1| == |a0| + 1 && a1[..|a0|] == a0 && a1[|a0|].size == MoreCoreRequest(nb)
      && (enough <==> Enough(ch, t, a1[|a0|], nb))
  }

  /** What one call of MORECORE says about the request. */
  lemma AskedNow(ch: Chunks, t: int, end: int, a0: seq<Answer>, a1: seq<Answer>, nb: int, size: int, brk: int, snd: int)
    requires size == MoreCoreRequest(nb) > 0 && nb + MINSIZE <= size && a1 == a0 + [Answer(size, brk, snd)]
    requires t in TopPart(ch) ==> end == t + TopPart(ch)[t]
    requires t !in TopPart(ch) ==> brk != end
    ensures brk == MORECORE_FAILURE ==> AskedFor(ch, t, a0, a1, nb, false)
    ensures brk != MORECORE_FAILURE && brk == end ==> AskedFor(ch, t, a0, a1, nb, true)
    ensures brk != MORECORE_FAILURE && brk != end ==> AskedFor(ch, t, a0, a1, nb, snd - brk >= nb + MINSIZE)
  {
    hide MoreCoreRequest;
    assert a1[..|a0|] == a0;
  }

  lemma SomeMemory(a0: seq<Answer>, a1: seq<Answer>, a: Answer)
    requires a1 == a0 + [a]
    ensures NoMemory(a0, a1) <==> a.brk == MORECORE_FAILURE
  {
    assert a1[|a0|] == a;
  }

  lemma NotAsked(ch: Chunks, t: int, a: seq<Answer>, nb: int)
    requires MoreCoreRequest(nb) <= 0
    ensures AskedFor(ch, t, a, a, nb, false)
  {
  }

  lemma TopEnd(ch: Chunks, t: int)
    ensures TopIs(ch, t) ==> t in TopPart(ch) && TopPart(ch)[t] == ch[t].size
    ensures t in TopPart(ch) ==> t in ch && ch[t].kind.Top?
    ensures ch == map[] ==> t !in TopPart(ch)
  {
  }

  /** A request that no fastbin serves: the lists of heap s decide, then top, then the system. */
  ghost predicate Decided(s: Snapshot, nb: int, how: Outcome, m: int, a0: seq<Answer>, a1: seq<Answer>) {
    if !ListChoice(s, nb).Refused? then
      how == ListChoice(s, nb) && m != 0 && ChosenFrom(s, nb, how, m - 8) && a1 == a0
    else if TopServes(s.book.ch, s.top, nb) then how.FromTop? && m == s.top + 8 && m != 0 && a1 == a0
    else BySystem(s.book.ch, s.top, nb, how, m, a0, a1)
  }

  ghost predicate BySystem(ch: Chunks, t: int, nb: int, how: Outcome, m: int, a0: seq<Answer>, a1: seq<Answer>) {
    && AskedFor(ch, t, a0, a1, nb, m != 0)
    && (if m != 0 then how.FromSystem? && |a1| > |a0| && m == TopFrom(ch, t, a1[|a0|]) + 8 else how.Refused?)
  }

  /** Neither the lists nor top of heap s serve the request. */
  ghost predicate Exhausted(s: Snapshot, nb: int) {
    ListChoice(s, nb).Refused? && !TopServes(s.book.ch, s.top, nb)
  }

  /** What a request that no fastbin serves comes to. The lists, and then top, decide on the heap at the call, or
      for a large request on the consolidated heap. If they do not serve a small one, fastbins are consolidated, and
      it is decided anew. */
  ghost predicate Chosen(s0: Snapshot, fast: bool, s: Snapshot, nb: int, how: Outcome, m: int, a0: seq<Answer>,
      a1: seq<Answer>)
  {
    && (if fast && (nb >= MIN_LARGE_SIZE || Exhausted(s0, nb)) then
          Consolidated(s, s0.book)
            && Ordered(s, s0.book, if nb >= MIN_LARGE_SIZE then UnsortedIn(s0.book.bins) else [])
        else s == s0)
    && Decided(s, nb, how, m, a0, a1)
  }

  /** The result m of a request: the head of its fastbin, if that has one; otherwise as Chosen says. */
  ghost predicate MallocResult(s0: Snapshot, fast: bool, head: int, s: Snapshot, nb: int, how: Outcome, m: int,
      a0: seq<Answer>, a1: seq<Answer>)
  {
    if head != 0 then s == s0 && how.FromFastbin? && m == head + 8 && m != 0 && a1 == a0
    else Chosen(s0, fast, s, nb, how, m, a0, a1)
  }

  /** MORECORE has given as much as it was asked for, every time. */
  ghost predicate AllGiven(a0: seq<Answer>, a1: seq<Answer>) {
    forall i {:trigger a1[i]} :: |a0| <= i < |a1| ==>
      a1[i].brk != MORECORE_FAILURE && a1[i].size <= a1[i].snd - a1[i].brk
  }

  /** A request fails only if MORECORE has been asked, and has not given as much as it was asked for. */
  lemma FailsForWant(s0: Snapshot, fast: bool, head: int, s: Snapshot, nb: int, how: Outcome, m: int, a0: seq<Answer>,
      a1: seq<Answer>)
    requires MallocResult(s0, fast, head, s, nb, how, m, a0, a1) && MINSIZE <= nb <= ADDRESS_LIMIT - 24
    ensures a0 <= a1
    ensures m == 0 ==> head == 0 && Exhausted(s, nb) && AskedFor(s.book.ch, s.top, a0, a1, nb, false)
    ensures m == 0 && AllGiven(a0, a1) ==> MoreCoreRequest(nb) <= 0
  {
    hide Consolidated, ListChoice, TopServes, ChosenFrom, MoreCoreRequest, Ordered, TopFrom;
    MoreCoreRequestCovers(nb);
    if m == 0 && MoreCoreRequest(nb) > 0 {
      assert !Enough(s.book.ch, s.top, a1[|a0|], nb);
    }
  }

  /** MORECORE has given nothing. */
  ghost predicate NoMemory(a0: seq<Answer>, a1: seq<Answer>) {
    forall i {:trigger a1[i]} :: |a0| <= i < |a1| ==> a1[i].brk == MORECORE_FAILURE
  }

  /** Top is the same for both, or there is none. */
  ghost predicate TopAlike(ch: Chunks, t: int, ch': Chunks, t': int) {
    TopPart(ch') == TopPart(ch) && (t' == t || forall x :: x !in TopPart(ch))
  }

  lemma AlikeServes(ch: Chunks, t: int, ch': Chunks, t': int, nb: int)
    requires TopAlike(ch, t, ch', t')
    ensures TopServes(ch, t, nb) <==> TopServes(ch', t', nb)
    ensures forall a :: Enough(ch, t, a, nb) <==> Enough(ch', t', a, nb)
    ensures forall a :: TopFrom(ch, t, a) == TopFrom(ch', t', a)
  {
    assert forall x :: x in TopPart(ch) <==> x in TopPart(ch');
    assert t in ch && ch[t].kind.Top? ==> t in TopPart(ch);
    assert t' in ch' && ch'[t'].kind.Top? ==> t' in TopPart(ch');
    assert t in TopPart(ch) ==> t == t' && TopPart(ch')[t] == TopPart(ch)[t];
  }

  /** How the parts of an allocation fit together: s1 is the heap after the lists were searched in vain, b1 what the
      search has made of it, and s2 the consolidated heap if the system path consolidates. */
  lemma Conclude(s0: Snapshot, fast: bool, s1: Snapshot, b1: Book, t1: int, s2: Snapshot, nb: int, how: Outcome,
      m: int, a0: seq<Answer>, a1: seq<Answer>)
    requires if fast && nb >= MIN_LARGE_SIZE then
               Consolidated(s1, s0.book) && Ordered(s1, s0.book, UnsortedIn(s0.book.bins))
             else s1 == s0
    requires ListChoice(s1, nb).Refused? && TopAlike(s1.book.ch, s1.top, b1.ch, t1)
    requires TopServes(b1.ch, t1, nb) ==> how.FromTop? && m == t1 + 8 && m != 0 && a1 == a0
    requires !TopServes(b1.ch, t1, nb) ==>
      if fast && nb < MIN_LARGE_SIZE then
        Consolidated(s2, s0.book) && Ordered(s2, s0.book, []) && Decided(s2, nb, how, m, a0, a1)
      else BySystem(b1.ch, t1, nb, how, m, a0, a1)
    ensures Chosen(s0, fast, if !TopServes(b1.ch, t1, nb) && fast && nb < MIN_LARGE_SIZE then s2 else s1, nb, how, m,
      a0, a1)
  {
    hide ListChoice, Consolidated, Enough, MoreCoreRequest, ChosenFrom, Ordered, TopFrom;
    AlikeServes(s1.book.ch, s1.top, b1.ch, t1, nb);
    AlikeTop(s1.book.ch, s1.top, b1.ch, t1, nb);
  }

  lemma TopAlikeSame(ch: Chunks, ch': Chunks, t: int)
    requires TopPart(ch') == TopPart(ch)
    ensures TopAlike(ch, t, ch', t)
  {
  }

  lemma BySystemHow(ch: Chunks, t: int, nb: int, how: Outcome, m: int, a0: seq<Answer>, a1: seq<Answer>)
    ensures BySystem(ch, t, nb, how, m, a0, a1) ==> how.FromSystem? || how.Refused?
  {
  }

  lemma ChosenByList(s0: Snapshot, fast: bool, s: Snapshot, nb: int, how: Outcome, v: int, a: seq<Answer>)
    requires if fast && nb >= MIN_LARGE_SIZE then
               Consolidated(s, s0.book) && Ordered(s, s0.book, UnsortedIn(s0.book.bins))
             else s == s0
    requires v + 8 != 0 && (!how.FromFastbin? ==> how == ListChoice(s, nb) && ChosenFrom(s, nb, how, v))
    ensures !how.FromFastbin? ==> Chosen(s0, fast, s, nb, how, v + 8, a, a)
  {
    hide Consolidated, SmallHit, ExactHit, RemainderHit, Ordered;
  }

  lemma AlikeTop(ch: Chunks, t: int, ch': Chunks, t': int, nb: int)
    requires TopAlike(ch, t, ch', t')
    ensures TopServes(ch', t', nb) ==> t' == t
  {
    assert t' in ch' && ch'[t'].kind.Top? ==> t' in TopPart(ch');
  }

  lemma PagesAligned(size: int)
    requires size % PAGESIZE == 0
    ensures size % 8 == 0
  {
  }

  /** What MORECORE promises: whole pages of fresh, aligned memory, and at least what was asked for
      if they continue top, since top then grows by exactly the request. */
  ghost predicate Granted(ch: Chunks, t: int, size: int, brk: int, snd: int) {
    && FreshSpace(ch, brk, snd) && PAGESIZE <= snd - brk
    && (t in ch && brk == t + ch[t].size ==> size <= snd - brk)
  }

  lemma GrantedSpace(m: Mem, fb: seq<int>, b: Book, t: int, size: int, brk: int, snd: int)
    requires Inv(m, fb, b) && TopOk(m, b.ch, t) && Granted(b.ch, t, size, brk, snd) && size % 8 == 0 && 0 <= size
    ensures FreshSpace(b.ch, brk, snd) && MINSIZE <= PAGESIZE <= snd - brk && HEAP_BASE <= brk && brk % 8 == 0
    ensures TopIs(b.ch, t) && brk == t + b.ch[t].size ==> FreshSpace(b.ch, brk, brk + size)
    ensures !TopIs(b.ch, t) ==> t < brk && forall x :: x in b.ch ==> !b.ch[x].kind.Top?
  {
  }

  lemma GrownInv(m: Mem, m': Mem, fb: seq<int>, b: Book, t: int, extra: int)
    requires Inv(m, fb, b) && TopIs(b.ch, t) && 0 <= extra
      && FreshSpace(b.ch, t + b.ch[t].size, t + b.ch[t].size + extra)
    requires m' == m[t + 4 := extra + b.ch[t].size + PREV_INUSE]
    ensures var b' := b.(ch := GrowCh(b.ch, t, extra));
            && Inv(m', fb, b') && PartsOf(b'.ch) == PartsOf(b.ch).(tops := TopPart(b'.ch))
               && Total(b'.ch) == Total(b.ch) + extra
            && TopIs(b'.ch, t) && SamePayload(m, m', LivePart(b.ch))
  {
    hide Inv, FreshSpace, GrowCh, LivePart, PartsOf, Total;
    GrowCensus(b.ch, t, extra);
    GrowKinds(b.ch, t, extra);
    GrowInv(m, m', fb, b, t, extra);
  }

  lemma FirstRegion(m: Mem, m': Mem, fb: seq<int>, b: Book, brk: int, len: int)
    requires Inv(m, fb, b) && (forall x :: x in b.ch ==> !b.ch[x].kind.Top?)
    requires MINSIZE <= len && FreshSpace(b.ch, brk, brk + len) && m' == m[brk + 4 := len + PREV_INUSE]
    ensures var b' := b.(ch := RegionCh(b.ch, brk, len));
            && Inv(m', fb, b') && PartsOf(b'.ch) ==
               PartsOf(b.ch).(starts := Starts(b.ch) + {brk}, tops := TopPart(b'.ch))
               && Total(b'.ch) == Total(b.ch) + len
            && TopIs(b'.ch, brk) && SamePayload(m, m', LivePart(b.ch))
  {
    RegionTiled(b.ch, brk, len);
    RegionCensus(b.ch, brk, len);
    RegionKinds(b.ch, brk, len);
    RegionInv(m, m', fb, b, brk, len);
  }
}
