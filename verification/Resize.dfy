/** Changing the size of a block in place, and moving it: what realloc, memalign and
    independent_calloc do to chunks in use. */
module Resize {
  import opened Memory
  import opened Ring
  import opened Heap
  import opened HeapSteps
  import opened TopSteps
  import opened Census
  import opened FreeSteps
  import opened AllocSteps
  import opened SystemSteps

  // ---------------------------------------------------------------- step: split an open chunk into two in use

  /** The size words of the two halves of p, and the in-use bit behind them. */
  ghost predicate HalvesMarked(m: Mem, ch: Chunks, p: int, nb: int)
    requires p in ch && Succ(ch, p) in ch
  {
    var n := Succ(ch, p);
    && At(m, p + 4) == nb + (if PrevFree(ch, p) then 0 else PREV_INUSE)
    && At(m, p + nb + 4) == ch[p].size - nb + PREV_INUSE
    && At(m, n + 4) == HeadSize(ch[n]) + PREV_INUSE
  }

  ghost function HalvesBook(b: Book, p: int, nb: int): Book
    requires p in b.ch && Succ(b.ch, p) in b.ch
  {
    var b1 := CloseBook(b.(ch := SplitCh(b.ch, p, nb)), p);
    if p + nb in b1.ch then CloseBook(b1, p + nb) else b1
  }

  lemma HalvesReady(m: Mem, m': Mem, ch: Chunks, p: int, nb: int)
    requires Tiled(ch) && CanSplit(ch, p, nb) && !PrevHole(ch, p) && !ch[Succ(ch, p)].kind.Hole?
    requires SameBut(m, m', {p + 4, p + nb + 4, Succ(ch, p) + 4}) && HalvesMarked(m', ch, p, nb)
    ensures var m1, ch1, r := m[p + 4 := At(m', p + 4)], SplitCh(ch, p, nb), p + nb;
            && SameBut(m, m1, TagWords(ch1, p)) && !PrevHole(ch1, p) && Succ(ch1, p) in ch1 && NextMarked(m1, ch1, p)
            && At(m1, p + 4) == nb + (if PrevFree(ch1, p) then 0 else PREV_INUSE)
            && ch1[p].kind.Hole? && ch1[p].size == nb
            && var ch2 := Retag(ch1, p, Live);
               && r in ch2 && ch2[r].kind.Hole? && ch2[r].size == ch[p].size - nb && !PrevHole(ch2, r)
                  && !PrevFree(ch2, r)
               && SameBut(m1, m', TagWords(ch2, r)) && Succ(ch2, r) in ch2 && NextMarked(m', ch2, r)
               && At(m', r + 4) == ch2[r].size + PREV_INUSE
  {
    SplitFacts(ch, p, nb);
    assert TileOk(ch, p);
  }

  lemma FirstHalfInv(m: Mem, m1: Mem, fb: seq<int>, b: Book, p: int, nb: int)
    requires Inv(m, fb, b) && CanSplit(b.ch, p, nb)
    requires var ch1 := SplitCh(b.ch, p, nb);
             && p in ch1 && ch1[p].kind.Hole? && ch1[p].size == nb && SameBut(m, m1, TagWords(ch1, p))
                && !PrevHole(ch1, p)
             && Succ(ch1, p) in ch1 && NextMarked(m1, ch1, p)
             && At(m1, p + 4) == nb + if PrevFree(ch1, p) then 0 else PREV_INUSE
    ensures var b1 := b.(ch := SplitCh(b.ch, p, nb));
            && Inv(m1, fb, CloseBook(b1, p)) && SamePayload(m, m1, LivePart(b.ch))
            && LivePart(CloseBook(b1, p).ch) == LivePart(b.ch)[p := nb]
  {
    hide Inv, SameBut, LivePart, NextMarked, PrevHole, PrevFree, SplitCh, SamePayload;
    var b1 := b.(ch := SplitCh(b.ch, p, nb));
    ListedOf(m, fb, b);
    SplitInv(m, fb, b, p, nb);
    SplitParts(b.ch, p, nb);
    CloseInv(m, m1, fb, b1, p);
  }

  /** The second half, once the first is closed. */
  lemma SecondHalfInv(m1: Mem, m': Mem, fb: seq<int>, b2: Book, r: int, size: int)
    requires Inv(m1, fb, b2) && r in b2.ch && b2.ch[r].kind.Hole? && !PrevFree(b2.ch, r) && b2.ch[r].size == size
    requires SameBut(m1, m', TagWords(b2.ch, r)) && Succ(b2.ch, r) in b2.ch && NextMarked(m', b2.ch, r)
    requires At(m', r + 4) == size + PREV_INUSE
    ensures Inv(m', fb, CloseBook(b2, r)) && SamePayload(m1, m', LivePart(b2.ch))
    ensures LivePart(CloseBook(b2, r).ch) == LivePart(b2.ch)[r := size]
  {
    hide Inv, SameBut, TagWords, PrevFree, NextMarked, CloseBook;
    CloseInv(m1, m', fb, b2, r);
  }

  lemma HalvesAre(b: Book, p: int, nb: int)
    requires p in b.ch && Succ(b.ch, p) in b.ch && 0 < nb
    ensures var b1 := b.(ch := SplitCh(b.ch, p, nb));
            p in b1.ch && p + nb in CloseBook(b1, p).ch && HalvesBook(b, p, nb) == CloseBook(CloseBook(b1, p), p + nb)
            && CloseBook(b1, p).ch == Retag(b1.ch, p, Live)
  {
  }

  lemma BothHalvesInv(m: Mem, m': Mem, fb: seq<int>, b: Book, b2: Book, p: int, nb: int) returns (m1: Mem)
    requires Inv(m, fb, b) && CanSplit(b.ch, p, nb) && !PrevHole(b.ch, p) && !b.ch[Succ(b.ch, p)].kind.Hole?
    requires SameBut(m, m', {p + 4, p + nb + 4, Succ(b.ch, p) + 4}) && HalvesMarked(m', b.ch, p, nb)
    requires var b1 := b.(ch := SplitCh(b.ch, p, nb));
             p in b1.ch && b2 == CloseBook(b1, p) && p + nb in b2.ch && b2.ch == Retag(b1.ch, p, Live)
    ensures Inv(m', fb, CloseBook(b2, p + nb))
    ensures LivePart(CloseBook(b2, p + nb).ch) == LivePart(b.ch)[p := nb][p + nb := b.ch[p].size - nb]
    ensures SamePayload(m, m1, LivePart(b.ch)) && SamePayload(m1, m', LivePart(b.ch)[p := nb])
  {
    hide CloseBook, Retag, HeadSize, Inv, SameBut, LivePart, NextMarked, HalvesMarked, Tiled, TagWords, SplitCh;
    hide PrevHole, PrevFree, SamePayload;
    m1 := m[p + 4 := At(m', p + 4)];
    ListedOf(m, fb, b);
    HalvesReady(m, m', b.ch, p, nb);
    FirstHalfInv(m, m1, fb, b, p, nb);
    SecondHalfInv(m1, m', fb, b2, p + nb, b.ch[p].size - nb);
  }

  lemma HalvesInv(m: Mem, m': Mem, fb: seq<int>, b: Book, p: int, nb: int)
    requires Inv(m, fb, b) && CanSplit(b.ch, p, nb) && !PrevHole(b.ch, p) && !b.ch[Succ(b.ch, p)].kind.Hole?
    requires SameBut(m, m', {p + 4, p + nb + 4, Succ(b.ch, p) + 4}) && HalvesMarked(m', b.ch, p, nb)
    ensures Inv(m', fb, HalvesBook(b, p, nb)) && SamePayload(m, m', LivePart(b.ch))
    ensures LivePart(HalvesBook(b, p, nb).ch) == LivePart(b.ch)[p := nb][p + nb := b.ch[p].size - nb]
  {
    hide HalvesBook, CloseBook, Retag, Inv, SameBut, LivePart, HalvesMarked, SplitCh, PrevHole, SamePayload;
    NotLive(b.ch, p);
    HalvesAre(b, p, nb);
    var live := LivePart(b.ch);
    var m1 := BothHalvesInv(m, m', fb, b, CloseBook(b.(ch := SplitCh(b.ch, p, nb)), p), p, nb);
    SamePayloadTransitive(m, m1, m', live, live[p := nb]);
  }

  lemma HalvesTotals(b: Book, p: int, nb: int, t: int)
    requires Tiled(b.ch) && CanSplit(b.ch, p, nb)
    ensures var b', q := HalvesBook(b, p, nb), PartsOf(b.ch);
            && PartsOf(b'.ch) == q.(live := q.live[p := nb][p + nb := b.ch[p].size - nb], holes := q.holes - {p})
            && Total(b'.ch) == Total(b.ch) && b'.bins == b.bins && b'.fast == b.fast
            && (TopIs(b.ch, t) ==> TopIs(b'.ch, t))
  {
    hide Tiled, SplitCh, Retag, PartsOf, Total, TopIs;
    FrontParts(b.ch, p, nb, t);
    var ch2 := Retag(SplitCh(b.ch, p, nb), p, Live);
    RetagCensus(ch2, p + nb, Live);
    CloseCensus(ch2, p + nb);
  }

  // ---------------------------------------------------------------- step: cut a chunk in use in two

  ghost function CutBook(b: Book, p: int, k: int): Book
    requires p in b.ch && p + b.ch[p].size in b.ch && 0 < b.ch[p].size
  {
    HalvesBook(OpenBook(b, p), p, k)
  }

  ghost predicate CanCut(ch: Chunks, p: int, k: int) {
    p in ch && ch[p].kind.Live? && k % 8 == 0 && MINSIZE <= k && k + MINSIZE <= ch[p].size
  }

  /** Both size words are stored; the in-use bit behind the chunk is set, and stays so. */
  ghost predicate CutStores(m: Mem, m': Mem, p: int, size: int, k: int) {
    && SameBut(m, m', {p + 4, p + k + 4})
    && At(m', p + 4) == At(m, p + 4) % 2 + k && At(m', p + k + 4) == size - k + PREV_INUSE
  }

  lemma CutReady(m: Mem, m': Mem, fb: seq<int>, b: Book, p: int, k: int)
    requires Inv(m, fb, b) && Holes(b.ch) == {} && CanCut(b.ch, p, k) && CutStores(m, m', p, b.ch[p].size, k)
    ensures p + b.ch[p].size in b.ch && MINSIZE <= b.ch[p].size && p in LivePart(b.ch) && Tiled(b.ch)
      && p + k !in LivePart(b.ch) && p % 8 == 0 && p > 0
    ensures var ch1 := Retag(b.ch, p, Hole);
            && CanSplit(ch1, p, k) && !PrevHole(ch1, p) && !ch1[Succ(ch1, p)].kind.Hole? && ch1[p].size == b.ch[p].size
            && SameBut(m, m', {p + 4, p + k + 4, Succ(ch1, p) + 4}) && HalvesMarked(m', ch1, p, k)
  {
    AfterLive(m, fb, b, p);
    NoHoleBefore(b, p);
    NoHoleAfter(b, Succ(b.ch, p));
    assert TileOk(b.ch, p) && TagOk(m, b.ch, p);
    FlagBit(b.ch[p].size);
    assert p + k in b.ch ==> Before(b.ch, p, p + k);
  }

  lemma CutPayload(m: Mem, m': Mem, live: map<int, int>, p: int, size: int, k: int)
    requires CutStores(m, m', p, size, k) && SamePayload(m, m', live - {p}) && MINSIZE <= k && k + MINSIZE <= size
    ensures SamePayload(m, m', live[p := k][p + k := size - k])
  {
    var live' := live[p := k][p + k := size - k];
    forall q, a | q in live' && q + 8 <= a < q + live'[q] + 4
      ensures At(m', a) == At(m, a)
    {
      assert q != p && q != p + k ==> q in live - {p};
    }
  }

  lemma CutTotals(b: Book, p: int, k: int, t: int)
    requires p in b.ch && b.ch[p].kind.Live? && Holes(b.ch) == {} && p + b.ch[p].size in b.ch && 0 < b.ch[p].size
    requires Tiled(Retag(b.ch, p, Hole)) && CanSplit(Retag(b.ch, p, Hole), p, k)
    ensures var b' := CutBook(b, p, k);
            && LivePart(b'.ch) == LivePart(b.ch)[p := k][p + k := b.ch[p].size - k]
            && FastPart(b'.ch) == FastPart(b.ch) && BinnedPart(b'.ch) == BinnedPart(b.ch)
               && DeadPart(b'.ch) == DeadPart(b.ch)
            && Holes(b'.ch) == {} && Total(b'.ch) == Total(b.ch) && b'.bins == b.bins && b'.fast == b.fast
            && (TopIs(b.ch, t) ==> TopIs(b'.ch, t))
  {
    hide Tiled, HalvesBook, CanSplit, LivePart, FastPart, BinnedPart, DeadPart, TopPart, Starts, Holes, Total, TopIs;
    var b1, live := OpenBook(b, p), LivePart(b.ch);
    RetagCensus(b.ch, p, Hole);
    OpenCensus(b.ch, p);
    HolesPart(b.ch);
    HolesPart(b1.ch);
    HalvesTotals(b1, p, k, t);
    HolesPart(HalvesBook(b1, p, k).ch);
    assert {} + {p} - {p} == {};
    assert (live - {p})[p := k] == live[p := k];
  }

  lemma CutInv(m: Mem, m': Mem, fb: seq<int>, b: Book, p: int, k: int)
    requires Inv(m, fb, b) && Holes(b.ch) == {} && CanCut(b.ch, p, k) && CutStores(m, m', p, b.ch[p].size, k)
    ensures p + b.ch[p].size in b.ch && 0 < b.ch[p].size && p in LivePart(b.ch) && p + k !in LivePart(b.ch)
      && p % 8 == 0 && p > 0
    ensures Tiled(Retag(b.ch, p, Hole)) && CanSplit(Retag(b.ch, p, Hole), p, k)
    ensures Inv(m', fb, CutBook(b, p, k)) && SamePayload(m, m', LivePart(b.ch)[p := k][p + k := b.ch[p].size - k])
  {
    hide Inv, Tiled, HalvesBook, HalvesMarked, CanSplit, CutStores, SameBut, SamePayload, LivePart, PrevHole;
    CutReady(m, m', fb, b, p, k);
    OpenInv(m, fb, b, p);
    ListedOf(m, fb, OpenBook(b, p));
    HalvesInv(m, m', fb, OpenBook(b, p), p, k);
    CutPayload(m, m', LivePart(b.ch), p, b.ch[p].size, k);
  }

  // ---------------------------------------------------------------- step: close an open chunk

  lemma CloseWholeInv(m: Mem, m': Mem, fb: seq<int>, b: Book, p: int)
    requires Inv(m, fb, b) && p in b.ch && b.ch[p].kind.Hole? && !PrevHole(b.ch, p) && Succ(b.ch, p) in b.ch
    requires m' == m[p + 4 := b.ch[p].size + if PrevFree(b.ch, p) then 0 else PREV_INUSE]
                    [Succ(b.ch, p) + 4 := HeadSize(b.ch[Succ(b.ch, p)]) + PREV_INUSE]
    ensures Inv(m', fb, CloseBook(b, p)) && SamePayload(m, m', LivePart(b.ch)[p := b.ch[p].size])
    ensures LivePart(CloseBook(b, p).ch) == LivePart(b.ch)[p := b.ch[p].size]
  {
    assert TileOk(b.ch, p) && TileOk(b.ch, Succ(b.ch, p));
    assert SameBut(m, m', TagWords(b.ch, p));
    CloseOwnPayload(m, m', b.ch, p);
    var live := LivePart(b.ch);
    hide Inv, SameBut, LivePart;
    CloseInv(m, m', fb, b, p);
  }

  lemma CloseOwnPayload(m: Mem, m': Mem, ch: Chunks, p: int)
    requires Tiled(ch) && p in ch && MINSIZE <= ch[p].size
    requires m' == m[p + 4 := At(m', p + 4)][Succ(ch, p) + 4 := At(m', Succ(ch, p) + 4)]
    ensures SamePayload(m, m', map[p := ch[p].size])
  {
  }

  // ---------------------------------------------------------------- step: a chunk in use grows into top

  ghost function ShiftCh(ch: Chunks, p: int, t: int, nb: int): Chunks
    requires p in ch && t in ch
  {
    (ch - {t})[p := ch[p].(size := nb)][p + nb := Chunk(ch[p].size + ch[t].size - nb, p, Top)]
  }

  ghost predicate CanShift(ch: Chunks, p: int, t: int, nb: int) {
    && TopIs(ch, t) && p in ch && ch[p].kind.Live? && p + ch[p].size == t
    && nb % 8 == 0 && ch[p].size < nb && nb + MINSIZE <= ch[p].size + ch[t].size
  }

  lemma ShiftFacts(ch: Chunks, p: int, t: int, nb: int)
    requires Tiled(ch) && CanShift(ch, p, t, nb)
    ensures 0 <= p < t < p + nb && p + nb !in ch && ch[t].prev == p && ch[p].prev != p && ch[p].prev != t
      && ch[p].prev != p + nb
    ensures forall x :: x in ch && x != t ==> ch[x].prev != p && ch[x].prev != t
    ensures MINSIZE <= ch[p].size && ch[p].size % 8 == 0 && ch[t].size % 8 == 0
  {
    assert TileOk(ch, p) && TileOk(ch, t);
    assert p + nb in ch ==> Before(ch, t, p + nb);
    forall x | x in ch && x != t
      ensures ch[x].prev != p && ch[x].prev != t
    {
      assert TileOk(ch, x);
    }
  }

  lemma ShiftTiled(ch: Chunks, p: int, t: int, nb: int)
    requires Tiled(ch) && CanShift(ch, p, t, nb)
    ensures Tiled(ShiftCh(ch, p, t, nb))
  {
    ShiftFacts(ch, p, t, nb);
    var ch', r := ShiftCh(ch, p, t, nb), p + nb;
    assert TileOk(ch, p) && TileOk(ch, t);
    forall x | x in ch'
      ensures TileOk(ch', x)
    {
      assert x != r ==> TileOk(ch, x);
    }
    forall x, y | x in ch' && y in ch' && x < y
      ensures Before(ch', x, y)
    {
      ShiftBefore(ch, p, t, nb, x, y);
    }
  }

  lemma ShiftBefore(ch: Chunks, p: int, t: int, nb: int, x: int, y: int)
    requires Tiled(ch) && CanShift(ch, p, t, nb) && x in ShiftCh(ch, p, t, nb) && y in ShiftCh(ch, p, t, nb) && x < y
    ensures Before(ShiftCh(ch, p, t, nb), x, y)
  {
    ShiftFacts(ch, p, t, nb);
    var x', y' := if x == p + nb then t else x, if y == p + nb then t else y;
    assert x' < y' ==> Before(ch, x', y');
    assert y' < x' ==> Before(ch, y', x');
    assert x == p && y != p + nb && t < y ==> Before(ch, t, y);
  }

  lemma ShiftTagged(m: Mem, m': Mem, ch: Chunks, p: int, t: int, nb: int)
    requires Tiled(ch) && Tagged(m, ch) && CanShift(ch, p, t, nb) && !PrevHole(ch, p)
    requires SameBut(m, m', {p + 4, p + nb + 4})
    requires At(m', p + 4) == nb + (if PrevFree(ch, p) then 0 else PREV_INUSE)
    requires At(m', p + nb + 4) == ch[p].size + ch[t].size - nb + PREV_INUSE
    ensures Tagged(m', ShiftCh(ch, p, t, nb))
  {
    ShiftFacts(ch, p, t, nb);
    var ch', w := ShiftCh(ch, p, t, nb), {p + 4, p + nb + 4};
    assert TileOk(ch, p) && TileOk(ch, t);
    forall x | x in ch'
      ensures TagOk(m', ch', x)
    {
      if x != p && x != p + nb {
        assert TagOk(m, ch, x);
        InsideWords(ch, p, x, p + 4);
        InsideWords(ch, t, x, p + nb + 4);
        TagKept(m, m', ch, ch', x, w);
      }
    }
  }

  lemma ShiftParts(ch: Chunks, p: int, t: int, nb: int)
    requires Tiled(ch) && CanShift(ch, p, t, nb)
    ensures PartsOf(ShiftCh(ch, p, t, nb)) ==
      PartsOf(ch).(live := LivePart(ch)[p := nb], tops := TopPart(ShiftCh(ch, p, t, nb)))
    ensures TopIs(ShiftCh(ch, p, t, nb), p + nb)
  {
    hide Tiled, FastPart, BinnedPart, DeadPart, TopPart, Starts, Holes;
    ShiftFacts(ch, p, t, nb);
    ShiftFree(ch, p, t, nb);
    ShiftStarts(ch, p, t, nb);
    var ch' := ShiftCh(ch, p, t, nb);
    assert LivePart(ch') == LivePart(ch)[p := nb];
  }

  lemma ShiftFree(ch: Chunks, p: int, t: int, nb: int)
    requires CanShift(ch, p, t, nb) && p != t && p + nb !in ch
    ensures var ch' := ShiftCh(ch, p, t, nb);
            FastPart(ch') == FastPart(ch) && BinnedPart(ch') == BinnedPart(ch) && DeadPart(ch') == DeadPart(ch)
              && Holes(ch') == Holes(ch)
  {
  }

  lemma ShiftStarts(ch: Chunks, p: int, t: int, nb: int)
    requires CanShift(ch, p, t, nb) && 0 <= p != t && ch[t].prev == p && p + nb !in ch
    ensures Starts(ShiftCh(ch, p, t, nb)) == Starts(ch)
  {
  }

  lemma ShiftCensus(ch: Chunks, p: int, t: int, nb: int)
    requires Tiled(ch) && CanShift(ch, p, t, nb)
    ensures Total(ShiftCh(ch, p, t, nb)) == Total(ch)
  {
    ShiftFacts(ch, p, t, nb);
    MapSum.SumRemove(Sizes(ch), t);
    var s := Sizes(ch) - {t};
    MapSum.SumUpdate(s, p, nb);
    MapSum.SumAdd(s[p := nb], p + nb, ch[p].size + ch[t].size - nb);
    assert Sizes(ShiftCh(ch, p, t, nb)) == s[p := nb][p + nb := ch[p].size + ch[t].size - nb];
  }

  lemma ShiftFrames(m: Mem, m': Mem, fb: seq<int>, b: Book, p: int, t: int, nb: int)
    requires Inv(m, fb, b) && CanShift(b.ch, p, t, nb) && SameBut(m, m', {p + 4, p + nb + 4})
    ensures Rings(m', b.bins) && Chains(m', fb, b.fast) && SamePayload(m, m', LivePart(b.ch))
  {
    var ch, w := b.ch, {p + 4, p + nb + 4};
    ShiftFacts(ch, p, t, nb);
    assert TileOk(ch, p) && TileOk(ch, t);
    forall i {:trigger BinAt(i)} | 1 <= i < NBINS
      ensures OffLinks(BinAt(i), w)
    {
    }
    forall x | x in ch && Ordinary(ch[x].kind)
      ensures OffLinks(x, w) && OffPayload(ch, x, p + 4) && OffPayload(ch, x, p + nb + 4)
    {
      InsideWords(ch, t, x, p + nb + 4);
      if x != p {
        InsideWords(ch, p, x, p + 4);
      }
    }
    RingsFrame(m, m', ch, b.bins, w);
    ChainsFrame(m, m', fb, ch, b.fast, w);
    PayloadKept(m, m', ch, w);
  }

  lemma ShiftInv(m: Mem, m': Mem, fb: seq<int>, b: Book, p: int, t: int, nb: int)
    requires Inv(m, fb, b) && CanShift(b.ch, p, t, nb) && Holes(b.ch) == {}
    requires var w := At(m, p + 4);
             m' == m[p + 4 := w % 2 + nb][p + nb + 4 := b.ch[p].size + b.ch[t].size - nb + PREV_INUSE]
    ensures Inv(m', fb, b.(ch := ShiftCh(b.ch, p, t, nb))) && SamePayload(m, m', LivePart(b.ch))
  {
    ShiftFacts(b.ch, p, t, nb);
    NoHoleBefore(b, p);
    assert TagOk(m, b.ch, p);
    FlagBit(b.ch[p].size);
    ShiftFrames(m, m', fb, b, p, t, nb);
    ShiftTiled(b.ch, p, t, nb);
    ShiftTagged(m, m', b.ch, p, t, nb);
    ShiftParts(b.ch, p, t, nb);
  }

  // ---------------------------------------------------------------- stores by the owner of a block

  /** m' differs from m only inside the payload of the block at q. */
  ghost predicate OwnStores(m: Mem, m': Mem, q: int, size: int) {
    forall a {:trigger At(m', a)} :: !(q + 8 <= a < q + size + 4) ==> At(m', a) == At(m, a)
  }

  ghost predicate InPayload(q: int, size: int, a: int) {
    q + 8 <= a < q + size + 4
  }

  lemma OwnStoresTagged(m: Mem, m': Mem, ch: Chunks, q: int)
    requires Tiled(ch) && Tagged(m, ch) && q in ch && ch[q].kind.Live? && OwnStores(m, m', q, ch[q].size)
    ensures Tagged(m', ch)
  {
    assert TileOk(ch, q);
    forall x | x in ch
      ensures TagOk(m', ch, x)
    {
      assert TagOk(m, ch, x) && TileOk(ch, x);
      OwnTag(m, m', ch, q, x);
    }
  }

  lemma OwnTag(m: Mem, m': Mem, ch: Chunks, q: int, x: int)
    requires Tiled(ch) && q in ch && ch[q].kind.Live? && OwnStores(m, m', q, ch[q].size) && x in ch && TagOk(m, ch, x)
    ensures TagOk(m', ch, x)
  {
    assert TileOk(ch, q) && TileOk(ch, x) && TileOk(ch, Succ(ch, q));
    assert x < q ==> Before(ch, x, q);
    assert q < x ==> Before(ch, q, x);
  }

  lemma OwnStoresInv(m: Mem, m': Mem, fb: seq<int>, b: Book, q: int)
    requires Inv(m, fb, b) && q in b.ch && b.ch[q].kind.Live? && OwnStores(m, m', q, b.ch[q].size)
    ensures Inv(m', fb, b) && SamePayload(m, m', LivePart(b.ch) - {q})
  {
    var ch := b.ch;
    var w := set a | q <= a < q + ch[q].size + 4 && InPayload(q, ch[q].size, a);
    assert SameBut(m, m', w);
    assert TileOk(ch, q);
    OwnStoresTagged(m, m', ch, q);
    forall x | x in ch && Ordinary(ch[x].kind) && x != q
      ensures OffLinks(x, w)
    {
      OwnOff(ch, q, x);
    }
    forall i {:trigger BinAt(i)} | 1 <= i < NBINS
      ensures OffLinks(BinAt(i), w)
    {
    }
    RingsFrame(m, m', ch, b.bins, w);
    ChainsFrame(m, m', fb, ch, b.fast, w);
    OwnPayload(m, m', ch, q);
  }

  lemma OwnOff(ch: Chunks, q: int, x: int)
    requires Tiled(ch) && q in ch && ch[q].kind.Live? && x in ch && Ordinary(ch[x].kind) && x != q
    ensures x + 16 <= q + 8 || q + ch[q].size + 4 <= x + 8
    ensures x + ch[x].size + 4 <= q + 8 || q + ch[q].size + 4 <= x + 8
  {
    assert TileOk(ch, q) && TileOk(ch, x);
    assert x < q ==> Before(ch, x, q);
    assert q < x ==> Before(ch, q, x);
  }

  lemma OwnPayload(m: Mem, m': Mem, ch: Chunks, q: int)
    requires Tiled(ch) && q in ch && ch[q].kind.Live? && OwnStores(m, m', q, ch[q].size)
    ensures SamePayload(m, m', LivePart(ch) - {q})
  {
    forall p, a | p in LivePart(ch) - {q} && p + 8 <= a < p + LivePart(ch)[p] + 4
      ensures At(m', a) == At(m, a)
    {
      OwnOff(ch, q, p);
    }
  }
}
