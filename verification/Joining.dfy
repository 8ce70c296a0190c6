/** What consolidating the fastbins makes of the free space, in the order in which it happens: which free chunks there
    are, in which order they are on the unsorted list, and where top begins. Only sizes and addresses matter. */
module Joining {
  import opened Memory
  import opened Ring
  import opened Heap
  import opened HeapSteps
  import opened TopSteps
  import opened Census
  import opened FreeSteps

  /** The free chunks and their sizes, the unsorted list, and where top begins, if there is one. */
  datatype Space = Space(free: map<int, int>, unsorted: seq<int>, tops: set<int>)

  ghost function SizeIn(bp: map<int, Entry>, p: int): int {
    if p in bp then bp[p].size else 0
  }

  ghost function FreeSizes(bp: map<int, Entry>): map<int, int> {
    map p | p in bp :: SizeIn(bp, p)
  }

  ghost function UnsortedIn(bins: seq<seq<int>>): seq<int> {
    if |bins| > UNSORTED then bins[UNSORTED] else []
  }

  ghost function SpaceOf(b: Book): Space {
    Space(FreeSizes(BinnedPart(b.ch)), UnsortedIn(b.bins), TopPart(b.ch).Keys)
  }

  ghost predicate EndsAt(free: map<int, int>, q: int, p: int) {
    q in free && q + free[q] == p
  }

  /** Where the free chunk begins that ends at p; p itself, if there is none. */
  ghost function StartOf(free: map<int, int>, p: int): int {
    if exists q :: EndsAt(free, q, p) then var q :| EndsAt(free, q, p); q else p
  }

  /** The space after p has joined it: with the free chunks around it, it is the first of the unsorted list; or, if it
      borders top, the beginning of top. */
  ghost function Joined(s: Space, p: int, size: int): Space {
    var q, n := StartOf(s.free, p), p + size;
    var rest := Purged(Purged(s.unsorted, q), n);
    if n in s.tops then Space(s.free - {q} - {n}, rest, s.tops - {n} + {q})
    else
      var end := if n in s.free then n + s.free[n] else n;
      Space((s.free - {q} - {n})[q := end - q], [q] + rest, s.tops)
  }

  /** After the chunks of a chain have joined it, from its head on. */
  ghost function ChainJoined(s: Space, chain: seq<int>, size: int): Space
    decreases |chain|
  {
    if chain == [] then s else ChainJoined(Joined(s, chain[0], size), chain[1..], size)
  }

  /** After all fastbins from i on have, from the smallest size on. */
  ghost function FastJoined(s: Space, fast: seq<seq<int>>, i: nat): Space
    decreases |fast| - i
  {
    if i >= |fast| then s else FastJoined(ChainJoined(s, fast[i], 8 * i + 16), fast, i + 1)
  }

  // ---------------------------------------------------------------- freeing a chunk

  lemma {:induction false} PurgedNone(s: seq<int>, x: int)
    requires x !in s
    ensures Purged(s, x) == s
  {
    if s != [] {
      PurgedNone(s[1..], x);
    }
  }

  lemma {:induction false} PurgedLess(s: seq<int>, x: int, y: int)
    requires y !in s
    ensures y !in Purged(s, x)
  {
    if s != [] && s[0] != x {
      PurgedLess(s[1..], x, y);
    }
  }

  /** Taking chunk x out of the lists takes it out of the unsorted one, if it is there. */
  lemma UnsortedPurged(bins: seq<seq<int>>, ch: Chunks, x: int)
    requires |bins| == NBINS && (x in bins[UNSORTED] ==> x in ch && ch[x].kind == Binned(UNSORTED))
    ensures UnsortedIn(PurgedBins(bins, ch, x)) == Purged(bins[UNSORTED], x)
  {
    if x !in bins[UNSORTED] {
      PurgedNone(bins[UNSORTED], x);
    }
  }

  lemma OnUnsorted(b: Book, x: int)
    requires Listed(BinnedPart(b.ch), b.bins) && x in b.bins[UNSORTED]
    ensures x in b.ch && b.ch[x].kind == Binned(UNSORTED)
  {
    hide BinOk;
    UnsortedHeld(BinnedPart(b.ch), b.bins[UNSORTED], x);
  }

  lemma UnsortedHeld(bp: map<int, Entry>, s: seq<int>, x: int)
    requires BinOk(bp, s, UNSORTED) && x in s
    ensures x in bp && bp[x].bin == UNSORTED
  {
  }

  /** The unsorted list after p has been freed. */
  lemma UnsortedFreed(b: Book, p: int)
    requires Listed(BinnedPart(b.ch), b.bins) && p in b.ch
    ensures var q := MergeStart(b.ch, p);
            var rest := Purged(Purged(b.bins[UNSORTED], q), Succ(b.ch, p));
            UnsortedIn(FreedBins(b, p)) == if BordersTop(b.ch, p) then rest else [q] + rest
  {
    hide MergeStart, PurgedBins, Succ, BordersTop, Listed, BinnedPart;
    var q, n := MergeStart(b.ch, p), Succ(b.ch, p);
    ListedLength(b);
    var bins := PurgedBins(b.bins, b.ch, q);
    if q in b.bins[UNSORTED] {
      OnUnsorted(b, q);
    }
    UnsortedPurged(b.bins, b.ch, q);
    PurgedLength(b.bins, b.ch, q);
    PurgedLength(bins, b.ch, n);
    if n in b.bins[UNSORTED] {
      OnUnsorted(b, n);
    } else {
      PurgedLess(b.bins[UNSORTED], q, n);
    }
    UnsortedPurged(bins, b.ch, n);
  }

  lemma ListedLength(b: Book)
    requires Listed(BinnedPart(b.ch), b.bins)
    ensures |b.bins| == NBINS
  {
  }

  /** The free chunk that ends at p is the one before p. */
  lemma StartIs(ch: Chunks, p: int)
    requires Tiled(ch) && p in ch
    ensures StartOf(FreeSizes(BinnedPart(ch)), p) == MergeStart(ch, p)
  {
    var free := FreeSizes(BinnedPart(ch));
    forall q | EndsAt(free, q, p)
      ensures PrevFree(ch, p) && q == ch[p].prev
    {
      assert q in BinnedPart(ch) && TileOk(ch, q);
    }
    if PrevFree(ch, p) {
      assert TileOk(ch, p) && TileOk(ch, ch[p].prev) && ch[p].prev in BinnedPart(ch);
      assert BinnedPart(ch)[ch[p].prev].size == ch[ch[p].prev].size && Succ(ch, ch[p].prev) == p;
      assert EndsAt(free, ch[p].prev, p);
    }
  }

  lemma TopKeys(ch: Chunks, t: int)
    requires TopIs(ch, t)
    ensures TopPart(ch).Keys == {t}
  {
    assert t in TopPart(ch);
  }

  lemma SizesFreed(ch: Chunks, p: int, t: int)
    requires Tiled(ch) && p in ch && TopIs(ch, t) && !EndsRegion(ch[p].kind)
    ensures var q, n, free := MergeStart(ch, p), Succ(ch, p), FreeSizes(BinnedPart(ch));
            && (BordersTop(ch, p) <==> n == t)
            && FreeSizes(FreedPart(ch, p)) ==
               if n == t then free - {q} - {n}
               else (free - {q} - {n})[q := (if n in free then n + free[n] else n) - q]
  {
    hide MergeStart, PrevFree;
    assert TileOk(ch, p);
    var q, n, bp := MergeStart(ch, p), Succ(ch, p), BinnedPart(ch);
    assert n in ch && (n in bp <==> ch[n].kind.Binned?);
    SizesLess(bp, q, n);
    if n != t {
      SizesMore(bp - {q} - {n}, q, MergeEnd(ch, p) - q);
    }
  }

  lemma SizesLess(bp: map<int, Entry>, q: int, n: int)
    ensures FreeSizes(bp - {q} - {n}) == FreeSizes(bp) - {q} - {n}
  {
  }

  lemma SizesMore(bp: map<int, Entry>, q: int, size: int)
    ensures FreeSizes(bp[q := Entry(size, UNSORTED)]) == FreeSizes(bp)[q := size]
  {
  }

  /** Freeing p does to the space what joining says. */
  lemma FreedIsJoined(m: Mem, fb: seq<int>, b: Book, p: int, t: int, b': Book, t': int)
    requires Inv(m, fb, b) && p in b.ch && b.ch[p].kind.Live? && TopIs(b.ch, t)
    requires BinnedPart(b'.ch) == FreedPart(b.ch, p) && b'.bins == FreedBins(b, p) && TopIs(b'.ch, t')
    requires t' == if BordersTop(b.ch, p) then MergeStart(b.ch, p) else t
    ensures SpaceOf(b') == Joined(SpaceOf(b), p, b.ch[p].size)
  {
    hide Inv, BinnedPart, FreedPart, FreedBins, TopIs, TopPart, MergeStart, BordersTop, Listed, Tiled, FreeSizes;
    ListedOf(m, fb, b);
    ListedLength(b);
    TopKeys(b.ch, t);
    TopKeys(b'.ch, t');
    StartIs(b.ch, p);
    SizesFreed(b.ch, p, t);
    UnsortedFreed(b, p);
    assert {t} - {t} + {t'} == {t'};
  }

  // ---------------------------------------------------------------- a fastbin

  /** The chunks of a chain are blocks of one size. */
  ghost predicate Sized(live: map<int, int>, chain: seq<int>, size: int) {
    forall q :: q in chain ==> q in live && live[q] == size
  }

  lemma SizedHead(ch: Chunks, chain: seq<int>, size: int)
    requires Sized(LivePart(ch), chain, size) && chain != []
    ensures chain[0] in ch && ch[chain[0]].size == size
  {
    SizedFirst(LivePart(ch), chain, size);
  }

  lemma SizedFirst(live: map<int, int>, chain: seq<int>, size: int)
    requires Sized(live, chain, size) && chain != []
    ensures chain[0] in live && live[chain[0]] == size
  {
    var q := chain[0];
    assert q in chain;
  }

  lemma SizedTail(live: map<int, int>, chain: seq<int>, size: int)
    requires Sized(live, chain, size) && NoDup(chain) && chain != []
    ensures Sized(live - {chain[0]}, chain[1..], size)
  {
    TailNoDup(chain);
  }

  lemma DetachedSpace(b: Book, b': Book, i: int, t: int)
    requires |b.fast| == NFASTBINS && 0 <= i < NFASTBINS && Detached(b, b', i) && TopIs(b.ch, t)
    ensures SpaceOf(b') == SpaceOf(b) && TopIs(b'.ch, t)
  {
    hide BinnedPart, DeadPart, TopPart, Starts, Holes, Total, LivePart, FastPart, TopIs, FreeSizes;
    TopKeys(b.ch, t);
    TopKeys(b'.ch, t);
  }

  /** The chunks of fastbin i have one size. */
  lemma DetachedSized(m: Mem, fb: seq<int>, b: Book, b': Book, i: int)
    requires Inv(m, fb, b) && |b.fast| == NFASTBINS && 0 <= i < NFASTBINS && Detached(b, b', i)
    ensures Sized(LivePart(b'.ch), b.fast[i], 8 * i + 16)
  {
    var fp := FastPart(b.ch);
    assert FastOk(fp, b.fast[i], i);
    forall q | q in b.fast[i]
      ensures q in LivePart(b'.ch) && LivePart(b'.ch)[q] == 8 * i + 16
    {
      assert q in fp && TileOk(b.ch, q);
    }
  }

  // ---------------------------------------------------------------- all fastbins

  lemma {:induction false} FastSuffix(s: Space, fast: seq<seq<int>>, fast': seq<seq<int>>, i: nat)
    requires |fast'| == |fast| && forall j :: i <= j < |fast| ==> fast'[j] == fast[j]
    ensures FastJoined(s, fast', i) == FastJoined(s, fast, i)
    decreases |fast| - i
  {
    if i < |fast| {
      FastSuffix(ChainJoined(s, fast[i], 8 * i + 16), fast, fast', i + 1);
    }
  }

  lemma {:induction false} FastNone(s: Space, fast: seq<seq<int>>, i: nat)
    requires forall j :: i <= j < |fast| ==> fast[j] == []
    ensures FastJoined(s, fast, i) == s
    decreases |fast| - i
  {
    if i < |fast| {
      FastNone(s, fast, i + 1);
    }
  }

  /** One fastbin has been consolidated. */
  lemma FastStep(s: Space, s': Space, fast: seq<seq<int>>, i: nat)
    requires i < |fast| && s' == ChainJoined(s, fast[i], 8 * i + 16)
    ensures FastJoined(s', fast[i := []], i + 1) == FastJoined(s, fast, i)
  {
    FastSuffix(s', fast, fast[i := []], i + 1);
  }

  lemma NoFastLists(m: Mem, fb: seq<int>, b: Book)
    requires Inv(m, fb, b) && forall p :: p !in FastPart(b.ch)
    ensures |b.fast| == NFASTBINS && forall j :: 0 <= j < |b.fast| ==> b.fast[j] == []
  {
    hide FastPart, FastOk;
    forall j | 0 <= j < |b.fast|
      ensures b.fast[j] == []
    {
      NoFastChain(FastPart(b.ch), b.fast[j], j);
    }
  }

  lemma NoFastChain(fp: map<int, int>, s: seq<int>, i: int)
    requires FastOk(fp, s, i) && forall p :: p !in fp
    ensures s == []
  {
    if s != [] {
      NoneInChain(fp, s, i, s[0]);
    }
  }

  lemma NoneInChain(fp: map<int, int>, s: seq<int>, i: int, p: int)
    requires FastOk(fp, s, i) && p in s
    ensures p in fp
  {
  }
}
