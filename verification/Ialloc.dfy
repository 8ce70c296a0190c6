/** independent_calloc and independent_comalloc: one aggregate chunk, partitioned into adjacent
    chunks that can be freed one by one. */
module Ialloc {
  import opened Memory
  import opened Ring
  import opened Heap
  import opened HeapSteps
  import opened TopSteps
  import opened Census
  import opened FreeSteps
  import opened Joining
  import opened AllocSteps
  import opened SystemSteps
  import opened Resize
  import opened Realloc
  import opened Arena
  import opened Calloc

  // ---------------------------------------------------------------- sizes and places of the pieces

  function SumTo(ks: seq<int>, i: nat): int
    requires i <= |ks|
  {
    if i == 0 then 0 else SumTo(ks, i - 1) + ks[i - 1]
  }

  /** Every piece has its padded size, but the last one, which takes all that is left. */
  function PieceSize(ks: seq<int>, total: int, i: nat): int
    requires i < |ks|
  {
    if i == |ks| - 1 then total - SumTo(ks, i) else ks[i]
  }

  ghost predicate PaddedAll(ks: seq<int>, total: int) {
    && |ks| > 0 && (forall i :: 0 <= i < |ks| ==> ks[i] % 8 == 0 && MINSIZE <= ks[i])
    && SumTo(ks, |ks|) <= total
  }

  lemma {:induction false} SumBounds(ks: seq<int>, total: int, i: nat)
    requires PaddedAll(ks, total) && i <= |ks|
    ensures 0 <= SumTo(ks, i) <= SumTo(ks, |ks|) - MINSIZE * (|ks| - i)
    decreases |ks| - i
  {
    if i < |ks| {
      SumBounds(ks, total, i + 1);
    }
    SumPositive(ks, total, i);
  }

  lemma {:induction false} SumPositive(ks: seq<int>, total: int, i: nat)
    requires PaddedAll(ks, total) && i <= |ks|
    ensures 0 <= SumTo(ks, i) && SumTo(ks, i) % 8 == 0
  {
    if i > 0 {
      SumPositive(ks, total, i - 1);
    }
  }

  /** The first k pieces of a chunk at p0, added to the blocks in use. */
  ghost function Pieces(live: map<int, int>, p0: int, total: int, ks: seq<int>, k: nat): map<int, int>
    requires k <= |ks|
  {
    if k == 0 then live else Pieces(live, p0, total, ks, k - 1)[p0 + SumTo(ks, k - 1) := PieceSize(ks, total, k - 1)]
  }

  /** The stores of the first k rounds: the pointer array (if it is in the heap, at arr), then the size word. */
  function Stored(m: Mem, p0: int, total: int, ks: seq<int>, arr: int, k: nat): Mem
    requires k <= |ks|
  {
    if k == 0 then m
    else
      var m1, p := Stored(m, p0, total, ks, arr, k - 1), p0 + SumTo(ks, k - 1);
      var m2 := if arr == 0 then m1 else m1[arr + 4 * (k - 1) := p + 8];
      m2[p + 4 := PieceSize(ks, total, k - 1) + PREV_INUSE]
  }

  // ---------------------------------------------------------------- steps

  /** p is the only open chunk; the chunks around it are in use and say so. */
  ghost predicate Carvable(m: Mem, b: Book, p: int, rem: int) {
    && p in b.ch && b.ch[p].kind.Hole? && b.ch[p].size == rem && Holes(b.ch) == {p}
    && !PrevFree(b.ch, p) && !PrevHole(b.ch, p) && Succ(b.ch, p) in b.ch && NextMarked(m, b.ch, p)
  }

  /** Everything but the blocks in use is as before. */
  ghost predicate Kept(b: Book, b': Book, t: int) {
    && FastPart(b'.ch) == FastPart(b.ch) && BinnedPart(b'.ch) == BinnedPart(b.ch) && Total(b'.ch) == Total(b.ch)
    && b'.bins == b.bins && (TopIs(b.ch, t) ==> TopIs(b'.ch, t))
  }

  lemma KeptTransitive(b0: Book, b1: Book, b2: Book, t: int)
    requires Kept(b0, b1, t) && Kept(b1, b2, t)
    ensures Kept(b0, b2, t)
  {
  }

  ghost function FrontBook(b: Book, p: int, k: int): Book
    requires p in b.ch && Succ(b.ch, p) in b.ch
  {
    CloseBook(b.(ch := SplitCh(b.ch, p, k)), p)
  }

  lemma FrontReady(m: Mem, fb: seq<int>, b: Book, p: int, rem: int, k: int)
    requires Inv(m, fb, b) && Carvable(m, b, p, rem) && k % 8 == 0 && MINSIZE <= k && k + MINSIZE <= rem
    ensures CanSplit(b.ch, p, k)
    ensures var m', ch1 := m[p + 4 := k + PREV_INUSE], SplitCh(b.ch, p, k);
            && p in ch1 && ch1[p].kind.Hole? && ch1[p].size == k && SameBut(m, m', TagWords(ch1, p))
               && !PrevHole(ch1, p)
            && Succ(ch1, p) in ch1 && NextMarked(m', ch1, p)
               && At(m', p + 4) == k + (if PrevFree(ch1, p) then 0 else PREV_INUSE)
    ensures var m', b' := m[p + 4 := k + PREV_INUSE], FrontBook(b, p, k);
            var r := p + k;
            && r in b'.ch && b'.ch[r].kind.Hole? && b'.ch[r].size == rem - k
            && !PrevFree(b'.ch, r) && !PrevHole(b'.ch, r) && Succ(b'.ch, r) in b'.ch && NextMarked(m', b'.ch, r)
  {
    SplitFacts(b.ch, p, k);
    assert TileOk(b.ch, p);
  }

  lemma FrontTotals(b: Book, p: int, k: int, t: int)
    requires Tiled(b.ch) && CanSplit(b.ch, p, k) && Holes(b.ch) == {p}
    ensures var b' := FrontBook(b, p, k); Kept(b, b', t) && Holes(b'.ch) == {p + k}
  {
    hide Tiled, SplitCh, Retag, LivePart, FastPart, BinnedPart, DeadPart, TopPart, Starts, Total, TopIs;
    FrontParts(b.ch, p, k, t);
    assert {p} + {p + k} - {p} == {p + k} by {
      assert k != 0;
    }
  }

  /** One round but the last: the first k bytes of the open chunk become a block. */
  lemma FrontStep(m: Mem, fb: seq<int>, b: Book, p: int, rem: int, k: int, t: int)
    requires Inv(m, fb, b) && Carvable(m, b, p, rem) && k % 8 == 0 && MINSIZE <= k && k + MINSIZE <= rem
    ensures var m', b' := m[p + 4 := k + PREV_INUSE], FrontBook(b, p, k);
            && Inv(m', fb, b') && Carvable(m', b', p + k, rem - k) && Kept(b, b', t)
            && LivePart(b'.ch) == LivePart(b.ch)[p := k] && SamePayload(m, m', LivePart(b.ch))
  {
    hide Inv, SplitCh, LivePart, NextMarked, PrevFree, PrevHole, SameBut, Holes, Kept, SamePayload, CanSplit;
    hide TagWords;
    var m' := m[p + 4 := k + PREV_INUSE];
    FrontReady(m, fb, b, p, rem, k);
    ListedOf(m, fb, b);
    FrontTotals(b, p, k, t);
    FirstHalfInv(m, m', fb, b, p, k);
  }

  /** The last round: what is left becomes a block. */
  lemma LastStep(m: Mem, fb: seq<int>, b: Book, p: int, rem: int, t: int)
    requires Inv(m, fb, b) && Carvable(m, b, p, rem)
    ensures var m', b' := m[p + 4 := rem + PREV_INUSE], CloseBook(b, p);
            && Inv(m', fb, b') && Holes(b'.ch) == {} && Kept(b, b', t)
            && LivePart(b'.ch) == LivePart(b.ch)[p := rem] && SamePayload(m, m', LivePart(b.ch))
  {
    var m' := m[p + 4 := rem + PREV_INUSE];
    assert TileOk(b.ch, p) && SameBut(m, m', TagWords(b.ch, p));
    RetagCensus(b.ch, p, Live);
    CloseCensus(b.ch, p);
    HolesPart(b.ch);
    HolesPart(CloseBook(b, p).ch);
    CloseInv(m, m', fb, b, p);
  }

  ghost function BackBook(b: Book, p: int, k: int): Book
    requires p in b.ch && Succ(b.ch, p) in b.ch && 0 < k
  {
    CloseBook(b.(ch := SplitCh(b.ch, p, k)), p + k)
  }

  lemma BackReady(m: Mem, fb: seq<int>, b: Book, p: int, rem: int, k: int)
    requires Inv(m, fb, b) && Carvable(m, b, p, rem) && k % 8 == 0 && MINSIZE <= k && k + MINSIZE <= rem
    ensures CanSplit(b.ch, p, k)
    ensures var m', ch1, r := m[p + k + 4 := rem - k + PREV_INUSE], SplitCh(b.ch, p, k), p + k;
            && r in ch1 && ch1[r].kind.Hole? && ch1[r].size == rem - k && SameBut(m, m', TagWords(ch1, r))
            && Succ(ch1, r) in ch1 && NextMarked(m', ch1, r)
               && At(m', r + 4) == ch1[r].size + if PrevFree(ch1, r) then 0 else PREV_INUSE
    ensures var m', b' := m[p + k + 4 := rem - k + PREV_INUSE], BackBook(b, p, k);
            && p in b'.ch && b'.ch[p].kind.Hole? && b'.ch[p].size == k
            && !PrevFree(b'.ch, p) && !PrevHole(b'.ch, p) && Succ(b'.ch, p) in b'.ch && NextMarked(m', b'.ch, p)
  {
    SplitFacts(b.ch, p, k);
    assert TileOk(b.ch, p);
  }

  lemma BackTotals(b: Book, p: int, k: int, t: int)
    requires Tiled(b.ch) && CanSplit(b.ch, p, k) && Holes(b.ch) == {p}
    ensures var b' := BackBook(b, p, k); Kept(b, b', t) && Holes(b'.ch) == {p}
  {
    hide Tiled, SplitCh, Retag, LivePart, FastPart, BinnedPart, DeadPart, TopPart, Starts, Total, TopIs;
    var ch1 := SplitCh(b.ch, p, k);
    SplitCensus(b.ch, p, k);
    SplitKinds(b.ch, p, k);
    SplitPieces(b.ch, p, k);
    if TopIs(b.ch, t) {
      SplitTop(b.ch, p, k, t);
    }
    RetagCensus(ch1, p + k, Live);
    CloseCensus(ch1, p + k);
    assert {p} + {p + k} - {p + k} == {p} by {
      assert k != 0;
    }
  }

  /** The pointer array is carved from the end of the aggregate. */
  lemma BackStep(m: Mem, fb: seq<int>, b: Book, p: int, rem: int, k: int, t: int)
    requires Inv(m, fb, b) && Carvable(m, b, p, rem) && k % 8 == 0 && MINSIZE <= k && k + MINSIZE <= rem
    ensures var m', b' := m[p + k + 4 := rem - k + PREV_INUSE], BackBook(b, p, k);
            && Inv(m', fb, b') && Carvable(m', b', p, k) && Kept(b, b', t)
            && LivePart(b'.ch) == LivePart(b.ch)[p + k := rem - k] && SamePayload(m, m', LivePart(b.ch))
            && p + k !in LivePart(b.ch)
  {
    hide Inv, SplitCh, CloseBook, LivePart, NextMarked, PrevFree, PrevHole, SameBut, TagWords, Kept, SamePayload;
    var m', b1 := m[p + k + 4 := rem - k + PREV_INUSE], b.(ch := SplitCh(b.ch, p, k));
    BackReady(m, fb, b, p, rem, k);
    ListedOf(m, fb, b);
    BackTotals(b, p, k, t);
    SplitInv(m, fb, b, p, k);
    SplitParts(b.ch, p, k);
    CloseInv(m, m', fb, b1, p + k);
    SplitFacts(b.ch, p, k);
    NotInUse(b.ch, p + k);
  }

  lemma NotInUse(ch: Chunks, r: int)
    requires r !in ch
    ensures r !in LivePart(ch)
  {
  }

  /** A store into the pointer array, which is the block q right behind the open chunk. */
  lemma ArrayStep(m: Mem, fb: seq<int>, b: Book, p: int, rem: int, q: int, a: int, v: int)
    requires Inv(m, fb, b) && Carvable(m, b, p, rem) && q in b.ch && b.ch[q].kind.Live? && p + rem == q
    requires q + 8 <= a < q + b.ch[q].size + 4
    ensures Inv(m[a := v], fb, b) && Carvable(m[a := v], b, p, rem) && SamePayload(m, m[a := v], LivePart(b.ch) - {q})
  {
    assert OwnStores(m, m[a := v], q, b.ch[q].size);
    OwnStoresInv(m, m[a := v], fb, b, q);
  }

  /** Where the pointer array is, if it is part of the aggregate: right behind the pieces. */
  ghost predicate ArrayOk(live: map<int, int>, arr: int, q: int, n: int) {
    arr == 0 || (q in live && arr == q + 8 && 4 * n + 4 <= live[q])
  }

  ghost function Others(live: map<int, int>, arr: int, q: int): map<int, int> {
    if arr == 0 then live else live - {q}
  }

  ghost predicate PointerAt(m: Mem, arr: int, p0: int, ks: seq<int>, j: int) {
    0 <= j <= |ks| && At(m, arr + 4 * j) == p0 + SumTo(ks, j) + 8
  }

  ghost predicate PointersAt(m: Mem, arr: int, p0: int, ks: seq<int>, k: int) {
    arr == 0 || forall j {:trigger PointerAt(m, arr, p0, ks, j)} :: 0 <= j < k ==> PointerAt(m, arr, p0, ks, j)
  }

  lemma RoundFirst(m: Mem, fb: seq<int>, b: Book, p: int, rem: int, q: int, arr: int, n: int, i: nat)
    requires Inv(m, fb, b) && Carvable(m, b, p, rem) && ArrayOk(LivePart(b.ch), arr, q, n) && i < n
      && (arr != 0 ==> p + rem == q)
    ensures var m' := if arr == 0 then m else m[arr + 4 * i := p + 8];
            && Inv(m', fb, b) && Carvable(m', b, p, rem) && SamePayload(m, m', Others(LivePart(b.ch), arr, q))
  {
    if arr == 0 {
      PayloadOfSame(m, LivePart(b.ch));
    } else {
      ArrayStep(m, fb, b, p, rem, q, arr + 4 * i, p + 8);
    }
  }

  lemma PointersKept(m: Mem, m1: Mem, m2: Mem, live: map<int, int>, arr: int, q: int, n: int, p0: int, ks: seq<int>,
      i: nat)
    requires ArrayOk(live, arr, q, n) && i < n && i <= |ks| && PointersAt(m, arr, p0, ks, i)
      && SamePayload(m1, m2, live)
    requires m1 == if arr == 0 then m else m[arr + 4 * i := p0 + SumTo(ks, i) + 8]
    ensures PointersAt(m2, arr, p0, ks, i + 1)
  {
    if arr != 0 {
      forall j | 0 <= j < i + 1
        ensures PointerAt(m2, arr, p0, ks, j)
      {
        assert j < i ==> PointerAt(m, arr, p0, ks, j);
        assert q in live;
        assert At(m2, arr + 4 * j) == At(m1, arr + 4 * j);
      }
    }
  }

  lemma ArrayStays(live: map<int, int>, arr: int, q: int, n: int, p: int, size: int)
    requires ArrayOk(live, arr, q, n) && (arr != 0 ==> p != q)
    ensures ArrayOk(live[p := size], arr, q, n)
  {
  }

  lemma PayloadSteps(m0: Mem, m1: Mem, m2: Mem, m3: Mem, live0: map<int, int>, live: map<int, int>, arr: int, q: int)
    requires SamePayload(m0, m1, Others(live0, arr, q)) && SamePayload(m1, m2, Others(live, arr, q))
      && SamePayload(m2, m3, live)
    requires forall x :: x in live0 ==> x in live && live[x] == live0[x]
    ensures SamePayload(m0, m3, Others(live0, arr, q))
  {
    SamePayloadTransitive(m0, m1, m2, Others(live0, arr, q), Others(live, arr, q));
    SamePayloadTransitive(m0, m2, m3, Others(live0, arr, q), live);
  }

  lemma NothingStored(m: Mem, p0: int, total: int, ks: seq<int>, arr: int)
    ensures Stored(m, p0, total, ks, arr, 0) == m && SumTo(ks, 0) == 0
  {
  }

  lemma NextStored(m: Mem, p0: int, total: int, ks: seq<int>, arr: int, k: nat)
    requires k < |ks|
    ensures SumTo(ks, k + 1) == SumTo(ks, k) + ks[k]
    ensures var m1, p := Stored(m, p0, total, ks, arr, k), p0 + SumTo(ks, k);
            var m2 := if arr == 0 then m1 else m1[arr + 4 * k := p + 8];
            Stored(m, p0, total, ks, arr, k + 1) ==
              m2[p + 4 := (if k == |ks| - 1 then total - SumTo(ks, k) else ks[k]) + PREV_INUSE]
  {
  }

  lemma NextPiece(live: map<int, int>, p0: int, total: int, ks: seq<int>, k: nat)
    requires PaddedAll(ks, total) && k < |ks|
    ensures PieceSize(ks, total, k) == if k == |ks| - 1 then total - SumTo(ks, k) else ks[k]
    ensures Pieces(live, p0, total, ks, k + 1) ==
      Pieces(live, p0, total, ks, k)[p0 + SumTo(ks, k) := PieceSize(ks, total, k)]
    ensures ks[k] % 8 == 0 && MINSIZE <= ks[k] && (k + 1 < |ks| ==> SumTo(ks, k) + ks[k] + MINSIZE <= total)
  {
    SumBounds(ks, total, k + 1);
    SumBounds(ks, total, k);
  }

  /** After k rounds the heap is again in order, but for the rest still to be partitioned. */
  lemma {:induction false} Partition(m: Mem, fb: seq<int>, b: Book, p0: int, total: int, ks: seq<int>, arr: int,
      q: int, t: int, k: nat) returns (bk: Book)
    requires Inv(m, fb, b) && Carvable(m, b, p0, total) && PaddedAll(ks, total) && k <= |ks|
    requires ArrayOk(LivePart(b.ch), arr, q, |ks|) && (arr != 0 ==> p0 + total == q)
    ensures var mk, live := Stored(m, p0, total, ks, arr, k), LivePart(b.ch);
            && Inv(mk, fb, bk) && Kept(b, bk, t) && LivePart(bk.ch) == Pieces(live, p0, total, ks, k)
            && SamePayload(m, mk, Others(live, arr, q)) && PointersAt(mk, arr, p0, ks, k)
            && ArrayOk(LivePart(bk.ch), arr, q, |ks|)
            && (forall x :: x in live ==> x in LivePart(bk.ch) && LivePart(bk.ch)[x] == live[x])
            && (if k < |ks| then Carvable(mk, bk, p0 + SumTo(ks, k), total - SumTo(ks, k)) else Holes(bk.ch) == {})
    decreases k
  {
    hide Inv, Carvable, LivePart, Kept, SamePayload, Holes, ArrayOk, Others, PointersAt, FrontBook, CloseBook, SumTo;
    hide Stored, Pieces, PieceSize;
    var live := LivePart(b.ch);
    if k == 0 {
      bk := b;
      PartitionStart(m, b, arr, q, t, p0, total, ks);
    } else {
      var b1 := Partition(m, fb, b, p0, total, ks, arr, q, t, k - 1);
      var m1, p, rem := Stored(m, p0, total, ks, arr, k - 1), p0 + SumTo(ks, k - 1), total - SumTo(ks, k - 1);
      var live1 := LivePart(b1.ch);
      NextStored(m, p0, total, ks, arr, k - 1);
      NextPiece(live, p0, total, ks, k - 1);
      RoundFirst(m1, fb, b1, p, rem, q, arr, |ks|, k - 1);
      var m2 := if arr == 0 then m1 else m1[arr + 4 * (k - 1) := p + 8];
      var m3 := Stored(m, p0, total, ks, arr, k);
      CarvableNew(fb, m2, b1, p, rem);
      if k < |ks| {
        FrontStep(m2, fb, b1, p, rem, ks[k - 1], t);
        bk := FrontBook(b1, p, ks[k - 1]);
      } else {
        LastStep(m2, fb, b1, p, rem, t);
        bk := CloseBook(b1, p);
      }
      KeptTransitive(b, b1, bk, t);
      PointersKept(m1, m2, m3, live1, arr, q, |ks|, p0, ks, k - 1);
      ArrayStays(live1, arr, q, |ks|, p, PieceSize(ks, total, k - 1));
      PayloadSteps(m, m1, m2, m3, live, live1, arr, q);
    }
  }

  lemma PartitionStart(m: Mem, b: Book, arr: int, q: int, t: int, p0: int, total: int, ks: seq<int>)
    ensures Kept(b, b, t) && SamePayload(m, m, Others(LivePart(b.ch), arr, q)) && PointersAt(m, arr, p0, ks, 0)
    ensures Pieces(LivePart(b.ch), p0, total, ks, 0) == LivePart(b.ch) && Stored(m, p0, total, ks, arr, 0) == m
      && SumTo(ks, 0) == 0
  {
  }

  lemma CarvableNew(fb: seq<int>, m: Mem, b: Book, p: int, rem: int)
    requires Inv(m, fb, b) && Carvable(m, b, p, rem)
    ensures p !in LivePart(b.ch) && p in b.ch && Succ(b.ch, p) in b.ch
  {
  }

  // ---------------------------------------------------------------- what the pieces are

  /** Piece i of the partition is a block of its own size, right behind piece i - 1. */
  ghost predicate PieceIn(live: map<int, int>, p0: int, total: int, ks: seq<int>, i: int) {
    0 <= i < |ks| && p0 + SumTo(ks, i) in live && live[p0 + SumTo(ks, i)] == PieceSize(ks, total, i)
  }

  lemma {:induction false} PiecesAre(live: map<int, int>, p0: int, total: int, ks: seq<int>, k: nat)
    requires PaddedAll(ks, total) && k <= |ks|
    ensures var ps := Pieces(live, p0, total, ks, k);
            && (forall i {:trigger PieceIn(ps, p0, total, ks, i)} :: 0 <= i < k ==> PieceIn(ps, p0, total, ks, i))
            && (forall x :: x in live && !(p0 <= x < p0 + total) ==> x in ps && ps[x] == live[x])
            && (forall x :: x in ps && !(p0 <= x < p0 + total) ==> x in live)
  {
    if k > 0 {
      PiecesAre(live, p0, total, ks, k - 1);
      SumBounds(ks, total, k - 1);
      var ps0, ps := Pieces(live, p0, total, ks, k - 1), Pieces(live, p0, total, ks, k);
      forall i | 0 <= i < k
        ensures PieceIn(ps, p0, total, ks, i)
      {
        if i < k - 1 {
          SumGrows(ks, total, i, k - 1);
          assert PieceIn(Pieces(live, p0, total, ks, k - 1), p0, total, ks, i);
          PieceStays(ps0, p0, total, ks, i, p0 + SumTo(ks, k - 1), PieceSize(ks, total, k - 1));
        }
      }
    }
  }

  /** A block of the first k pieces is an old one, or starts before the rest of the aggregate. */
  lemma {:induction false} PiecesBelow(live: map<int, int>, p0: int, total: int, ks: seq<int>, k: nat)
    requires PaddedAll(ks, total) && k <= |ks|
    ensures forall x :: x in Pieces(live, p0, total, ks, k) ==> x in live || x < p0 + SumTo(ks, k)
  {
    if k > 0 {
      PiecesBelow(live, p0, total, ks, k - 1);
      SumGrows(ks, total, k - 1, k);
    }
  }

  lemma PieceStays(live: map<int, int>, p0: int, total: int, ks: seq<int>, i: int, x: int, size: int)
    requires PieceIn(live, p0, total, ks, i) && p0 + SumTo(ks, i) != x
    ensures PieceIn(live[x := size], p0, total, ks, i)
  {
  }

  lemma {:induction false} SumGrows(ks: seq<int>, total: int, i: nat, j: nat)
    requires PaddedAll(ks, total) && i < j <= |ks|
    ensures SumTo(ks, i) < SumTo(ks, j)
  {
    if i < j - 1 {
      SumGrows(ks, total, i, j - 1);
    }
  }

  /** The pieces fill the aggregate: each ends where the next begins, and the last ends at its end. */
  lemma PiecesFill(p0: int, total: int, ks: seq<int>, i: nat)
    requires PaddedAll(ks, total) && i < |ks|
    ensures SumTo(ks, i) + PieceSize(ks, total, i) == if i == |ks| - 1 then total else SumTo(ks, i + 1)
    ensures PieceSize(ks, total, i) >= ks[i]
  {
  }

  // ---------------------------------------------------------------- the operation

  /** The padded sizes of the n elements. */
  function PaddedSizes(n: nat, sizes: seq<int>, same: bool): seq<int>
    requires if same then n > 0 ==> |sizes| > 0 else |sizes| >= n
  {
    seq(n, i requires 0 <= i < n => Request2Size(if same then sizes[0] else sizes[i]))
  }

  /** request2size in words of 32 bits. */
  function RequestWord(req: int): int {
    var padded := (req + SIZE_SZ + MALLOC_ALIGN_MASK) % ADDRESS_LIMIT;
    if padded < MINSIZE then MINSIZE else padded - padded % 8
  }

  /** The padded sizes as the code computes them. */
  function WordSizes(n: nat, sizes: seq<int>, same: bool): seq<int>
    requires if same then n > 0 ==> |sizes| > 0 else |sizes| >= n
  {
    seq(n, i requires 0 <= i < n => RequestWord(if same then sizes[0] else sizes[i]))
  }

  predicate SizesOk(n: int, sizes: seq<int>, same: bool) {
    0 < n < ADDRESS_LIMIT && (if same then |sizes| > 0 else |sizes| >= n)
      && forall x :: x in sizes ==> 0 <= x < ADDRESS_LIMIT
  }

  /** The bytes that the elements and the pointer array need. */
  function Needed(n: int, sizes: seq<int>, same: bool, supplied: bool): int
    requires SizesOk(n, sizes, same)
  {
    SumTo(PaddedSizes(n, sizes, same), n) + if supplied then 0 else Request2Size(4 * n)
  }

  /** The bytes that the code asks for, before it takes off the alignment bytes. */
  function Asked(n: int, sizes: seq<int>, same: bool, supplied: bool): int
    requires SizesOk(n, sizes, same)
  {
    (SumTo(WordSizes(n, sizes, same), n) % ADDRESS_LIMIT
      + if supplied then 0 else RequestWord(4 * n % ADDRESS_LIMIT)) % ADDRESS_LIMIT
  }

  lemma WordOf(req: int)
    requires 0 <= req && Request2Size(req) < ADDRESS_LIMIT
    ensures RequestWord(req) == Request2Size(req) && req < ADDRESS_LIMIT
  {
    var x := req + SIZE_SZ + MALLOC_ALIGN_MASK;
    assert x - x % 8 < ADDRESS_LIMIT ==> x < ADDRESS_LIMIT;
  }

  lemma {:induction false} PartOfSum(ks: seq<int>, i: nat, j: nat)
    requires i < j <= |ks| && forall x :: x in ks ==> 0 <= x
    ensures 0 <= ks[i] <= SumTo(ks, j) && 0 <= SumTo(ks, j - 1)
  {
    assert ks[j - 1] in ks;
    if i < j - 1 {
      PartOfSum(ks, i, j - 1);
    } else {
      NoneNegative(ks, i);
    }
  }

  lemma {:induction false} NoneNegative(ks: seq<int>, j: nat)
    requires j <= |ks| && forall x :: x in ks ==> 0 <= x
    ensures 0 <= SumTo(ks, j)
  {
    if j > 0 {
      NoneNegative(ks, j - 1);
      assert ks[j - 1] in ks;
    }
  }

  lemma PaddedPositive(n: int, sizes: seq<int>, same: bool)
    requires SizesOk(n, sizes, same)
    ensures forall x :: x in PaddedSizes(n, sizes, same) ==> MINSIZE <= x
  {
    var ks := PaddedSizes(n, sizes, same);
    forall i | 0 <= i < n
      ensures MINSIZE <= ks[i]
    {
      assert (if same then sizes[0] else sizes[i]) in sizes;
    }
  }

  /** The code asks for what is needed if and only if that is less than the address space. Then no step of the
      sum has wrapped around. */
  lemma AskedIsNeeded(n: int, sizes: seq<int>, same: bool, supplied: bool)
    requires SizesOk(n, sizes, same)
    ensures Needed(n, sizes, same, supplied) <= Asked(n, sizes, same, supplied)
      <==> Needed(n, sizes, same, supplied) < ADDRESS_LIMIT
    ensures Needed(n, sizes, same, supplied) < ADDRESS_LIMIT ==>
              && WordSizes(n, sizes, same) == PaddedSizes(n, sizes, same)
              && SumTo(PaddedSizes(n, sizes, same), n) % ADDRESS_LIMIT == SumTo(PaddedSizes(n, sizes, same), n)
              && (supplied || RequestWord(4 * n % ADDRESS_LIMIT) == Request2Size(4 * n))
              && Needed(n, sizes, same, supplied) == Asked(n, sizes, same, supplied)
    ensures 0 <= Asked(n, sizes, same, supplied) < ADDRESS_LIMIT
  {
    hide SumTo, Request2Size, RequestWord, PaddedSizes, WordSizes;
    var ks := PaddedSizes(n, sizes, same);
    PaddedPositive(n, sizes, same);
    PaddedLength(n, sizes, same);
    NoneNegative(ks, n);
    ArraySize(n);
    if Needed(n, sizes, same, supplied) < ADDRESS_LIMIT {
      WordsAre(n, sizes, same);
      if !supplied {
        WordOf(4 * n);
        NoWrap(4 * n, 0);
      }
      NoWrap(SumTo(ks, n), if supplied then 0 else Request2Size(4 * n));
    }
  }

  lemma NoWrap(x: int, y: int)
    requires 0 <= x && 0 <= y && x + y < ADDRESS_LIMIT
    ensures x % ADDRESS_LIMIT == x && (x % ADDRESS_LIMIT + y) % ADDRESS_LIMIT == x + y
  {
  }

  lemma WordsAre(n: int, sizes: seq<int>, same: bool)
    requires SizesOk(n, sizes, same) && SumTo(PaddedSizes(n, sizes, same), n) < ADDRESS_LIMIT
    ensures WordSizes(n, sizes, same) == PaddedSizes(n, sizes, same)
  {
    hide SumTo, Request2Size, RequestWord;
    var ks := PaddedSizes(n, sizes, same);
    PaddedPositive(n, sizes, same);
    forall i: nat | i < n
      ensures WordSizes(n, sizes, same)[i] == ks[i]
    {
      PartOfSum(ks, i, n);
      var x := if same then sizes[0] else sizes[i];
      assert x in sizes;
      WordOf(x);
    }
  }

  /** Two elements of 2 GB each: the program asks malloc for a chunk of 16 bytes. */
  lemma WrappingSizes()
    ensures SizesOk(2, [0x8000_0000], true) && Needed(2, [0x8000_0000], true, true) == ADDRESS_LIMIT + 16
    ensures Asked(2, [0x8000_0000], true, true) == 16
  {
    SumSame(PaddedSizes(2, [0x8000_0000], true), 2, 0x8000_0008);
    SumSame(WordSizes(2, [0x8000_0000], true), 2, 0x8000_0008);
  }

  lemma ModAdd(x: int, y: int)
    ensures (x % ADDRESS_LIMIT + y) % ADDRESS_LIMIT == (x + y) % ADDRESS_LIMIT
  {
  }

  /** The total size of the elements in words: a product if all are the same size, a loop otherwise. */
  method ContentsSize(n: nat, sizes: seq<int>, same: bool) returns (contents: int)
    requires n > 0 && if same then |sizes| > 0 else |sizes| >= n
    ensures contents == SumTo(WordSizes(n, sizes, same), n) % ADDRESS_LIMIT
  {
    hide RequestWord;
    ghost var ks := WordSizes(n, sizes, same);
    if same {
      contents := (n * RequestWord(sizes[0])) % ADDRESS_LIMIT;
      SumSame(ks, n, RequestWord(sizes[0]));
    } else {
      contents := 0;
      for i := 0 to n
        invariant contents == SumTo(ks, i) % ADDRESS_LIMIT
      {
        ModAdd(SumTo(ks, i), RequestWord(sizes[i]));
        contents := (contents + RequestWord(sizes[i])) % ADDRESS_LIMIT;
      }
    }
  }

  lemma {:induction false} SumSame(ks: seq<int>, i: nat, e: int)
    requires i <= |ks| && forall j :: 0 <= j < i ==> ks[j] == e
    ensures SumTo(ks, i) == i * e
  {
    if i > 0 {
      SumSame(ks, i - 1, e);
    }
  }

  lemma PaddedOk(n: nat, sizes: seq<int>, same: bool, total: int)
    requires n > 0 && if same then |sizes| > 0 else |sizes| >= n
    requires (forall x :: x in sizes ==> 0 <= x) && SumTo(PaddedSizes(n, sizes, same), n) <= total
    ensures PaddedAll(PaddedSizes(n, sizes, same), total)
  {
    var ks := PaddedSizes(n, sizes, same);
    forall i | 0 <= i < n
      ensures ks[i] % 8 == 0 && MINSIZE <= ks[i]
    {
      var x := if same then sizes[0] else sizes[i];
      assert x in sizes;
    }
  }

  /** Split out the elements of the aggregate, in place. */
  method SplitOut(m0: Mem, p0: int, total: int, ks: seq<int>, arr: int) returns (m: Mem, ptrs: seq<int>)
    requires |ks| > 0
    ensures m == Stored(m0, p0, total, ks, arr, |ks|)
    ensures |ptrs| == |ks| && forall i :: 0 <= i < |ks| ==> ptrs[i] == p0 + SumTo(ks, i) + 8
  {
    hide SumTo, Stored;
    NothingStored(m0, p0, total, ks, arr);
    m, ptrs := m0, [];
    var p, remainderSize := p0, total;
    var i: nat := 0;
    while true
      invariant i < |ks| && p == p0 + SumTo(ks, i) && remainderSize == total - SumTo(ks, i)
      invariant m == Stored(m0, p0, total, ks, arr, i)
      invariant |ptrs| == i && forall j :: 0 <= j < i ==> ptrs[j] == p0 + SumTo(ks, j) + 8
      decreases |ks| - i
    {
      NextStored(m0, p0, total, ks, arr, i);
      if arr != 0 {
        m := m[arr + 4 * i := p + 8];
      }
      ptrs := ptrs + [p + 8];
      if i != |ks| - 1 {
        var size := ks[i];
        remainderSize := remainderSize - size;
        m := m[p + 4 := size + PREV_INUSE];
        p := p + size;
      } else {
        m := m[p + 4 := remainderSize + PREV_INUSE];
        break;
      }
      i := i + 1;
    }
  }

  lemma OpenCarvable(m: Mem, fb: seq<int>, b: Book, p: int)
    requires Inv(m, fb, b) && p in b.ch && b.ch[p].kind.Live? && Holes(b.ch) == {} && !PrevFree(b.ch, p)
    ensures Carvable(m, OpenBook(b, p), p, b.ch[p].size) && 0 < p
  {
    AfterLive(m, fb, b, p);
    NoHoleBefore(b, p);
    NoHoleAfter(b, Succ(b.ch, p));
    assert TileOk(b.ch, p);
    OpenCensus(b.ch, p);
    HolesPart(b.ch);
    HolesPart(OpenBook(b, p).ch);
    assert {} + {p} == {p};
  }

  lemma OpenKept(b: Book, p: int, t: int)
    requires p in b.ch && b.ch[p].kind.Live?
    ensures Kept(b, OpenBook(b, p), t) && LivePart(OpenBook(b, p).ch) == LivePart(b.ch) - {p}
  {
    RetagCensus(b.ch, p, Hole);
    OpenCensus(b.ch, p);
    HolesPart(b.ch);
    HolesPart(OpenBook(b, p).ch);
  }

  /** The aggregate's in-use bit is set: the whole call keeps the heap in order. rest is the size of the
      pointer array behind the pieces, or 0 if the caller supplied the array. */
  lemma Independent(m: Mem, fb: seq<int>, b: Book, p: int, total: int, rest: int, ks: seq<int>, t: int)
      returns (bk: Book)
    requires Inv(m, fb, b) && p in b.ch && b.ch[p].kind.Live? && b.ch[p].size == total + rest && Holes(b.ch) == {}
      && !PrevFree(b.ch, p)
    requires PaddedAll(ks, total) && total % 8 == 0 && (rest == 0 || (MINSIZE <= rest && 4 * |ks| + 4 <= rest))
    ensures var live0 := LivePart(b.ch) - {p};
            var arr := if rest == 0 then 0 else p + total + 8;
            var m1 := if rest == 0 then m else m[p + total + 4 := rest + PREV_INUSE];
            var m' := Stored(m1, p, total, ks, arr, |ks|);
            var live1 := if rest == 0 then live0 else live0[p + total := rest];
            && Inv(m', fb, bk) && Kept(b, bk, t) && Holes(bk.ch) == {}
            && LivePart(bk.ch) == Pieces(live1, p, total, ks, |ks|)
            && SamePayload(m, m', live0) && PointersAt(m', arr, p, ks, |ks|)
  {
    hide SumTo, Stored, Pieces, PaddedAll, ArrayOk, Others, Inv, Carvable, LivePart, Kept, SamePayload, Holes;
    hide PrevFree, BackBook, PointersAt, OpenBook;
    var live0, b1, q := LivePart(b.ch) - {p}, OpenBook(b, p), p + total;
    OpenInv(m, fb, b, p);
    OpenCarvable(m, fb, b, p);
    OpenKept(b, p, t);
    PaddedTotal(ks, total);
    if rest == 0 {
      NoArray(live0, q, |ks|);
      bk := Partition(m, fb, b1, p, total, ks, 0, q, t, |ks|);
      KeptTransitive(b, b1, bk, t);
    } else {
      var m1, b2 := m[q + 4 := rest + PREV_INUSE], BackBookOf(b1, p, total);
      BackStep(m, fb, b1, p, total + rest, total, t);
      ArrayBehind(live0, q, rest, |ks|);
      bk := Partition(m1, fb, b2, p, total, ks, q + 8, q, t, |ks|);
      KeptTransitive(b, b1, b2, t);
      KeptTransitive(b, b2, bk, t);
      KeepPayload(m, m1, Stored(m1, p, total, ks, q + 8, |ks|), live0);
    }
  }

  lemma PaddedTotal(ks: seq<int>, total: int)
    requires PaddedAll(ks, total)
    ensures MINSIZE <= total && |ks| > 0
  {
    SumBounds(ks, total, 0);
  }

  lemma NoArray(live: map<int, int>, q: int, n: int)
    ensures ArrayOk(live, 0, q, n) && Others(live, 0, q) == live
  {
  }

  lemma ArrayBehind(live: map<int, int>, q: int, rest: int, n: int)
    requires 4 * n + 4 <= rest && q !in live && q > 0
    ensures ArrayOk(live[q := rest], q + 8, q, n) && Others(live[q := rest], q + 8, q) == live
  {
  }

  ghost function BackBookOf(b: Book, p: int, k: int): Book {
    if p in b.ch && Succ(b.ch, p) in b.ch && 0 < k then BackBook(b, p, k) else b
  }

  lemma {:induction false} StoredHead(m: Mem, p0: int, total: int, ks: seq<int>, arr: int, k: nat)
    requires PaddedAll(ks, total) && 0 < k <= |ks| && (arr == 0 || p0 + 8 <= arr)
    ensures var mk := Stored(m, p0, total, ks, arr, k);
      p0 + 4 in mk && At(mk, p0 + 4) == PieceSize(ks, total, 0) + PREV_INUSE
  {
    if k > 1 {
      StoredHead(m, p0, total, ks, arr, k - 1);
      SumGrows(ks, total, 0, k - 1);
    }
  }

  /** The words of memory are those of no heap: there is no catalogue, whatever its chunks and lists, of which
      they keep the invariant. */
  ghost predicate NoHeap(m: Mem) {
    forall fb, b: Book {:trigger Inv(m, fb, b)} :: Holes(b.ch) == {} ==> !Inv(m, fb, b)
  }

  /** q is on the list of bin i, and its size word says size. */
  ghost predicate OnList(m: Mem, i: int, s: seq<int>, q: int, size: int) {
    && 1 <= i < NBINS && RingOk(m, s, i) && BinAt(i) !in s && q in s
    && size % 8 == 0 && (At(m, q + 4) == size || At(m, q + 4) == size + PREV_INUSE)
  }

  lemma ListOf(m: Mem, fb: seq<int>, b: Book, i: int)
    requires Inv(m, fb, b) && 1 <= i < NBINS
    ensures |b.bins| == NBINS && RingOk(m, b.bins[i], i) && BinAt(i) !in b.bins[i]
    ensures forall q :: q in b.bins[i] ==> q in b.ch && b.ch[q].kind == Binned(i)
  {
    var s := b.bins[i];
    assert BinOk(BinnedPart(b.ch), s, i) && RingOk(m, s, i);
    forall q | q in s
      ensures q in b.ch && b.ch[q].kind == Binned(i) && q != BinAt(i)
    {
      assert q in BinnedPart(b.ch) && TileOk(b.ch, q);
    }
  }

  /** A chunk that is on the list of a bin, as memory has it, and whose next chunk is marked as behind a used one:
      in every catalogue the chunk is free and has that size, so the mark is wrong. */
  lemma DeniedChunk(m: Mem, fb: seq<int>, b: Book, i: int, s: seq<int>, q: int, size: int)
    requires OnList(m, i, s, q, size) && At(m, q + size + 4) % 2 == PREV_INUSE && Holes(b.ch) == {}
    ensures !Inv(m, fb, b)
  {
    hide Tiled, Tagged, Listed, FastListed, Chains, BinnedPart, FastPart;
    if Inv(m, fb, b) {
      ListOf(m, fb, b, i);
      RingUnique(m, BinAt(i), s, b.bins[i]);
      FreeNext(m, fb, b, q);
    }
  }

  /** Where a free chunk ends, the next one says so. */
  lemma FreeNext(m: Mem, fb: seq<int>, b: Book, q: int)
    requires Inv(m, fb, b) && Holes(b.ch) == {} && q in b.ch && b.ch[q].kind.Binned?
    ensures var size := b.ch[q].size;
            && size % 8 == 0 && (At(m, q + 4) == size || At(m, q + 4) == size + PREV_INUSE)
            && At(m, q + size + 4) % 2 == 0
  {
    hide BinnedPart, FastPart, Listed, Rings, FastListed, Chains;
    var n := Succ(b.ch, q);
    assert TileOk(b.ch, q) && TagOk(m, b.ch, q) && TileOk(b.ch, n) && TagOk(m, b.ch, n);
    NoHoleAfter(b, n);
    NoHoleBefore(b, q);
    FlagBit(HeadSize(b.ch[n]));
  }

  lemma DeniedEverywhere(m: Mem, i: int, s: seq<int>, q: int, size: int)
    requires OnList(m, i, s, q, size) && At(m, q + size + 4) % 2 == PREV_INUSE
    ensures NoHeap(m)
  {
    forall fb, b: Book | Holes(b.ch) == {}
      ensures !Inv(m, fb, b)
    {
      DeniedChunk(m, fb, b, i, s, q, size);
    }
  }

  /** m' differs from m only inside the chunk p of this size. */
  ghost predicate Inside(m: Mem, m': Mem, p: int, size: int) {
    forall a :: !(p + 4 <= a < p + size + 4) ==> At(m', a) == At(m, a)
  }

  /** Stores inside a block leave the list of every bin, and the size words in front of it, as they are. */
  lemma ListKept(m: Mem, m': Mem, fb: seq<int>, b: Book, p: int, i: int)
    requires Inv(m, fb, b) && p in b.ch && !b.ch[p].kind.Binned? && Inside(m, m', p, b.ch[p].size) && 1 <= i < NBINS
    ensures |b.bins| == NBINS && RingOk(m', b.bins[i], i)
  {
    ListOf(m, fb, b, i);
    var s := b.bins[i];
    assert TileOk(b.ch, p);
    forall k | 0 <= k < |s|
      ensures Fd(m', s[k]) == Fd(m, s[k]) && Bk(m', s[k]) == Bk(m, s[k])
    {
      assert s[k] in s;
      LinksOutside(b.ch, p, s[k]);
    }
    FrameRing(m, m', BinAt(i), s);
  }

  lemma LinksOutside(ch: Chunks, p: int, x: int)
    requires Tiled(ch) && p in ch && x in ch && ch[x].kind.Binned? && x != p
    ensures x + 16 <= p || p + ch[p].size <= x
  {
    assert TileOk(ch, p) && TileOk(ch, x);
    assert x < p ==> Before(ch, x, p);
    assert p < x ==> Before(ch, p, x);
  }

  /** If the chunk before a block is free, stores inside the block that set its PREV_INUSE bit leave no heap. */
  lemma BrokenTags(m: Mem, m': Mem, fb: seq<int>, b: Book, p: int)
    requires Inv(m, fb, b) && Holes(b.ch) == {} && p in b.ch && b.ch[p].kind.Live? && PrevFree(b.ch, p)
    requires Inside(m, m', p, b.ch[p].size) && At(m', p + 4) % 2 == PREV_INUSE
    ensures NoHeap(m')
  {
    hide Inv, Holes, NoHeap;
    var q := b.ch[p].prev;
    var i := FreeBefore(m, fb, b, p);
    FreeNext(m, fb, b, q);
    ListOf(m, fb, b, i);
    ListKept(m, m', fb, b, p, i);
    DeniedEverywhere(m', i, b.bins[i], q, b.ch[q].size);
  }

  lemma FreeBefore(m: Mem, fb: seq<int>, b: Book, p: int) returns (i: int)
    requires Inv(m, fb, b) && p in b.ch && PrevFree(b.ch, p)
    ensures 1 <= i < NBINS && |b.bins| == NBINS && b.ch[p].prev in b.bins[i]
    ensures b.ch[p].prev + 16 <= p && b.ch[p].prev + b.ch[b.ch[p].prev].size == p
  {
    var q := b.ch[p].prev;
    assert q in BinnedPart(b.ch) && TileOk(b.ch, p) && TileOk(b.ch, q);
    i := b.ch[q].kind.bin;
    assert BinnedPart(b.ch)[q].bin == i;
  }

  /** The partition stores nothing outside the aggregate. */
  lemma {:induction false} StoredInside(m: Mem, p0: int, total: int, ks: seq<int>, arr: int, k: nat, size: int)
    requires PaddedAll(ks, total) && k <= |ks| && total <= size
      && (arr == 0 || (p0 + 4 <= arr && arr + 4 * |ks| <= p0 + size + 4))
    ensures Inside(m, Stored(m, p0, total, ks, arr, k), p0, size)
  {
    if k > 0 {
      StoredInside(m, p0, total, ks, arr, k - 1, size);
      SumBounds(ks, total, k - 1);
    }
  }

  /** The blocks the call leaves in use: the old ones, the pointer array unless it was supplied, and the pieces. */
  ghost function Independents(live0: map<int, int>, p0: int, total: int, rest: int, ks: seq<int>): map<int, int> {
    Pieces(if rest == 0 then live0 else live0[p0 + total := rest], p0, total, ks, |ks|)
  }

  /** Once initialised, the bytes obtained are those of all chunks; a head is null while the fastbins are empty. */
  lemma BornTotal(av: MallocState)
    requires av.Valid()
    ensures av.maxFast == 0 <==> av.Unborn()
    ensures av.maxFast == 0 ==> !av.fastChunks && forall nb :: av.ReadyHead(nb) == 0
    ensures av.fastChunks ==> Total(av.book.ch) == av.sbrkedMem
  {
  }

  lemma ConsolidatedValid(av: MallocState)
    requires av.Settled() && FlagOk(FastPart(av.book.ch), av.fastChunks)
    ensures av.Valid()
  {
  }

  lemma AggregateSize(n: nat, sizes: seq<int>, same: bool, contents: int, arraySize: int, supplied: bool)
    requires n > 0 && (if same then |sizes| > 0 else |sizes| >= n) && (forall x :: x in sizes ==> 0 <= x)
    requires contents == SumTo(PaddedSizes(n, sizes, same), n)
    requires arraySize == if supplied then 0 else Request2Size(4 * n)
    ensures var nb := contents + arraySize;
            && contents % 8 == 0 && MINSIZE <= contents && nb % 8 == 0 && Request2Size(nb - MALLOC_ALIGN_MASK) == nb
               && 0 <= nb - MALLOC_ALIGN_MASK
    ensures supplied || (arraySize % 8 == 0 && MINSIZE <= arraySize && 4 * n + SIZE_SZ <= arraySize)
  {
    hide SumTo, PaddedSizes, Request2Size, PaddedAll;
    var ks := PaddedSizes(n, sizes, same);
    PaddedOk(n, sizes, same, contents);
    PaddedLength(n, sizes, same);
    SumPositive(ks, contents, n);
    PaddedTotal(ks, contents);
    ArraySize(n);
    PadsBack(contents + arraySize);
  }

  lemma ArraySize(n: nat)
    requires n > 0
    ensures Request2Size(4 * n) % 8 == 0 && MINSIZE <= Request2Size(4 * n) && 4 * n + SIZE_SZ <= Request2Size(4 * n)
  {
  }

  lemma Aggregate(live0: map<int, int>, live1: map<int, int>, m: int, nb: int)
    requires Allocated(live0, live1, m, nb)
    ensures m - 8 !in live0 && m - 8 in live1 && live1 == live0[m - 8 := live1[m - 8]] && live1 - {m - 8} == live0
    ensures nb <= live1[m - 8] && m != 0
  {
  }

  lemma PaddedLength(n: nat, sizes: seq<int>, same: bool)
    requires if same then n > 0 ==> |sizes| > 0 else |sizes| >= n
    ensures |PaddedSizes(n, sizes, same)| == n
  {
  }

  lemma PieceEight(ks: seq<int>, total: int)
    requires PaddedAll(ks, total) && total % 8 == 0
    ensures PieceSize(ks, total, 0) % 8 == 0
  {
  }

  /** The parts of the invariant that do not look at memory. */
  ghost predicate Bookkeeping(b: Book, sbrkedMem: int, maxFast: int, anyChunks: bool, fastChunks: bool,
      binmap: seq<nat>) {
    && Total(b.ch) == sbrkedMem && FastLimits(FastPart(b.ch), maxFast) && FlagOk(FastPart(b.ch), fastChunks)
    && AnyLimits(BinnedPart(b.ch), anyChunks, fastChunks) && MapOk(binmap, b.bins)
  }

  lemma BookkeepingOf(av: MallocState)
    requires av.Settled() && FlagOk(FastPart(av.book.ch), av.fastChunks) && av.book.ch != map[]
    ensures Bookkeeping(av.book, av.sbrkedMem, av.maxFast, av.anyChunks, av.fastChunks, av.binmap)
      && TopIs(av.book.ch, av.top)
  {
  }

  lemma BookkeepingKept(b: Book, b': Book, t: int, sbrkedMem: int, maxFast: int, anyChunks: bool, fastChunks: bool,
      binmap: seq<nat>)
    requires Bookkeeping(b, sbrkedMem, maxFast, anyChunks, fastChunks, binmap) && TopIs(b.ch, t) && Kept(b, b', t)
    ensures Bookkeeping(b', sbrkedMem, maxFast, anyChunks, fastChunks, binmap) && TopIs(b'.ch, t)
  {
  }

  lemma ValidAgain(av: MallocState)
    requires Bookkeeping(av.book, av.sbrkedMem, av.maxFast, av.anyChunks, av.fastChunks, av.binmap)
      && TopIs(av.book.ch, av.top)
    requires Inv(av.mem, av.fastbins, av.book) && Holes(av.book.ch) == {}
    ensures av.Valid() && !NoHeap(av.mem)
  {
  }

  /** The aggregate's in-use bit is clear: the partition sets it, and leaves no heap. */
  lemma PartitionBroken(m: Mem, fb: seq<int>, b: Book, p: int, total: int, rest: int, ks: seq<int>)
    requires Inv(m, fb, b) && p in b.ch && b.ch[p].kind.Live? && b.ch[p].size == total + rest && Holes(b.ch) == {}
      && PrevFree(b.ch, p)
    requires PaddedAll(ks, total) && total % 8 == 0 && (rest == 0 || (MINSIZE <= rest && 4 * |ks| + 4 <= rest))
    ensures var arr := if rest == 0 then 0 else p + total + 8;
            var m1 := if rest == 0 then m else m[p + total + 4 := rest + PREV_INUSE];
            NoHeap(Stored(m1, p, total, ks, arr, |ks|))
  {
    hide Inv, Stored, SumTo, PaddedAll, PrevFree, NoHeap;
    var arr := if rest == 0 then 0 else p + total + 8;
    var m1 := if rest == 0 then m else m[p + total + 4 := rest + PREV_INUSE];
    var m2 := Stored(m1, p, total, ks, arr, |ks|);
    PaddedTotal(ks, total);
    AddressOf(m, fb, b, p);
    StoredHead(m1, p, total, ks, arr, |ks|);
    PieceEight(ks, total);
    FlagBit(PieceSize(ks, total, 0));
    StoredInside(m1, p, total, ks, arr, |ks|, total + rest);
    ArrayInside(m, m1, m2, p, total, rest);
    BrokenTags(m, m2, fb, b, p);
  }

  lemma AddressOf(m: Mem, fb: seq<int>, b: Book, p: int)
    requires Inv(m, fb, b) && p in b.ch
    ensures HEAP_BASE <= p
  {
    assert TileOk(b.ch, p);
  }

  lemma ArrayInside(m0: Mem, m1: Mem, m2: Mem, p: int, total: int, rest: int)
    requires 0 <= total && 0 <= rest && (m1 == m0 || (0 < rest && m1 == m0[p + total + 4 := rest + PREV_INUSE]))
    requires Inside(m1, m2, p, total + rest)
    ensures Inside(m0, m2, p, total + rest)
  {
  }

  /** Nothing is stored in the payload of piece i. */
  ghost predicate PieceKept(m: Mem, m': Mem, p0: int, total: int, ks: seq<int>, i: int) {
    0 <= i < |ks| && forall a {:trigger At(m', a)} ::
      p0 + SumTo(ks, i) + 8 <= a < p0 + SumTo(ks, i) + PieceSize(ks, total, i) + 4 ==> At(m', a) == At(m, a)
  }

  lemma {:induction false} StoredKeeps(m: Mem, p0: int, total: int, ks: seq<int>, arr: int, k: nat, i: nat)
    requires PaddedAll(ks, total) && k <= |ks| && i < |ks| && (arr == 0 || p0 + total + 8 <= arr)
    ensures PieceKept(m, Stored(m, p0, total, ks, arr, k), p0, total, ks, i)
  {
    hide SumTo, PaddedAll;
    if k > 0 {
      StoredKeeps(m, p0, total, ks, arr, k - 1, i);
      NextStored(m, p0, total, ks, arr, k - 1);
      PiecesFill(p0, total, ks, i);
      SumOrder(ks, total, i, k - 1);
      var mk := Stored(m, p0, total, ks, arr, k - 1);
      forall a | p0 + SumTo(ks, i) + 8 <= a < p0 + SumTo(ks, i) + PieceSize(ks, total, i) + 4
        ensures At(Stored(m, p0, total, ks, arr, k), a) == At(m, a)
      {
        assert At(mk, a) == At(m, a);
      }
    }
  }

  lemma SumOrder(ks: seq<int>, total: int, i: nat, j: nat)
    requires PaddedAll(ks, total) && i < |ks| && j < |ks|
    ensures j < i ==> SumTo(ks, j) < SumTo(ks, i)
    ensures i < j ==> SumTo(ks, i + 1) <= SumTo(ks, j)
    ensures SumTo(ks, i) + PieceSize(ks, total, i) <= total && 0 <= SumTo(ks, j) < total
  {
    SumBounds(ks, total, j);
    SumBounds(ks, total, i + 1);
    PiecesFill(0, total, ks, i);
    if j < i {
      SumGrows(ks, total, j, i);
    } else if i + 1 < j {
      SumGrows(ks, total, i + 1, j);
    }
  }

  /** The store of the array's size word, and then those of the partition. */
  lemma PieceKeptFirst(m0: Mem, m1: Mem, m2: Mem, p: int, total: int, ks: seq<int>, v: int, i: nat)
    requires PaddedAll(ks, total) && i < |ks| && (m1 == m0 || m1 == m0[p + total + 4 := v])
    requires PieceKept(m1, m2, p, total, ks, i)
    ensures PieceKept(m0, m2, p, total, ks, i)
  {
    hide SumTo;
    SumOrder(ks, total, i, i);
  }

  /** What a partition of the block p, by a call with these sizes, leaves behind. */
  ghost predicate Partitioned(live0: map<int, int>, live1: map<int, int>, m1: Mem, p0: int, total: int, rest: int,
      marray: int, ks: seq<int>) {
    && live1 == Independents(live0, p0, total, rest, ks)
    && PointersAt(m1, if rest == 0 then 0 else marray, p0, ks, |ks|)
  }

  /** Everything iALLOc does once it has the aggregate. */
  method PartitionChunk(av: MallocState, p: int, size: int, contents: int, ks: seq<int>, supplied: bool)
    returns (ptrs: seq<int>, marray: int, ghost total: int, ghost rest: int)
    requires av.Settled() && FlagOk(FastPart(av.book.ch), av.fastChunks)
    requires p in av.book.ch && av.book.ch[p].kind.Live? && av.book.ch[p].size == size
    requires PaddedAll(ks, contents) && contents == SumTo(ks, |ks|) && contents % 8 == 0 && contents <= size
    requires supplied || (contents + MINSIZE <= size && contents + 4 * |ks| + SIZE_SZ <= size)
    modifies av`mem, av`book
    ensures PaddedAll(ks, total) && |ptrs| == |ks| && forall i :: 0 <= i < |ks| ==> ptrs[i] == p + SumTo(ks, i) + 8
    ensures total + rest == size && (if supplied then rest == 0 else total == contents && marray == p + total + 8)
    ensures av.Valid() <==> At(old(av.mem), p + 4) % 2 == PREV_INUSE
    ensures NoHeap(av.mem) <==> At(old(av.mem), p + 4) % 2 == 0
    ensures av.Valid() ==>
      Partitioned(old(LivePart(av.book.ch)) - {p}, LivePart(av.book.ch), av.mem, p, total, rest, marray, ks)
    ensures av.Valid() ==> SamePayload(old(av.mem), av.mem, old(LivePart(av.book.ch)) - {p})
    ensures forall i {:trigger PieceKept(old(av.mem), av.mem, p, total, ks, i)} :: 0 <= i < |ks| ==>
      PieceKept(old(av.mem), av.mem, p, total, ks, i)
  {
    hide Inv, MallocState.Working, MallocState.Valid, LivePart, Kept, SamePayload, Holes, PrevFree, PrevHole, PieceKept;
    hide PointersAt, PaddedAll, Stored, Pieces, Bookkeeping, TopIs, NoHeap;
    ghost var m0, b0, sound := av.mem, av.book, At(av.mem, p + 4) % 2 == PREV_INUSE;
    InvOf(av);
    HeadBit(av.mem, av.fastbins, av.book, p);
    NotEmpty(av.book.ch, p);
    BookkeepingOf(av);
    total, rest, marray := size, 0, 0;
    var mem := av.mem;
    if !supplied {
      total, rest := contents, size - contents;
      mem := mem[p + contents + 4 := size - contents + PREV_INUSE];
      marray := p + contents + 8;
    }
    PaddedMore(ks, contents, total);
    SumPositive(ks, contents, |ks|);
    mem, ptrs := SplitOut(mem, p, if supplied then size else contents, ks, marray);
    AllKept(m0, p, total, rest, ks, marray);
    av.mem := mem;
    if sound {
      ghost var bk := Independent(m0, av.fastbins, b0, p, total, rest, ks, av.top);
      av.book := bk;
      BookkeepingKept(b0, bk, av.top, av.sbrkedMem, av.maxFast, av.anyChunks, av.fastChunks, av.binmap);
      ValidAgain(av);
    } else {
      PartitionBroken(m0, av.fastbins, b0, p, total, rest, ks);
      NoHeapHere(av, p);
    }
  }

  lemma AllKept(m: Mem, p: int, total: int, rest: int, ks: seq<int>, arr: int)
    requires PaddedAll(ks, total) && (arr == 0 || p + total + 8 <= arr)
    ensures var m1 := if rest == 0 then m else m[p + total + 4 := rest + PREV_INUSE];
            forall i {:trigger PieceKept(m, Stored(m1, p, total, ks, arr, |ks|), p, total, ks, i)} ::
              0 <= i < |ks| ==> PieceKept(m, Stored(m1, p, total, ks, arr, |ks|), p, total, ks, i)
  {
    hide Stored, PieceKept, PaddedAll;
    var m1 := if rest == 0 then m else m[p + total + 4 := rest + PREV_INUSE];
    var m2 := Stored(m1, p, total, ks, arr, |ks|);
    forall i: nat | i < |ks|
      ensures PieceKept(m, m2, p, total, ks, i)
    {
      StoredKeeps(m1, p, total, ks, arr, |ks|, i);
      PieceKeptFirst(m, m1, m2, p, total, ks, rest + PREV_INUSE, i);
    }
  }

  lemma NoHeapHere(av: MallocState, p: int)
    requires NoHeap(av.mem) && p in av.book.ch
    ensures !av.Valid()
  {
  }


  lemma PaddedMore(ks: seq<int>, contents: int, total: int)
    requires PaddedAll(ks, contents) && contents <= total
    ensures PaddedAll(ks, total) && |ks| > 0
  {
  }

  /** A request for nb bytes takes a chunk off a fastbin that follows a free chunk, so that PREV_INUSE is clear. */
  predicate TakesAfterFree(av: MallocState, nb: int)
    reads av
  {
    av.FastServes(nb) && At(av.mem, av.fastbins[FastIndex(nb)] + 4) % 2 == 0
  }

  /** Result i is a block of at least its padded size, and the next one lies right behind it. */
  ghost predicate ResultAt(live: map<int, int>, ptrs: seq<int>, ks: seq<int>, i: int) {
    && |ptrs| == |ks| && 0 <= i < |ks| && ptrs[i] - 8 in live && ks[i] <= live[ptrs[i] - 8]
    && (i + 1 < |ptrs| ==> ptrs[i + 1] == ptrs[i] + live[ptrs[i] - 8])
  }

  lemma ResultsAre(live0: map<int, int>, live1: map<int, int>, m1: Mem, p0: int, total: int, rest: int, marray: int,
      ks: seq<int>, ptrs: seq<int>)
    requires PaddedAll(ks, total) && Partitioned(live0, live1, m1, p0, total, rest, marray, ks)
    requires |ptrs| == |ks| && forall i :: 0 <= i < |ks| ==> ptrs[i] == p0 + SumTo(ks, i) + 8
    ensures forall i :: 0 <= i < |ptrs| ==> ResultAt(live1, ptrs, ks, i)
  {
    hide SumTo, PieceSize, Pieces;
    var base := if rest == 0 then live0 else live0[p0 + total := rest];
    PiecesAre(base, p0, total, ks, |ks|);
    assert live1 == Pieces(base, p0, total, ks, |ks|);
    forall i | 0 <= i < |ptrs|
      ensures ResultAt(live1, ptrs, ks, i)
    {
      assert PieceIn(live1, p0, total, ks, i);
      PiecesFill(p0, total, ks, i);
    }
  }

  lemma NotInitialised(av: MallocState)
    ensures av.maxFast == 0 ==> forall nb :: !av.FastServes(nb) && !TakesAfterFree(av, nb)
  {
  }

  /** Only with the fastchunks flag set does a fastbin serve a request. */
  lemma FlagServes(av: MallocState, nb: int)
    requires av.Valid() && nb % 8 == 0
    ensures av.FastServes(nb) ==> av.fastChunks
    ensures TakesAfterFree(av, nb) ==> av.FastServes(nb)
  {
    if !av.fastChunks {
      NoFastHead(av, nb);
    }
  }

  lemma HeadServes(av: MallocState, nb: int)
    ensures !av.FastServes(nb) ==> av.ReadyHead(nb) == 0
  {
  }

  /** The aggregate: a block for this request, and what its size word says about the chunk before it. */
  method GetAggregate(av: MallocState, bytes: int) returns (m: int, ghost how: Outcome, ghost from: Snapshot)
    requires av.Valid() && 0 <= bytes < ADDRESS_LIMIT
    modifies av
    ensures if bytes >= REQUEST_LIMIT then m == 0 && av.answers == old(av.answers)
      else
        MallocResult(old(av.Now()), old(av.fastChunks), old(av.ReadyHead(Request2Size(bytes))), from,
          Request2Size(bytes), how, m, old(av.answers), av.answers)
    ensures av.Valid() && SamePayload(old(av.mem), av.mem, old(LivePart(av.book.ch)))
    ensures m == 0 ==> LivePart(av.book.ch) == old(LivePart(av.book.ch))
    ensures m == 0 ==> bytes >= REQUEST_LIMIT
                         || (!TopServes(av.book.ch, av.top, Request2Size(bytes))
                           && !old(av.FastServes(Request2Size(bytes))))
    ensures m != 0 ==> av.Settled() && FlagOk(FastPart(av.book.ch), av.fastChunks) && Inv(av.mem, av.fastbins, av.book)
    ensures m != 0 ==>
      m - 8 in av.book.ch && av.book.ch[m - 8].kind.Live? && Holes(av.book.ch) == {}
        && Request2Size(bytes) <= av.book.ch[m - 8].size < ADDRESS_LIMIT
    ensures m != 0 ==> LivePart(av.book.ch) - {m - 8} == old(LivePart(av.book.ch))
    ensures m != 0 ==> NoneWithin(old(LivePart(av.book.ch)), m - 8, av.book.ch[m - 8].size) && 0 < m - 8
    ensures m != 0 ==> (At(av.mem, m - 4) % 2 == PREV_INUSE <==> !old(TakesAfterFree(av, Request2Size(bytes))))
  {
    hide Inv, MallocState.Working, LivePart, SamePayload, Request2Size, Allocated, Explained, MallocState.Valid;
    hide MallocState.FastServes, TopServes, FlagOk, FastPart, NoneFits, BinnedPart, Consolidated;
    hide MallocResult, MallocState.ReadyHead;
    ghost var live0, nb := LivePart(av.book.ch), Request2Size(bytes);
    RequestEight(bytes);
    FlagServes(av, nb);
    m, how, from := av.MAlloc(bytes);
    if m != 0 {
      Aggregate(live0, LivePart(av.book.ch), m, nb);
      InUseSettled(av, m - 8);
      NewSpace(av.mem, av.fastbins, av.book, m - 8);
      BitOrNot(av.mem, m - 4);
    }
  }

  lemma RequestEight(bytes: int)
    requires 0 <= bytes
    ensures Request2Size(bytes) % 8 == 0
  {
  }

  /** No block starts in this space. */
  ghost predicate NoneWithin(live: map<int, int>, p: int, size: int) {
    forall x :: x in live ==> !(p <= x < p + size)
  }

  lemma NewSpace(m: Mem, fb: seq<int>, b: Book, p: int)
    requires Inv(m, fb, b) && p in b.ch
    ensures NoneWithin(LivePart(b.ch) - {p}, p, b.ch[p].size) && 0 < p && b.ch[p].size < ADDRESS_LIMIT
  {
    assert TileOk(b.ch, p);
    forall x | x in LivePart(b.ch) - {p}
      ensures !(p <= x < p + b.ch[p].size)
    {
      assert p < x ==> Before(b.ch, p, x);
    }
  }

  lemma BitOrNot(m: Mem, a: int)
    ensures At(m, a) % 2 == 0 || At(m, a) % 2 == PREV_INUSE
  {
  }

  /** The request, and what of it is true unless it has wrapped around. */
  lemma RequestIs(n: int, sizes: seq<int>, same: bool, supplied: bool, contents: int, arraySize: int, bytes: int)
    requires SizesOk(n, sizes, same) && contents == SumTo(WordSizes(n, sizes, same), n) % ADDRESS_LIMIT
    requires arraySize == if supplied then 0 else RequestWord(4 * n % ADDRESS_LIMIT)
    requires bytes == (contents + arraySize - MALLOC_ALIGN_MASK) % ADDRESS_LIMIT
    ensures bytes == (Asked(n, sizes, same, supplied) - MALLOC_ALIGN_MASK) % ADDRESS_LIMIT && 0 <= bytes
    ensures var ks, nb := PaddedSizes(n, sizes, same), Needed(n, sizes, same, supplied);
            nb < ADDRESS_LIMIT ==>
              && Request2Size(bytes) == nb && |ks| == n && WordSizes(n, sizes, same) == ks && PaddedAll(ks, contents)
              && contents == SumTo(ks, n) && contents % 8 == 0 && MINSIZE <= contents && contents + arraySize == nb
              && arraySize % 8 == 0 && 0 <= arraySize
              && if supplied then arraySize == 0 else MINSIZE <= arraySize && 4 * n + SIZE_SZ <= arraySize
  {
    hide SumTo, PaddedSizes, WordSizes, Request2Size, RequestWord, PaddedAll;
    AskedIsNeeded(n, sizes, same, supplied);
    if Needed(n, sizes, same, supplied) < ADDRESS_LIMIT {
      AggregateSize(n, sizes, same, contents, arraySize, supplied);
      PaddedOk(n, sizes, same, contents);
      PaddedLength(n, sizes, same);
    }
  }

  lemma BlockHas(ch: Chunks, p: int)
    requires p in ch && ch[p].kind.Live?
    ensures p in LivePart(ch) && LivePart(ch)[p] == ch[p].size
  {
  }

  /** The words of the piece at ptr are all zero. */
  ghost predicate Cleared(m: Mem, ptr: int, size: int) {
    AllZero(m, ptr, ptr - 4 + size)
  }

  /** Clear the words of the elements, before the aggregate is partitioned. */
  method ClearElements(av: MallocState, m: int, nbytes: int)
    requires av.Settled() && FlagOk(FastPart(av.book.ch), av.fastChunks) && Inv(av.mem, av.fastbins, av.book)
    requires m - 8 in av.book.ch && av.book.ch[m - 8].kind.Live?
    requires 4 <= nbytes && nbytes % 4 == 0 && nbytes + SIZE_SZ <= av.book.ch[m - 8].size
    modifies av`mem
    ensures av.Settled() && FlagOk(FastPart(av.book.ch), av.fastChunks) && Inv(av.mem, av.fastbins, av.book)
    ensures At(av.mem, m - 4) == At(old(av.mem), m - 4) && AllZero(av.mem, m, m + nbytes)
    ensures SamePayload(old(av.mem), av.mem, LivePart(av.book.ch) - {m - 8})
  {
    hide Inv, LivePart, FastPart, BinnedPart, Holes, Total, SamePayload, MapOk, Zeroed, AllZero, FlagOk;
    ghost var m0 := av.mem;
    NotEmpty(av.book.ch, m - 8);
    av.mem := MallocZero(av.mem, m, nbytes);
    ZeroedIs(m0, m, nbytes / 4);
    ClearedInv(m0, av.fastbins, av.book, m - 8, nbytes / 4);
  }

  lemma ClearSize(m: Mem, fb: seq<int>, b: Book, p: int, arraySize: int, contents: int)
    requires Inv(m, fb, b) && p in b.ch && contents % 8 == 0 && MINSIZE <= contents
      && contents + arraySize <= b.ch[p].size && 0 <= arraySize && arraySize % 8 == 0
    ensures var nbytes := b.ch[p].size - SIZE_SZ - arraySize;
            4 <= nbytes && nbytes % 4 == 0 && nbytes + SIZE_SZ <= b.ch[p].size && contents - 4 <= nbytes
  {
    hide BinnedPart, FastPart, Listed, Rings, FastListed, Chains, Tagged;
    assert TileOk(b.ch, p);
    OddWords(b.ch[p].size / 8 - arraySize / 8);
  }

  /** Eight bytes each, less a size word. */
  lemma OddWords(x: int)
    ensures (8 * x - SIZE_SZ) % 4 == 0
  {
    assert 8 * x - SIZE_SZ == 4 * (2 * x - 1);
  }

  /** What was cleared stays so: the partition stores nothing inside a piece. */
  lemma PieceCleared(m1: Mem, m2: Mem, p: int, nbytes: int, total: int, ks: seq<int>, i: nat)
    requires PaddedAll(ks, total) && i < |ks| && AllZero(m1, p + 8, p + 8 + nbytes) && total - 4 <= nbytes
    requires PieceKept(m1, m2, p, total, ks, i)
    ensures Cleared(m2, p + SumTo(ks, i) + 8, PieceSize(ks, total, i))
  {
    hide SumTo, PieceSize;
    SumOrder(ks, total, i, i);
    SumPositive(ks, total, i);
    var ptr := p + SumTo(ks, i) + 8;
    forall a | ptr <= a < ptr - 4 + PieceSize(ks, total, i) && (a - ptr) % 4 == 0
      ensures At(m2, a) == 0
    {
      assert (a - (p + 8)) % 4 == 0;
      assert At(m2, a) == At(m1, a) == 0;
    }
  }

  lemma AllCleared(m1: Mem, m2: Mem, p: int, nbytes: int, total: int, ks: seq<int>, ptrs: seq<int>)
    requires PaddedAll(ks, total) && AllZero(m1, p + 8, p + 8 + nbytes) && total - 4 <= nbytes
    requires forall i {:trigger PieceKept(m1, m2, p, total, ks, i)} :: 0 <= i < |ks| ==>
      PieceKept(m1, m2, p, total, ks, i)
    requires |ptrs| == |ks| && forall i :: 0 <= i < |ks| ==> ptrs[i] == p + SumTo(ks, i) + 8
    ensures forall i :: 0 <= i < |ptrs| ==> Cleared(m2, ptrs[i], PieceSize(ks, total, i))
  {
    hide AllZero, PieceKept, SumTo, PaddedAll;
    forall i: nat | i < |ptrs|
      ensures Cleared(m2, ptrs[i], PieceSize(ks, total, i))
    {
      PieceCleared(m1, m2, p, nbytes, total, ks, i);
    }
  }

  /** Clear the elements, if that is asked for, and partition the chunk. */
  method PartitionCleared(av: MallocState, p: int, size: int, contents: int, arraySize: int, ks: seq<int>, clear: bool,
      supplied: bool) returns (ptrs: seq<int>, marray: int, ghost total: int, ghost rest: int)
    requires av.Settled() && FlagOk(FastPart(av.book.ch), av.fastChunks) && Inv(av.mem, av.fastbins, av.book)
    requires p in av.book.ch && av.book.ch[p].kind.Live? && av.book.ch[p].size == size
    requires PaddedAll(ks, contents) && contents == SumTo(ks, |ks|) && contents % 8 == 0 && MINSIZE <= contents
    requires 0 <= arraySize && arraySize % 8 == 0 && contents + arraySize <= size
    requires if supplied then arraySize == 0 else MINSIZE <= arraySize && 4 * |ks| + SIZE_SZ <= arraySize
    modifies av`mem, av`book
    ensures PaddedAll(ks, total) && |ptrs| == |ks| && forall i :: 0 <= i < |ks| ==> ptrs[i] == p + SumTo(ks, i) + 8
    ensures total + rest == size && (if supplied then rest == 0 else total == contents && marray == p + total + 8)
    ensures av.Valid() <==> At(old(av.mem), p + 4) % 2 == PREV_INUSE
    ensures NoHeap(av.mem) <==> At(old(av.mem), p + 4) % 2 == 0
    ensures av.Valid() ==>
      Partitioned(old(LivePart(av.book.ch)) - {p}, LivePart(av.book.ch), av.mem, p, total, rest, marray, ks)
    ensures av.Valid() ==> SamePayload(old(av.mem), av.mem, old(LivePart(av.book.ch)) - {p})
    ensures clear ==> forall i :: 0 <= i < |ptrs| ==> Cleared(av.mem, ptrs[i], PieceSize(ks, total, i))
  {
    hide Inv, MallocState.Working, MallocState.Valid, LivePart, SamePayload, Holes, PaddedAll, Partitioned, FlagOk;
    hide NoHeap, SumTo, PieceSize, PieceKept, AllZero, Cleared, FastPart;
    ghost var m0, live0 := av.mem, LivePart(av.book.ch) - {p};
    PayloadOfSame(m0, live0);
    ClearSize(av.mem, av.fastbins, av.book, p, arraySize, contents);
    if clear {
      ClearElements(av, p + 8, size - SIZE_SZ - arraySize);
    }
    ghost var m1 := av.mem;
    ptrs, marray, total, rest := PartitionChunk(av, p, size, contents, ks, supplied);
    if clear {
      AllCleared(m1, av.mem, p, size - SIZE_SZ - arraySize, total, ks, ptrs);
    }
    if av.Valid() {
      KeepPayload(m0, m1, av.mem, live0);
    }
  }

  /** iALLOc. lib tells the two versions of the file apart: the one in lib consolidates the fastbins first.

      ok is false if the elements do not fit the block that the call has got. That is so exactly if they need more
      than the address space, so that the request wrapped around; what is then stored is not modelled.

      The result is a valid heap exactly if the aggregate does not follow a free chunk. It follows one exactly if
      it is recycled from a fastbin and its own size word says so; consolidating first rules that out. */
  method IAlloc(av: MallocState, n: int, sizes: seq<int>, same: bool, clear: bool, supplied: bool, lib: bool)
    returns (ok: bool, ptrs: seq<int>, marray: int, ghost p0: int, ghost total: int, ghost rest: int,
      ghost s1: Snapshot, ghost how: Outcome, ghost from: Snapshot)
    requires av.Valid() && SizesOk(n, sizes, same)
    modifies av
    ensures if lib && old(av.fastChunks) then
              Consolidated(s1, old(av.book)) && Ordered(s1, old(av.book), UnsortedIn(old(av.book.bins)))
            else s1.book == old(av.book)
    ensures (if lib then !old(av.fastChunks) else !old(av.Unborn())) ==> s1 == old(av.Now())
    ensures var bytes := (Asked(n, sizes, same, supplied) - MALLOC_ALIGN_MASK) % ADDRESS_LIMIT;
            if bytes >= REQUEST_LIMIT then ok && ptrs == [] && av.answers == old(av.answers)
            else
              MallocResult(s1, !lib && old(av.fastChunks), if lib then 0 else old(av.ReadyHead(Request2Size(bytes))),
                from, Request2Size(bytes), how, if ok && ptrs == [] then 0 else p0 + 8, old(av.answers), av.answers)
    ensures ptrs == [] ==> av.Valid() && SamePayload(old(av.mem), av.mem, old(LivePart(av.book.ch)))
    ensures ok && ptrs == [] ==>
              var bytes := (Asked(n, sizes, same, supplied) - MALLOC_ALIGN_MASK) % ADDRESS_LIMIT;
              && LivePart(av.book.ch) == old(LivePart(av.book.ch))
              && (bytes >= REQUEST_LIMIT || (!TopServes(av.book.ch, av.top, Request2Size(bytes))
                && (lib || !old(av.FastServes(Request2Size(bytes))))))
    ensures !ok ==>
              && ptrs == [] && Needed(n, sizes, same, supplied) >= ADDRESS_LIMIT
              && p0 in LivePart(av.book.ch) && LivePart(av.book.ch) - {p0} == old(LivePart(av.book.ch))
              && LivePart(av.book.ch)[p0] < Needed(n, sizes, same, supplied)
    ensures ptrs != [] ==>
              var nb := Needed(n, sizes, same, supplied);
              && ok && nb < ADDRESS_LIMIT
              && (av.Valid() <==> lib || !old(TakesAfterFree(av, nb)))
              && (NoHeap(av.mem) <==> !lib && old(TakesAfterFree(av, nb)))
    ensures ptrs != [] ==>
              var ks := PaddedSizes(n, sizes, same);
              && PaddedAll(ks, total) && |ptrs| == n && (forall i :: 0 <= i < n ==> ptrs[i] == p0 + SumTo(ks, i) + 8)
              && (if supplied then rest == 0
                  else total == SumTo(ks, n) && marray == p0 + total + 8 && rest >= 4 * n + SIZE_SZ)
    ensures ptrs != [] && av.Valid() ==>
              && Partitioned(old(LivePart(av.book.ch)), LivePart(av.book.ch), av.mem, p0, total, rest, marray,
                 PaddedSizes(n, sizes, same))
              && SamePayload(old(av.mem), av.mem, old(LivePart(av.book.ch)))
    ensures ptrs != [] ==> NoneWithin(old(LivePart(av.book.ch)), p0, total + rest) && 0 < p0
    ensures ptrs != [] && av.Valid() ==>
              forall i :: 0 <= i < n ==> ResultAt(LivePart(av.book.ch), ptrs, PaddedSizes(n, sizes, same), i)
    ensures ptrs != [] && clear ==>
              forall i :: 0 <= i < n ==> Cleared(av.mem, ptrs[i], PieceSize(PaddedSizes(n, sizes, same), total, i))
  {
    hide Inv, MallocState.Working, MallocState.Valid, LivePart, SamePayload, Request2Size, Holes, PrevFree, PrevHole;
    hide PaddedSizes, PaddedAll, Partitioned, MallocState.FastServes, TopServes, ResultAt, TakesAfterFree, FlagOk,
      FastPart;
    hide NoneWithin, NoHeap, Needed, Asked, WordSizes, RequestWord, SumTo, PieceSize, PieceKept, AllZero, Cleared;
    hide MallocResult, MallocState.ReadyHead, Consolidated, DeadPart, Starts, Total, MallocState.Unborn, Ordered,
      SpaceOf, FastJoined, UnsortedIn;
    ghost var m0, live0 := av.mem, LivePart(av.book.ch);
    PayloadOfSame(m0, live0);
    ok, ptrs, marray, p0, total, rest := true, [], 0, 0, 0, 0;
    s1, how, from := av.Now(), Refused, av.Now();
    NotInitialised(av);
    BornTotal(av);
    if (if lib then av.fastChunks else av.maxFast == 0) {
      av.MallocConsolidate();
      ConsolidatedValid(av);
      s1 := av.Now();
      if lib {
        ConsolidatedHere(av, old(av.book));
        OrderedNow(s1, old(av.book));
      }
    }
    ghost var m1 := av.mem;
    var arraySize := if supplied then 0 else RequestWord(4 * n % ADDRESS_LIMIT);
    var contents := ContentsSize(n, sizes, same);
    var bytes := (contents + arraySize - MALLOC_ALIGN_MASK) % ADDRESS_LIMIT;
    RequestIs(n, sizes, same, supplied, contents, arraySize, bytes);
    RequestEight(bytes);
    FlagServes(av, Request2Size(bytes));
    HeadServes(av, Request2Size(bytes));
    var m;
    m, how, from := GetAggregate(av, bytes);
    KeepPayload(m0, m1, av.mem, live0);
    if m == 0 {
      return;
    }
    p0 := m - 8;
    HeadRead(av.mem, av.fastbins, av.book, p0);
    var size := ChunkSize(At(av.mem, m - 4));
    if Needed(n, sizes, same, supplied) > size {
      BlockHas(av.book.ch, p0);
      return false, [], 0, p0, 0, 0, s1, how, from;
    }
    ghost var m2 := av.mem;
    ptrs, marray, total, rest :=
      PartitionCleared(av, m - 8, size, contents, arraySize, WordSizes(n, sizes, same), clear, supplied);
    if av.Valid() {
      KeepPayload(m0, m2, av.mem, live0);
      ResultsAre(live0, LivePart(av.book.ch), av.mem, p0, total, rest, marray, PaddedSizes(n, sizes, same), ptrs);
    }
  }

  // ---------------------------------------------------------------- the input that breaks it

  lemma EndsBelow(m: Mem, fb: seq<int>, b: Book, p: int, t: int)
    requires Inv(m, fb, b) && p in b.ch && t in b.ch && p < t
    ensures p + b.ch[p].size <= t
  {
    assert Before(b.ch, p, t);
  }

  /** Before anything has been freed, a block that borders a block has no free neighbour. */
  lemma NewIsolated(av: MallocState, p: int)
    requires av.Settled() && !av.anyChunks && p in av.book.ch && av.book.ch[p].kind.Live?
    requires p + av.book.ch[p].size in av.book.ch && av.book.ch[p + av.book.ch[p].size].kind.Live?
    ensures Isolated(av.mem, av.book.ch, p) && !av.fastChunks && 16 <= av.maxFast <= 88
  {
    hide Rings, Chains, Listed, FastListed, MapOk, TopOk, Tiled, FastPart, LivePart;
    NoHoleBefore(av.book, p);
    HeadBit(av.mem, av.fastbins, av.book, p);
    assert TagOk(av.mem, av.book.ch, p);
    NoneBinnedBefore(av.book.ch, p);
  }

  lemma NoneBinnedBefore(ch: Chunks, p: int)
    requires p in ch && forall q :: q !in BinnedPart(ch)
    ensures !PrevFree(ch, p)
  {
    assert ch[p].prev !in BinnedPart(ch);
  }

  /** A block behind a free chunk has been freed to its fastbin: it is at the head, its PREV_INUSE bit clear. */
  lemma RecycledAfterFree(av: MallocState, b0: Book, p: int, q: int)
    requires av.Settled() && q in b0.ch && b0.ch[q].size == MINSIZE && 0 < |b0.fast| && av.book == PushBook(b0, 0, q)
    requires p in BinnedPart(b0.ch) && p + BinnedPart(b0.ch)[p].size == q && p != q
    ensures TakesAfterFree(av, MINSIZE) && av.FastServes(MINSIZE)
  {
    hide Rings, Listed, FastListed, MapOk, TopOk;
    var ch := av.book.ch;
    FastHead(av.mem, av.fastbins, av.book, 0);
    assert TileOk(ch, p) && TagOk(av.mem, ch, q) && TileOk(ch, q);
    assert PrevFree(ch, q);
  }

  lemma OneBlock()
    ensures Needed(1, [8], true, true) == Asked(1, [8], true, true) == MINSIZE == Request2Size(8)
      && Request2Size(200) == 208 && Request2Size((MINSIZE - MALLOC_ALIGN_MASK) % ADDRESS_LIMIT) == MINSIZE
      && FastIndex(MINSIZE) == 0
  {
  }

  lemma InBinned(bp: map<int, Entry>, p: int, size: int)
    ensures p in bp[p := Entry(size, UNSORTED)] && bp[p := Entry(size, UNSORTED)][p].size == size
  {
  }

  /** A block of 200 bytes and behind it one of 8 are allocated and freed in this order: the first joins the free
      chunks, the second goes to a fastbin. independent_calloc of one element of 8 bytes then takes the second,
      sets its PREV_INUSE bit, and so leaves a heap in which a free chunk is followed by a chunk that denies it. */
  method RecycleBehindFree(av: MallocState) returns (a: int, ptrs: seq<int>)
    requires av.Unborn()
    modifies av
    ensures a != 0 ==> ptrs != [] && NoHeap(av.mem) && !av.Valid()
  {
    hide Inv, MallocState.Working, MallocState.Valid, LivePart, BinnedPart, FastPart, SamePayload, FlagOk, Explained,
      Consolidated;
    hide Isolated, PushBook, MallocState.FastServes, TakesAfterFree, NoneFits, SumTo, PaddedSizes, Request2Size,
      ResultAt;
    hide Partitioned, PaddedAll, NoHeap, Needed, Asked, MallocResult, Chosen, RemainderAfter, NoMemory, TopPart, Starts,
      DeadPart, LargeSpace, BordersTop, FreedPart, FreedBins, MallocState.ReadyHead, PieceSize, NoneWithin, Cleared;
    OneBlock();
    ptrs := [];
    var b, marray;
    ghost var how, from;
    UnbornValid(av);
    a, how, from := av.MAlloc(200);
    if a == 0 {
      return;
    }
    ghost var p, q := a - 8, a + 200;
    InUseSettled(av, p);
    EndsBelow(av.mem, av.fastbins, av.book, p, av.top);
    b, how, from := av.MAlloc(8);
    InUseSettled(av, p);
    InUseSettled(av, q);
    EndsBelow(av.mem, av.fastbins, av.book, q, av.top);
    NewIsolated(av, p);
    InBinned(BinnedPart(av.book.ch), p, 208);
    av.Free(a);
    InUseSettled(av, q);
    ghost var b0 := av.book;
    MaxFast(av);
    av.Free(b);
    RecycledAfterFree(av, b0, p, q);
    ghost var p0, total, rest;
    var ok;
    ghost var s1;
    ok, ptrs, marray, p0, total, rest, s1, how, from := IAlloc(av, 1, [8], true, true, true, false);
  }

  lemma UnbornValid(av: MallocState)
    requires av.Unborn()
    ensures av.Valid()
  {
  }

  lemma MaxFast(av: MallocState)
    requires av.Settled()
    ensures 16 <= av.maxFast
  {
  }
}
