/** The heap at the call and the answers of MORECORE decide what malloc returns. */
module Determined {
  import opened Memory
  import opened Heap
  import opened TopSteps
  import opened Census
  import opened BinIndex
  import opened FreeSteps
  import opened Joining
  import opened AllocSteps
  import opened SystemSteps
  import opened Mallinfo

  // ---------------------------------------------------------------- what has joined is unsorted

  /** The free chunks that are not on the unsorted list have been free all along. */
  ghost predicate Untouched(s: Space, s0: Space) {
    forall p :: p in s.free && p !in s.unsorted ==> p in s0.free && s.free[p] == s0.free[p]
  }

  lemma {:induction false} PurgedKeeps(u: seq<int>, x: int, y: int)
    requires x in u && x != y
    ensures x in Purged(u, y)
  {
    if u[0] != x {
      assert x in u[1..];
      if u[0] != y {
        PurgedKeeps(u[1..], x, y);
      }
    } else {
      assert Purged(u, y)[0] == x;
    }
  }

  lemma JoinedUntouched(s: Space, p: int, size: int, s0: Space)
    requires Untouched(s, s0)
    ensures Untouched(Joined(s, p, size), s0)
  {
    hide StartOf;
    var s', q, n := Joined(s, p, size), StartOf(s.free, p), p + size;
    var rest := Purged(Purged(s.unsorted, q), n);
    forall x | x in s'.free && x !in s'.unsorted
      ensures x in s0.free && s'.free[x] == s0.free[x]
    {
      assert s'.unsorted == rest || s'.unsorted == [q] + rest;
      assert x !in rest && x != q && x != n;
      if x in s.unsorted {
        PurgedKeeps(s.unsorted, x, q);
        PurgedKeeps(Purged(s.unsorted, q), x, n);
        assert false;
      }
    }
  }

  lemma {:induction false} ChainUntouched(s: Space, chain: seq<int>, size: int, s0: Space)
    requires Untouched(s, s0)
    ensures Untouched(ChainJoined(s, chain, size), s0)
    decreases |chain|
  {
    hide Untouched, Joined;
    if chain != [] {
      JoinedUntouched(s, chain[0], size, s0);
      ChainUntouched(Joined(s, chain[0], size), chain[1..], size, s0);
    }
  }

  lemma {:induction false} FastUntouched(s: Space, fast: seq<seq<int>>, i: nat, s0: Space)
    requires Untouched(s, s0)
    ensures Untouched(FastJoined(s, fast, i), s0)
    decreases |fast| - i
  {
    hide Untouched, ChainJoined;
    if i < |fast| {
      ChainUntouched(s, fast[i], 8 * i + 16, s0);
      FastUntouched(ChainJoined(s, fast[i], 8 * i + 16), fast, i + 1, s0);
    }
  }

  /** If nothing fitted before the fastbins were consolidated, the small bin of the request is empty afterwards. */
  lemma NoSmallHit(s: Snapshot, b: Book, nb: int)
    requires Consolidated(s, b) && Ordered(s, b, []) && NoneFits(BinnedPart(b.ch), nb) && nb % 8 == 0
    ensures !SmallHit(s, nb)
  {
    hide BinnedPart, Inv, FastJoined, LivePart, FastPart, DeadPart, TopPart, Starts, Total, Holes, Untouched;
    if SmallHit(s, nb) {
      var x := s.book.bins[nb / 8][0];
      BinHolds(s.mem, s.fastbins, s.book, nb / 8, x);
      BinSizes(s.mem, s.fastbins, s.book, x);
      InSmallBin(s.mem, s.fastbins, s.book, x, nb);
      ListedOf(s.mem, s.fastbins, s.book);
      hide Listed;
      if x in s.book.bins[UNSORTED] {
        BinHolds(s.mem, s.fastbins, s.book, UNSORTED, x);
        assert false;
      } else {
        AllUntouched(SpaceOf(b), []);
        FastUntouched(SpaceOf(b).(unsorted := []), b.fast, 0, SpaceOf(b));
        StillFree(SpaceOf(s.book), SpaceOf(b), x);
      }
    }
  }

  lemma AllUntouched(s: Space, unsorted: seq<int>)
    ensures Untouched(s.(unsorted := unsorted), s)
  {
  }

  lemma StillFree(s: Space, s0: Space, x: int)
    requires Untouched(s, s0) && x in s.free && x !in s.unsorted
    ensures x in s0.free && s0.free[x] == s.free[x]
  {
  }

  // ---------------------------------------------------------------- the choice

  /** Two heaps with the same free sizes, unsorted list, and last remainder, and no chunk in the small bin. */
  ghost predicate Alike(s: Snapshot, s': Snapshot, nb: int) {
    && |s.book.bins| == NBINS == |s'.book.bins| && s.lastRemainder == s'.lastRemainder
    && FreeSizes(BinnedPart(s.book.ch)) == FreeSizes(BinnedPart(s'.book.ch))
    && UnsortedOf(s) == UnsortedOf(s') && !SmallHit(s, nb) && !SmallHit(s', nb)
  }

  lemma SameSize(bp: map<int, Entry>, bp': map<int, Entry>)
    requires FreeSizes(bp) == FreeSizes(bp')
    ensures SameFree(bp, bp')
  {
    assert forall p :: p in bp <==> p in FreeSizes(bp);
    assert forall p :: p in bp' <==> p in FreeSizes(bp');
    assert forall p :: p in bp && p in bp' ==> FreeSizes(bp)[p] == FreeSizes(bp')[p];
  }

  lemma AlikeExact(s: Snapshot, s': Snapshot, nb: int)
    requires Alike(s, s', nb)
    ensures forall k ::
      ExactAt(BinnedPart(s.book.ch), UnsortedOf(s), k, nb) <==> ExactAt(BinnedPart(s'.book.ch), UnsortedOf(s'), k, nb)
    ensures RemainderHit(s, nb) <==> RemainderHit(s', nb)
  {
    hide BinnedPart, FreeSizes;
    SameSize(BinnedPart(s.book.ch), BinnedPart(s'.book.ch));
    assert forall q :: HasSize(BinnedPart(s.book.ch), q, nb) <==> HasSize(BinnedPart(s'.book.ch), q, nb);
  }

  /** The same list serves a request. */
  lemma SameChoice(s: Snapshot, s': Snapshot, nb: int)
    requires s == s' || Alike(s, s', nb)
    ensures ListChoice(s, nb) == ListChoice(s', nb)
  {
    hide BinnedPart, FreeSizes, ExactAt, RemainderHit;
    if s != s' {
      AlikeExact(s, s', nb);
      SameSize(BinnedPart(s.book.ch), BinnedPart(s'.book.ch));
      BestOfSame(BinnedPart(s.book.ch), BinnedPart(s'.book.ch), 0, nb);
    }
  }

  /** Two free chunks of one size. */
  ghost predicate Equals(s: Snapshot, s': Snapshot, v: int, v': int) {
    var bp, bp' := BinnedPart(s.book.ch), BinnedPart(s'.book.ch);
    v in bp && v' in bp' && bp[v].size == bp'[v'].size
  }

  /** With the same chunk; a best fit with one of the same size. */
  lemma SameChunk(s: Snapshot, s': Snapshot, nb: int, how: Outcome, v: int, v': int)
    requires s == s' || Alike(s, s', nb)
    requires ChosenFrom(s, nb, how, v) && ChosenFrom(s', nb, how, v')
    ensures if how.BestFit? then Equals(s, s', v, v') else v == v'
  {
    hide BinnedPart, FreeSizes, RemainderHit;
    if how.ExactUnsorted? {
      if s != s' {
        AlikeExact(s, s', nb);
      }
      OneExact(BinnedPart(s.book.ch), UnsortedOf(s), nb, v, v');
    } else if how.BestFit? {
      if s != s' {
        SameSize(BinnedPart(s.book.ch), BinnedPart(s'.book.ch));
      }
    }
  }

  lemma OneExact(bp: map<int, Entry>, u: seq<int>, nb: int, v: int, v': int)
    requires (exists k :: ExactAt(bp, u, k, nb) && v == u[k]) && (exists k :: ExactAt(bp, u, k, nb) && v' == u[k])
    ensures v == v'
  {
    var k :| ExactAt(bp, u, k, nb) && v == u[k];
    var k' :| ExactAt(bp, u, k', nb) && v' == u[k'];
    assert k == k';
  }

  // ---------------------------------------------------------------- malloc

  /** Two consolidations of a heap, in the order of the fastbins, are alike. */
  lemma ConsolidatedAlike(s0: Snapshot, s: Snapshot, s': Snapshot, nb: int, unsorted: seq<int>)
    requires Consolidated(s, s0.book) && Consolidated(s', s0.book) && s.lastRemainder == s'.lastRemainder
    requires Ordered(s, s0.book, unsorted) && Ordered(s', s0.book, unsorted) && nb % 8 == 0
    requires nb >= MIN_LARGE_SIZE || (unsorted == [] && NoneFits(BinnedPart(s0.book.ch), nb))
    ensures Alike(s, s', nb)
  {
    hide BinnedPart, LivePart, FastPart, DeadPart, TopPart, Starts, Total, Holes, FastJoined, FreeSizes, NoneFits, Inv;
    if nb < MIN_LARGE_SIZE {
      NoSmallHit(s, s0.book, nb);
      NoSmallHit(s', s0.book, nb);
    }
    ListedOf(s.mem, s.fastbins, s.book);
    ListedOf(s'.mem, s'.fastbins, s'.book);
    ListedLength(s.book);
    ListedLength(s'.book);
  }

  /** So top is the same, and what a grant makes of it. */
  lemma ConsolidatedGrant(s: Snapshot, s': Snapshot, b: Book, a: Answer)
    requires Consolidated(s, b) && Consolidated(s', b)
    ensures TopFrom(s.book.ch, s.top, a) == TopFrom(s'.book.ch, s'.top, a)
    ensures forall nb :: TopServes(s.book.ch, s.top, nb) <==> TopServes(s'.book.ch, s'.top, nb)
    ensures forall nb :: TopServes(s.book.ch, s.top, nb) ==> s'.top == s.top
  {
    hide Consolidated, TopServes, TopPart;
    ConsolidatedTop(s, s', b);
    ConsolidatedTop(s', s, b);
    TopAt(s, b);
    TopAt(s', b);
  }

  lemma GrantEnough(s: Snapshot, s': Snapshot, b: Book, a: Answer, nb: int)
    requires Consolidated(s, b) && Consolidated(s', b)
    ensures Enough(s.book.ch, s.top, a, nb) <==> Enough(s'.book.ch, s'.top, a, nb)
  {
    hide Consolidated, TopServes, TopPart;
    ConsolidatedTop(s, s', b);
    ConsolidatedTop(s', s, b);
    TopAt(s, b);
    TopAt(s', b);
  }

  lemma TopAt(s: Snapshot, b: Book)
    requires Consolidated(s, b)
    ensures s.top in TopPart(s.book.ch) <==> TopIs(s.book.ch, s.top)
    ensures s.top in TopPart(s.book.ch) ==> TopPart(s.book.ch)[s.top] == TopBytes(s.book.ch, s.top)
    ensures forall nb :: TopServes(s.book.ch, s.top, nb) ==> TopIs(s.book.ch, s.top)
  {
    hide Inv, LivePart, FastPart, DeadPart, Starts, Total, Holes;
  }

  lemma NothingFits(s: Snapshot, nb: int)
    requires Exhausted(s, nb)
    ensures NoneFits(BinnedPart(s.book.ch), nb)
  {
    hide BinnedPart, SmallHit, ExactHit, RemainderHit, NoneFits, TopServes;
  }

  /** The heap and the answers of MORECORE decide what malloc returns, and how; only among best fits of one size do
      they leave a choice, which is made by their order in the bin. */
  lemma MallocDetermined(s0: Snapshot, fast: bool, head: int, s: Snapshot, s': Snapshot, nb: int, how: Outcome,
      how': Outcome, m: int, m': int, a0: seq<Answer>, a1: seq<Answer>)
    requires MallocResult(s0, fast, head, s, nb, how, m, a0, a1)
      && MallocResult(s0, fast, head, s', nb, how', m', a0, a1)
    requires s.lastRemainder == s'.lastRemainder && nb % 8 == 0
    ensures how' == how
    ensures if how.BestFit? then Equals(s, s', m - 8, m' - 8) else m' == m
  {
    hide Consolidated, Ordered, ListChoice, ChosenFrom, TopServes, Alike, Equals, NoneFits, TopFrom, MoreCoreRequest,
      Enough, BinnedPart, Exhausted;
    if head == 0 {
      if fast && (nb >= MIN_LARGE_SIZE || Exhausted(s0, nb)) {
        if nb < MIN_LARGE_SIZE {
          NothingFits(s0, nb);
        }
        ConsolidatedAlike(s0, s, s', nb, if nb >= MIN_LARGE_SIZE then UnsortedIn(s0.book.bins) else []);
        ConsolidatedGrant(s, s', s0.book, if |a1| > |a0| then a1[|a0|] else Answer(0, 0, 0));
        GrantEnough(s, s', s0.book, if |a1| > |a0| then a1[|a0|] else Answer(0, 0, 0), nb);
      }
      SameChoice(s, s', nb);
      if !ListChoice(s, nb).Refused? {
        SameChunk(s, s', nb, how, m - 8, m' - 8);
      }
    }
  }
}
