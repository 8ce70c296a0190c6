/** mallinfo: the free bytes counted by walking the lists, and what follows for the bytes in use. */
module Mallinfo {
  import opened Memory
  import opened Ring
  import opened Heap
  import opened HeapSteps
  import opened TopSteps
  import opened Census
  import opened MapSum
  import opened FreeSteps
  import Joining
  import opened AllocSteps
  import opened SystemSteps
  import opened Arena

  // ---------------------------------------------------------------- conservation of bytes

  /** Each chunk is in one class: in use, on a fastbin, on a bin, top, dead, or in transit. */
  ghost function Class(k: Kind): int {
    match k
    case Live => 0
    case Fast => 1
    case Binned(_) => 2
    case Top => 3
    case Hole => 5
    case _ => 4
  }

  ghost function ClassSize(ch: Chunks, c: int, p: int): int {
    if p in ch && Class(ch[p].kind) == c then ch[p].size else 0
  }

  ghost function ClassPart(ch: Chunks, c: int): map<int, int> {
    map p | p in ch && Class(ch[p].kind) == c :: ClassSize(ch, c, p)
  }

  ghost function ClassTotal(ch: Chunks, c: int): int { Sum(ClassPart(ch, c)) }

  lemma ClassWithout(ch: Chunks, p: int, c: int)
    requires p in ch
    ensures ClassTotal(ch, c) == ClassTotal(ch - {p}, c) + if Class(ch[p].kind) == c then ch[p].size else 0
  {
    var ch' := ch - {p};
    assert ClassPart(ch', c) == ClassPart(ch, c) - {p};
    if Class(ch[p].kind) == c {
      SumRemove(ClassPart(ch, c), p);
    } else {
      assert ClassPart(ch, c) - {p} == ClassPart(ch, c);
    }
  }

  lemma HasChunk(ch: Chunks)
    requires ch != map[]
    ensures exists p :: p in ch
  {
    assert (forall p :: p !in ch) ==> ch == map[];
  }

  /** All bytes are accounted for, class by class. */
  lemma {:induction false} TotalByClass(ch: Chunks)
    ensures Total(ch) ==
      ClassTotal(ch, 0) + ClassTotal(ch, 1) + ClassTotal(ch, 2)
      + ClassTotal(ch, 3) + ClassTotal(ch, 4) + ClassTotal(ch, 5)
    decreases |ch|
  {
    if ch == map[] {
      assert Sizes(ch) == map[];
      assert forall c :: ClassPart(ch, c) == map[];
    } else {
      HasChunk(ch);
      var p :| p in ch;
      var ch' := ch - {p};
      TotalByClass(ch');
      SumRemove(Sizes(ch), p);
      assert Sizes(ch') == Sizes(ch) - {p};
      ClassWithout(ch, p, 0);
      ClassWithout(ch, p, 1);
      ClassWithout(ch, p, 2);
      ClassWithout(ch, p, 3);
      ClassWithout(ch, p, 4);
      ClassWithout(ch, p, 5);
    }
  }

  ghost function TopBytes(ch: Chunks, t: int): int {
    if t in ch then ch[t].size else 0
  }

  lemma TopTotal(m: Mem, ch: Chunks, t: int)
    requires TopOk(m, ch, t)
    ensures ClassTotal(ch, 3) == TopBytes(ch, t)
  {
    if TopIs(ch, t) {
      SumRemove(ClassPart(ch, 3), t);
      assert ClassPart(ch, 3) - {t} == map[];
    } else {
      assert ClassPart(ch, 3) == map[];
    }
  }

  lemma NamedParts(ch: Chunks)
    requires Holes(ch) == {}
    ensures ClassPart(ch, 0) == LivePart(ch) && ClassPart(ch, 1) == FastPart(ch) && ClassPart(ch, 4) == DeadPart(ch)
      && ClassTotal(ch, 5) == 0
  {
    forall p | p in ch
      ensures !ch[p].kind.Hole?
    {
      assert p !in Holes(ch);
    }
    assert ClassPart(ch, 5) == map[];
  }

  /** Memory obtained from the system is in use, free, top, or lost to fenceposts; nothing else. */
  lemma Conservation(m: Mem, fb: seq<int>, b: Book, t: int)
    requires Inv(m, fb, b) && TopOk(m, b.ch, t) && Holes(b.ch) == {}
    ensures Total(b.ch) ==
      Sum(LivePart(b.ch)) + Sum(FastPart(b.ch)) + ClassTotal(b.ch, 2) + TopBytes(b.ch, t) + Sum(DeadPart(b.ch))
  {
    hide Inv, Total, LivePart, FastPart, DeadPart, TopPart, ClassPart, TopOk;
    TotalByClass(b.ch);
    TopTotal(m, b.ch, t);
    NamedParts(b.ch);
  }

  ghost function FreeBytes(b: Book, t: int): int {
    Sum(FastPart(b.ch)) + ClassTotal(b.ch, 2) + TopBytes(b.ch, t)
  }

  /** Whatever consolidation or sorting did in between: with the same memory, the same blocks in use and the same
      fenceposts, there are as many free bytes as before. */
  lemma FreeBytesKept(m: Mem, fb: seq<int>, b: Book, t: int, m': Mem, fb': seq<int>, b': Book, t': int)
    requires Inv(m, fb, b) && TopOk(m, b.ch, t) && Holes(b.ch) == {}
    requires Inv(m', fb', b') && TopOk(m', b'.ch, t') && Holes(b'.ch) == {}
    requires Total(b'.ch) == Total(b.ch) && LivePart(b'.ch) == LivePart(b.ch) && DeadPart(b'.ch) == DeadPart(b.ch)
    ensures FreeBytes(b', t') == FreeBytes(b, t)
  {
    hide Inv, TopOk, Sum, ClassTotal;
    Conservation(m, fb, b, t);
    Conservation(m', fb', b', t');
  }

  // ---------------------------------------------------------------- consolidation and top

  lemma SameFreeTotal(ch: Chunks, ch': Chunks)
    requires SameFree(BinnedPart(ch), BinnedPart(ch'))
    ensures ClassTotal(ch', 2) == ClassTotal(ch, 2)
  {
    forall p
      ensures p in ClassPart(ch, 2) <==> p in ClassPart(ch', 2)
      ensures p in ClassPart(ch, 2) && p in ClassPart(ch', 2) ==> ClassPart(ch, 2)[p] == ClassPart(ch', 2)[p]
    {
      assert p in BinnedPart(ch) <==> p in BinnedPart(ch');
    }
    assert ClassPart(ch', 2) == ClassPart(ch, 2);
  }

  lemma NoFastTotal(ch: Chunks, ch': Chunks)
    requires (forall p :: p !in FastPart(ch)) && (forall p :: p !in FastPart(ch'))
    ensures Sum(FastPart(ch')) == Sum(FastPart(ch))
  {
    assert FastPart(ch') == FastPart(ch);
  }

  /** Top begins at the same address in every consolidation of a heap. */
  lemma TopStart(s: Snapshot, s': Snapshot, b: Book)
    requires Consolidated(s, b) && Consolidated(s', b) && TopIs(s.book.ch, s.top)
    ensures s.top in s'.book.ch && s'.book.ch[s.top].kind.Top?
  {
    hide BinnedPart, LivePart, DeadPart, Total, FastListed, Rings, Chains, Listed;
    var ch, ch', t := s.book.ch, s'.book.ch, s.top;
    var l := ch[t].prev;
    assert TileOk(ch, t) && TagOk(s.mem, ch, t);
    if l == NONE {
      assert t in Starts(ch);
    } else {
      NeverFastOrHole(ch, l);
      InUseSame(ch, ch', l);
      assert TileOk(ch', l);
    }
    NeverFastOrHole(ch', t);
    if InUse(ch', t) {
      InUseSame(ch', ch, t);
    } else if ch'[t].kind.Binned? {
      FreeSame(s', s, b, t);
    }
  }

  /** The heap decides what consolidating its fastbins makes of top, too. */
  lemma ConsolidatedTop(s: Snapshot, s': Snapshot, b: Book)
    requires Consolidated(s, b) && Consolidated(s', b)
    ensures TopBytes(s.book.ch, s.top) == TopBytes(s'.book.ch, s'.top)
    ensures TopIs(s.book.ch, s.top) ==> TopIs(s'.book.ch, s'.top) && s'.top == s.top
    ensures forall nb :: TopServes(s.book.ch, s.top, nb) <==> TopServes(s'.book.ch, s'.top, nb)
  {
    hide Inv, Total, LivePart, FastPart, DeadPart, BinnedPart, Starts, ClassTotal, Sum, SameFree;
    ConsolidatedUnique(s, s', b);
    SameFreeTotal(s.book.ch, s'.book.ch);
    NoFastTotal(s.book.ch, s'.book.ch);
    Conservation(s.mem, s.fastbins, s.book, s.top);
    Conservation(s'.mem, s'.fastbins, s'.book, s'.top);
    if TopIs(s.book.ch, s.top) {
      TopStart(s, s', b);
    }
    if TopIs(s'.book.ch, s'.top) {
      TopStart(s', s, b);
    }
  }

  /** Once the fastbins are empty, no two free chunks touch, and none touches top. */
  lemma NoneAdjacent(m: Mem, fb: seq<int>, b: Book, p: int)
    requires Inv(m, fb, b) && Holes(b.ch) == {} && (forall q :: q !in FastPart(b.ch)) && p in b.ch
      && b.ch[p].kind.Binned?
    ensures Succ(b.ch, p) in b.ch
      && (b.ch[Succ(b.ch, p)].kind.Live? || b.ch[Succ(b.ch, p)].kind.Fence? || b.ch[Succ(b.ch, p)].kind.Slack?)
    ensures b.ch[p].prev == NONE || (b.ch[p].prev in b.ch
      && (b.ch[b.ch[p].prev].kind.Live? || b.ch[b.ch[p].prev].kind.Slack?))
  {
    assert TileOk(b.ch, p) && TagOk(m, b.ch, p);
    var n, q := Succ(b.ch, p), b.ch[p].prev;
    assert TagOk(m, b.ch, n) && n !in FastPart(b.ch) && n !in Holes(b.ch);
    if q != NONE {
      assert TileOk(b.ch, q) && q !in FastPart(b.ch) && q !in Holes(b.ch);
    }
  }

  // ---------------------------------------------------------------- walking the lists

  /** The chunks still to be counted: those of later lists, and the given part of list i. */
  ghost predicate FastRest(fp: map<int, int>, rest: map<int, int>, i: int, s: seq<int>) {
    && (forall p :: p in rest ==> p in fp && rest[p] == fp[p])
    && (forall p {:trigger p in rest} :: p in fp ==> (p in rest <==> FastIndex(fp[p]) > i || p in s))
  }

  lemma FastRestStart(m: Mem, fb: seq<int>, b: Book, rest: map<int, int>, i: int)
    requires Inv(m, fb, b) && 0 <= i < NFASTBINS && FastRest(FastPart(b.ch), rest, i - 1, [])
    ensures |b.fast| == NFASTBINS && |fb| == NFASTBINS && FastRest(FastPart(b.ch), rest, i, b.fast[i])
      && fb[i] == Link(b.fast[i], 0)
    ensures forall k :: 0 <= k < |b.fast[i]| ==> b.fast[i][k] != 0
  {
    assert IsChain(m, fb[i], b.fast[i]) && FastOk(FastPart(b.ch), b.fast[i], i);
    forall k | 0 <= k < |b.fast[i]|
      ensures b.fast[i][k] != 0
    {
      FastMember(FastPart(b.ch), b.fast[i], i, k);
      assert TileOk(b.ch, b.fast[i][k]);
    }
  }

  lemma FastRestStep(fp: map<int, int>, rest: map<int, int>, s: seq<int>, i: int, k: int)
    requires FastOk(fp, s, i) && 0 <= k < |s| && FastRest(fp, rest, i, s[k..])
    ensures s[k] in rest && s[k] in fp && rest[s[k]] == fp[s[k]] && FastRest(fp, rest - {s[k]}, i, s[k + 1..])
  {
    var p := s[k];
    FastMember(fp, s, i, k);
    assert p in s[k..];
    forall q | q in fp
      ensures q in rest - {p} <==> FastIndex(fp[q]) > i || q in s[k + 1..]
    {
      SuffixMember(s, k, q);
    }
  }

  lemma FastWalk(m: Mem, fb: seq<int>, b: Book, i: int, k: int)
    requires Inv(m, fb, b) && 0 <= i < NFASTBINS && |b.fast| == NFASTBINS && 0 <= k < |b.fast[i]|
    ensures FastOk(FastPart(b.ch), b.fast[i], i)
    ensures var p := b.fast[i][k];
            && Fd(m, p) == Link(b.fast[i], k + 1) && p in FastPart(b.ch) && p in b.ch && b.ch[p].kind.Fast?
               && FastPart(b.ch)[p] == b.ch[p].size
            && HeadSize(b.ch[p]) == b.ch[p].size
  {
    hide Tiled, Tagged, Listed, Rings;
    assert IsChain(m, fb[i], b.fast[i]) && FastOk(FastPart(b.ch), b.fast[i], i);
    FastMember(FastPart(b.ch), b.fast[i], i, k);
  }

  lemma FastRestNext(m: Mem, fb: seq<int>, b: Book, rest: map<int, int>, i: int, k: int)
    requires Inv(m, fb, b) && 0 <= i < NFASTBINS && |b.fast| == NFASTBINS && 0 <= k < |b.fast[i]|
    requires FastRest(FastPart(b.ch), rest, i, b.fast[i][k..])
    ensures var p := b.fast[i][k];
            && p in rest && rest[p] == ChunkSize(At(m, p + 4))
               && FastRest(FastPart(b.ch), rest - {p}, i, b.fast[i][k + 1..])
            && Fd(m, p) == Link(b.fast[i], k + 1)
  {
    hide Inv, FastOk, FastRest, FastPart, HeadSize, ChunkSize;
    FastWalk(m, fb, b, i, k);
    FastRestStep(FastPart(b.ch), rest, b.fast[i], i, k);
    HeadRead(m, fb, b, b.fast[i][k]);
  }

  lemma SuffixMember(s: seq<int>, k: int, q: int)
    requires 0 <= k < |s| && NoDup(s)
    ensures q in s[k + 1..] <==> q in s[k..] && q != s[k]
  {
    assert s[k..] == [s[k]] + s[k + 1..];
  }

  lemma SumEmpty(rest: map<int, int>)
    requires forall p :: p !in rest
    ensures Sum(rest) == 0 && |rest| == 0
  {
    if rest != map[] {
      HasKey(rest);
    }
  }

  lemma CountRemove(rest: map<int, int>, p: int)
    requires p in rest
    ensures |rest| == |rest - {p}| + 1 && Sum(rest) == rest[p] + Sum(rest - {p})
  {
    SumRemove(rest, p);
    assert (rest - {p}).Keys == rest.Keys - {p};
  }

  ghost predicate BinRest(bp: map<int, Entry>, sizes: map<int, int>, rest: map<int, int>, i: int, s: seq<int>) {
    && (forall p :: p in rest ==> p in sizes && rest[p] == sizes[p])
    && (forall p {:trigger p in rest} :: p in bp ==> (p in rest <==> bp[p].bin > i || p in s))
  }

  lemma BinnedSizes(ch: Chunks)
    ensures forall p :: p in ClassPart(ch, 2) <==> p in BinnedPart(ch)
    ensures forall p :: p in BinnedPart(ch) ==> ClassPart(ch, 2)[p] == BinnedPart(ch)[p].size
  {
  }

  lemma BinRestStart(m: Mem, fb: seq<int>, b: Book, rest: map<int, int>, i: int)
    requires Inv(m, fb, b) && 1 <= i < NBINS && BinRest(BinnedPart(b.ch), ClassPart(b.ch, 2), rest, i - 1, [])
    ensures |b.bins| == NBINS && BinRest(BinnedPart(b.ch), ClassPart(b.ch, 2), rest, i, b.bins[i])
    ensures Bk(m, BinAt(i)) == Node(BinAt(i), b.bins[i], |b.bins[i]| - 1)
  {
    RingHead(m, fb, b, i);
    assert BinOk(BinnedPart(b.ch), b.bins[i], i);
    forall p | p in BinnedPart(b.ch)
      ensures p in rest <==> BinnedPart(b.ch)[p].bin > i || p in b.bins[i]
    {
      BinnedWhere(m, fb, b, p);
    }
  }

  lemma BinRestStep(bp: map<int, Entry>, sizes: map<int, int>, rest: map<int, int>, s: seq<int>, i: int, k: int)
    requires BinOk(bp, s, i) && 0 <= k < |s| && BinRest(bp, sizes, rest, i, s[..k + 1])
    ensures s[k] in rest && s[k] in sizes && rest[s[k]] == sizes[s[k]] && BinRest(bp, sizes, rest - {s[k]}, i, s[..k])
  {
    var p := s[k];
    BinMember(bp, s, i, k);
    assert p in s[..k + 1];
    forall q | q in bp
      ensures q in rest - {p} <==> bp[q].bin > i || q in s[..k]
    {
      PrefixMember(s, k, q);
    }
  }

  lemma BinRestNext(m: Mem, fb: seq<int>, b: Book, rest: map<int, int>, i: int, k: int)
    requires Inv(m, fb, b) && 1 <= i < NBINS && |b.bins| == NBINS && 0 <= k < |b.bins[i]|
    requires BinRest(BinnedPart(b.ch), ClassPart(b.ch, 2), rest, i, b.bins[i][..k + 1])
    ensures var p := b.bins[i][k];
            && p in rest && rest[p] == ChunkSize(At(m, p + 4)) && p != BinAt(i)
            && BinRest(BinnedPart(b.ch), ClassPart(b.ch, 2), rest - {p}, i, b.bins[i][..k])
            && Bk(m, p) == Node(BinAt(i), b.bins[i], k - 1)
  {
    hide Inv, BinOk, BinRest, BinnedPart, ClassPart, ChunkSize;
    var s := b.bins[i];
    BinIsOk(m, fb, b, i);
    BinWalk(m, fb, b, i, k);
    BinSizes(m, fb, b, s[k]);
    HeadRead(m, fb, b, s[k]);
    BinnedSizes(b.ch);
    BinRestStep(BinnedPart(b.ch), ClassPart(b.ch, 2), rest, s, i, k);
  }

  lemma BinIsOk(m: Mem, fb: seq<int>, b: Book, i: int)
    requires Inv(m, fb, b) && 1 <= i < NBINS && |b.bins| == NBINS
    ensures BinOk(BinnedPart(b.ch), b.bins[i], i)
  {
  }

  lemma PrefixMember(s: seq<int>, k: int, q: int)
    requires 0 <= k < |s| && NoDup(s)
    ensures q in s[..k] <==> q in s[..k + 1] && q != s[k]
  {
    assert s[..k + 1] == s[..k] + [s[k]];
  }

  /** The counts that depend on the heap. */
  datatype Info = Info(smblks: int, ordblks: int, fsmblks: int, fordblks: int, uordblks: int, arena: int, keepcost: int)

  /** Fastbins, by their chains. */
  method CountFast(av: MallocState) returns (blocks: int, bytes: int)
    requires av.Settled()
    ensures blocks == |FastPart(av.book.ch)| && bytes == Sum(FastPart(av.book.ch))
  {
    hide Inv, MapOk, FastPart, BinnedPart, Holes, Total, TopOk, FastLimits, FastRest, Sum;
    ghost var rest := FastPart(av.book.ch);
    FastRestAll(av.mem, av.fastbins, av.book);
    blocks, bytes := 0, 0;
    for i := 0 to NFASTBINS
      invariant FastRest(FastPart(av.book.ch), rest, i - 1, [])
      invariant blocks + |rest| == |FastPart(av.book.ch)| && bytes + Sum(rest) == Sum(FastPart(av.book.ch))
    {
      FastRestStart(av.mem, av.fastbins, av.book, rest, i);
      ghost var s := av.book.fast[i];
      ghost var k := 0;
      var p := av.fastbins[i];
      assert s[0..] == s;
      while p != 0
        invariant 0 <= k <= |s| && p == Link(s, k) && FastRest(FastPart(av.book.ch), rest, i, s[k..])
        invariant blocks + |rest| == |FastPart(av.book.ch)| && bytes + Sum(rest) == Sum(FastPart(av.book.ch))
        decreases |s| - k
      {
        FastRestNext(av.mem, av.fastbins, av.book, rest, i, k);
        CountRemove(rest, p);
        blocks := blocks + 1;
        bytes := bytes + ChunkSize(At(av.mem, p + 4));
        rest := rest - {p};
        p := Fd(av.mem, p);
        k := k + 1;
      }
      assert s[k..] == [];
    }
    FastRestNone(av.mem, av.fastbins, av.book, rest);
    SumEmpty(rest);
  }

  lemma FastRestAll(m: Mem, fb: seq<int>, b: Book)
    requires Inv(m, fb, b)
    ensures FastRest(FastPart(b.ch), FastPart(b.ch), -1, [])
  {
  }

  lemma FastRestNone(m: Mem, fb: seq<int>, b: Book, rest: map<int, int>)
    requires Inv(m, fb, b) && FastRest(FastPart(b.ch), rest, NFASTBINS - 1, [])
    ensures forall p :: p !in rest
  {
    assert forall p :: p in rest ==> p in FastPart(b.ch) && FastIndex(FastPart(b.ch)[p]) < NFASTBINS;
  }

  /** Regular bins, from the back of each list to its front. */
  method CountBinned(av: MallocState) returns (blocks: int, bytes: int)
    requires av.Settled()
    ensures blocks == |BinnedPart(av.book.ch)| && bytes == ClassTotal(av.book.ch, 2)
  {
    hide Inv, MapOk, FastPart, BinnedPart, Holes, Total, TopOk, FastLimits, AnyLimits, BinRest, ClassPart, Sum;
    ghost var all, rest := ClassPart(av.book.ch, 2), ClassPart(av.book.ch, 2);
    BinRestAll(av.mem, av.fastbins, av.book);
    blocks, bytes := 0, 0;
    for i := 1 to NBINS
      invariant BinRest(BinnedPart(av.book.ch), all, rest, i - 1, [])
      invariant blocks + |rest| == |all| && bytes + Sum(rest) == Sum(all)
    {
      BinRestStart(av.mem, av.fastbins, av.book, rest, i);
      ghost var s := av.book.bins[i];
      ghost var k := |s|;
      var b := BinAt(i);
      var p := Bk(av.mem, b);
      assert s[..|s|] == s;
      while p != b
        invariant 0 <= k <= |s| && p == Node(b, s, k - 1) && BinRest(BinnedPart(av.book.ch), all, rest, i, s[..k])
        invariant blocks + |rest| == |all| && bytes + Sum(rest) == Sum(all)
        decreases k
      {
        BinRestNext(av.mem, av.fastbins, av.book, rest, i, k - 1);
        CountRemove(rest, p);
        blocks := blocks + 1;
        bytes := bytes + ChunkSize(At(av.mem, p + 4));
        rest := rest - {p};
        p := Bk(av.mem, p);
        k := k - 1;
      }
      BinRestEnd(av.mem, av.fastbins, av.book, rest, i, k);
    }
    BinRestNone(av.mem, av.fastbins, av.book, rest);
    SumEmpty(rest);
  }

  lemma BinRestAll(m: Mem, fb: seq<int>, b: Book)
    requires Inv(m, fb, b)
    ensures BinRest(BinnedPart(b.ch), ClassPart(b.ch, 2), ClassPart(b.ch, 2), 0, [])
      && |ClassPart(b.ch, 2)| == |BinnedPart(b.ch)|
  {
    BinnedSizes(b.ch);
    assert ClassPart(b.ch, 2).Keys == BinnedPart(b.ch).Keys;
    forall p | p in BinnedPart(b.ch)
      ensures BinnedPart(b.ch)[p].bin > 0
    {
      BinnedWhere(m, fb, b, p);
    }
  }

  lemma BinRestEnd(m: Mem, fb: seq<int>, b: Book, rest: map<int, int>, i: int, k: int)
    requires Inv(m, fb, b) && 1 <= i < NBINS && |b.bins| == NBINS && 0 <= k <= |b.bins[i]|
    requires BinRest(BinnedPart(b.ch), ClassPart(b.ch, 2), rest, i, b.bins[i][..k])
      && Node(BinAt(i), b.bins[i], k - 1) == BinAt(i)
    ensures BinRest(BinnedPart(b.ch), ClassPart(b.ch, 2), rest, i, [])
  {
    if k > 0 {
      BinWalk(m, fb, b, i, k - 1);
    }
    assert b.bins[i][..0] == [];
  }

  lemma BinRestNone(m: Mem, fb: seq<int>, b: Book, rest: map<int, int>)
    requires Inv(m, fb, b) && BinRest(BinnedPart(b.ch), ClassPart(b.ch, 2), rest, NBINS - 1, [])
    ensures forall p :: p !in rest
  {
    BinnedSizes(b.ch);
    forall p
      ensures p !in rest
    {
      if p in BinnedPart(b.ch) {
        BinnedWhere(m, fb, b, p);
      }
    }
  }

  /** mALLINFo: free bytes are those on lists plus top, and the rest of what the system gave is in use. */
  method MallInfo(av: MallocState) returns (mi: Info)
    requires av.Valid()
    modifies av
    ensures av.Settled() && av.Valid() && LivePart(av.book.ch) == old(LivePart(av.book.ch))
      && SamePayload(old(av.mem), av.mem, LivePart(av.book.ch))
    ensures mi.arena == av.sbrkedMem == mi.fordblks + mi.uordblks && mi.keepcost == TopBytes(av.book.ch, av.top)
    ensures mi.smblks == |FastPart(av.book.ch)| && mi.ordblks == |BinnedPart(av.book.ch)| + 1
      && mi.fsmblks == Sum(FastPart(av.book.ch))
    ensures mi.fordblks == mi.keepcost + mi.fsmblks + ClassTotal(av.book.ch, 2)
    ensures mi.uordblks == Sum(LivePart(av.book.ch)) + Sum(DeadPart(av.book.ch))
  {
    hide Inv, MapOk, LivePart, FastPart, BinnedPart, DeadPart, TopPart, Holes, Sum, TopIs, SamePayload, Joining.SpaceOf,
      Joining.FastJoined, Total, Starts;
    PayloadOfSame(av.mem, LivePart(av.book.ch));
    if av.top == 0 {
      av.MallocConsolidate();
    }
    TopRead(av.mem, av.fastbins, av.book, av.top);
    Conservation(av.mem, av.fastbins, av.book, av.top);
    var avail := ChunkSize(At(av.mem, av.top + 4));
    var nfastblocks, fastavail := CountFast(av);
    avail := avail + fastavail;
    var nblocks, binavail := CountBinned(av);
    avail := avail + binavail;
    mi := Info(nfastblocks, nblocks + 1, fastavail, avail, av.sbrkedMem - avail, av.sbrkedMem,
      ChunkSize(At(av.mem, av.top + 4)));
  }
}
