/** How the steps that malloc, free and realloc are made of keep the invariant. */
module HeapSteps {
  import opened Memory
  import opened Ring
  import opened Heap
  import BinIndex

  // ---------------------------------------------------------------- which words can collide

  ghost predicate IsHeader(y: int) {
    BINS <= y + 8 && y + 16 <= HEAP_BASE
  }

  /** Something that may stand on a circular list: a bin header, or a chunk with room for links. */
  ghost predicate IsNode(ch: Chunks, y: int) {
    IsHeader(y) || (y in ch && !ch[y].kind.Fence? && !ch[y].kind.Slack?)
  }

  /** The link words of y belong to no boundary tag, and to no chunk but y. */
  ghost predicate LinksFree(ch: Chunks, x: int, w: int)
    requires x in ch
  {
    && w != x + 4 && w != Succ(ch, x)
    && (ch[x].kind.Fence? ==> w != x + 8)
  }

  lemma LinkWords(ch: Chunks, x: int, y: int)
    requires Tiled(ch) && x in ch && IsNode(ch, y)
    ensures LinksFree(ch, x, y + 8) && LinksFree(ch, x, y + 12)
    ensures x != y ==> !(x + 8 <= y + 8 < Succ(ch, x) + 4) && !(x + 8 <= y + 12 < Succ(ch, x) + 4)
  {
    assert TileOk(ch, x);
    if y in ch {
      assert TileOk(ch, y);
      assert x < y ==> Before(ch, x, y);
      assert y < x ==> Before(ch, y, x);
    }
  }

  /** Distinct nodes do not share link words. */
  lemma NodesDisjoint(ch: Chunks, x: int, y: int)
    requires Tiled(ch) && IsNode(ch, x) && IsNode(ch, y) && x != y && !(IsHeader(x) && IsHeader(y))
    ensures Apart(x, y)
  {
    if x in ch {
      assert TileOk(ch, x);
    }
    if y in ch {
      assert TileOk(ch, y);
    }
    if x in ch && y in ch {
      assert x < y ==> Before(ch, x, y);
      assert y < x ==> Before(ch, y, x);
    }
  }

  // ---------------------------------------------------------------- changing the kind of one chunk

  ghost function Retag(ch: Chunks, p: int, k: Kind): Chunks
    requires p in ch
  {
    ch[p := ch[p].(kind := k)]
  }

  ghost predicate Ordinary(k: Kind) {
    k.Live? || k.Fast? || k.Binned? || k.Hole?
  }

  lemma RetagTiled(ch: Chunks, p: int, k: Kind)
    requires Tiled(ch) && p in ch && Ordinary(ch[p].kind) && Ordinary(k)
    ensures Tiled(Retag(ch, p, k))
  {
    var ch' := Retag(ch, p, k);
    forall x | x in ch'
      ensures TileOk(ch', x)
    {
      assert TileOk(ch, x);
    }
    forall x, y | x in ch' && y in ch' && x < y
      ensures Before(ch', x, y)
    {
      assert Before(ch, x, y);
    }
  }

  lemma RetagParts(ch: Chunks, p: int, k: Kind)
    requires p in ch
    ensures LivePart(Retag(ch, p, k)) == if k.Live? then LivePart(ch)[p := ch[p].size] else LivePart(ch) - {p}
    ensures FastPart(Retag(ch, p, k)) == if k.Fast? then FastPart(ch)[p := ch[p].size] else FastPart(ch) - {p}
    ensures BinnedPart(Retag(ch, p, k)) == if k.Binned? then BinnedPart(ch)[p := Entry(ch[p].size, k.bin)]
      else BinnedPart(ch) - {p}
  {
  }

  // ---------------------------------------------------------------- stores that leave the tags alone

  ghost predicate SameBut(m: Mem, m': Mem, w: set<int>) {
    forall a {:trigger At(m', a)} :: a !in w ==> At(m', a) == At(m, a)
  }

  lemma TaggedByLinks(m: Mem, m': Mem, ch: Chunks, w: set<int>)
    requires Tagged(m, ch) && SameBut(m, m', w)
    requires forall x, a :: x in ch && a in w ==> LinksFree(ch, x, a)
    ensures Tagged(m', ch)
  {
    forall x | x in ch
      ensures TagOk(m', ch, x)
    {
      assert TagOk(m, ch, x);
    }
  }

  ghost predicate LinkStores(ch: Chunks, w: set<int>) {
    forall x, a :: x in ch && a in w ==> LinksFree(ch, x, a)
  }

  /** The words that carry p's tags: its size word, its footer, and the size word that follows. */
  ghost function TagWords(ch: Chunks, p: int): set<int>
    requires p in ch
  {
    {p + 4, Succ(ch, p), Succ(ch, p) + 4}
  }

  lemma TagWordsOwn(ch: Chunks, x: int, p: int)
    requires Tiled(ch) && x in ch && p in ch && Ordinary(ch[p].kind) && x != p && x != Succ(ch, p)
    ensures forall a :: a in TagWords(ch, p) ==> LinksFree(ch, x, a)
  {
    assert TileOk(ch, x) && TileOk(ch, p);
    var n := Succ(ch, p);
    assert TileOk(ch, n);
    assert x < p ==> Before(ch, x, p);
    assert p < x ==> Before(ch, p, x);
    assert x < n ==> Before(ch, x, n);
    assert n < x ==> Before(ch, n, x);
  }

  lemma RetagTagged(m: Mem, m': Mem, ch: Chunks, p: int, k: Kind, w: set<int>)
    requires Tiled(ch) && Tagged(m, ch) && p in ch && Ordinary(ch[p].kind) && Ordinary(k)
    requires LinkStores(ch, w) && SameBut(m, m', w + TagWords(ch, p))
    requires TagOk(m', Retag(ch, p, k), p)
    requires assert TileOk(ch, p); TagOk(m', Retag(ch, p, k), Succ(ch, p))
    ensures Tagged(m', Retag(ch, p, k))
  {
    var ch' := Retag(ch, p, k);
    assert TileOk(ch, p);
    forall x | x in ch'
      ensures TagOk(m', ch', x)
    {
      if x != p && x != Succ(ch, p) {
        assert TagOk(m, ch, x) && TileOk(ch, x);
        TagWordsOwn(ch, x, p);
        assert ch[x].prev != p;
        TagKept(m, m', ch, ch', x, w + TagWords(ch, p));
      }
    }
  }

  lemma TagKept(m: Mem, m': Mem, ch: Chunks, ch': Chunks, x: int, w: set<int>)
    requires x in ch && x in ch' && TagOk(m, ch, x) && ch'[x] == ch[x]
    requires PrevFree(ch, x) == PrevFree(ch', x) && PrevHole(ch, x) == PrevHole(ch', x)
    requires SameBut(m, m', w) && forall a :: a in w ==> LinksFree(ch, x, a)
    ensures TagOk(m', ch', x)
  {
  }

  // ---------------------------------------------------------------- lists

  lemma WithoutMember(s: seq<int>, k: int)
    requires 0 <= k < |s| && NoDup(s)
    ensures forall x :: x in Without(s, k) <==> x in s && x != s[k]
    ensures NoDup(Without(s, k))
  {
    var t := Without(s, k);
    forall x | x in s && x != s[k]
      ensures x in t
    {
      var j :| 0 <= j < |s| && s[j] == x;
      assert t[if j < k then j else j - 1] == x;
    }
  }

  lemma WithMember(s: seq<int>, k: int, p: int)
    requires 0 <= k <= |s| && NoDup(s) && p !in s
    ensures forall x :: x in With(s, k, p) <==> x in s || x == p
    ensures NoDup(With(s, k, p))
  {
    var t := With(s, k, p);
    assert s == s[..k] + s[k..];
    forall j, l | 0 <= j < l < |t|
      ensures t[j] != t[l]
    {
      assert t[j] == if j < k then s[j] else if j == k then p else s[j - 1];
      assert t[l] == if l < k then s[l] else if l == k then p else s[l - 1];
    }
  }

  lemma ListedWithout(bp: map<int, Entry>, bins: seq<seq<int>>, i: int, k: int)
    requires Listed(bp, bins) && 1 <= i < NBINS && 0 <= k < |bins[i]|
    ensures Listed(bp - {bins[i][k]}, bins[i := Without(bins[i], k)])
  {
    var p, s, t := bins[i][k], bins[i], Without(bins[i], k);
    var bp', bins' := bp - {p}, bins[i := t];
    assert BinOk(bp, s, i);
    WithoutMember(s, k);
    forall j | 1 <= j < NBINS
      ensures BinOk(bp', bins'[j], j)
    {
      assert BinOk(bp, bins[j], j);
      assert p in s;
      if j == i {
        BinWithout(bp, s, i, k);
      } else {
        BinFrame(bp, bp', bins[j], j);
      }
    }
    forall x | x in bp'
      ensures x in bins'[bp'[x].bin]
    {
      assert x in bins[bp[x].bin];
    }
  }

  lemma BinFrame(bp: map<int, Entry>, bp': map<int, Entry>, s: seq<int>, i: int)
    requires BinOk(bp, s, i)
    requires forall x :: x in s ==> x in bp' && bp'[x] == bp[x]
    ensures BinOk(bp', s, i)
  {
  }

  lemma BinWithout(bp: map<int, Entry>, s: seq<int>, i: int, k: int)
    requires BinOk(bp, s, i) && 0 <= k < |s|
    ensures BinOk(bp - {s[k]}, Without(s, k), i)
  {
    WithoutMember(s, k);
    if i != UNSORTED {
      WithoutOrder(bp, bp - {s[k]}, s, k);
    }
  }

  lemma WithoutOrder(bp: map<int, Entry>, bp': map<int, Entry>, s: seq<int>, k: int)
    requires Descending(bp, s) && 0 <= k < |s|
    requires forall j :: 0 <= j < |s| && j != k ==> s[j] in bp && s[j] in bp' && bp'[s[j]] == bp[s[j]]
    ensures Descending(bp', Without(s, k))
  {
    var t := Without(s, k);
    forall j, l | 0 <= j < l < |t|
      ensures t[j] in bp' && t[l] in bp' && bp'[t[j]].size >= bp'[t[l]].size
    {
      assert t[j] == if j < k then s[j] else s[j + 1];
      assert t[l] == if l < k then s[l] else s[l + 1];
    }
  }

  /** Where a chunk of this size may go in a bin without breaking its order. */
  ghost predicate FitsAt(bp: map<int, Entry>, s: seq<int>, i: int, k: int, size: int) {
    && 0 <= k <= |s|
    && (i != UNSORTED ==>
        && BinIndex.BinIndex(size) == i
        && (forall j :: 0 <= j < k ==> s[j] in bp && bp[s[j]].size >= size)
        && (forall j :: k <= j < |s| ==> s[j] in bp && size >= bp[s[j]].size))
  }

  lemma BinWith(bp: map<int, Entry>, s: seq<int>, i: int, k: int, p: int, size: int)
    requires BinOk(bp, s, i) && FitsAt(bp, s, i, k, size) && p !in bp
    ensures BinOk(bp[p := Entry(size, i)], With(s, k, p), i)
  {
    WithMember(s, k, p);
    if i != UNSORTED {
      WithOrder(bp, s, i, k, p, size);
    }
  }

  lemma WithOrder(bp: map<int, Entry>, s: seq<int>, i: int, k: int, p: int, size: int)
    requires Descending(bp, s) && i != UNSORTED && FitsAt(bp, s, i, k, size) && p !in bp
    ensures Descending(bp[p := Entry(size, i)], With(s, k, p)) && BinIndex.BinIndex(size) == i
  {
    var t, bp' := With(s, k, p), bp[p := Entry(size, i)];
    forall j, l | 0 <= j < l < |t|
      ensures t[j] in bp' && t[l] in bp' && bp'[t[j]].size >= bp'[t[l]].size
    {
      assert t[j] == if j < k then s[j] else if j == k then p else s[j - 1];
      assert t[l] == if l < k then s[l] else if l == k then p else s[l - 1];
    }
  }

  lemma ListedWith(bp: map<int, Entry>, bins: seq<seq<int>>, i: int, k: int, p: int, size: int)
    requires Listed(bp, bins) && 1 <= i < NBINS && FitsAt(bp, bins[i], i, k, size) && p !in bp
    ensures Listed(bp[p := Entry(size, i)], bins[i := With(bins[i], k, p)])
  {
    var t, bp' := With(bins[i], k, p), bp[p := Entry(size, i)];
    var bins' := bins[i := t];
    assert BinOk(bp, bins[i], i);
    WithMember(bins[i], k, p);
    forall j | 1 <= j < NBINS
      ensures BinOk(bp', bins'[j], j)
    {
      assert BinOk(bp, bins[j], j);
      if j == i {
        BinWith(bp, bins[i], i, k, p, size);
      } else {
        BinFrame(bp, bp', bins[j], j);
      }
    }
    forall x | x in bp'
      ensures 1 <= bp'[x].bin < NBINS && x in bins'[bp'[x].bin]
    {
      if x != p {
        assert x in bins[bp[x].bin];
      }
    }
  }

  // ---------------------------------------------------------------- rings

  /** The nodes of one bin are apart from one another. */
  lemma BinSpaced(ch: Chunks, s: seq<int>, i: int)
    requires Tiled(ch) && 1 <= i < NBINS && BinOk(BinnedPart(ch), s, i)
    ensures Spaced(BinAt(i), s)
    ensures forall k :: -1 <= k <= |s| ==> IsNode(ch, Node(BinAt(i), s, k))
  {
    forall k | 0 <= k < |s|
      ensures BinAt(i) + 16 <= s[k] && IsNode(ch, s[k])
    {
      assert s[k] in s;
      assert TileOk(ch, s[k]);
    }
    forall j, k | 0 <= j < k < |s|
      ensures s[j] + 16 <= s[k] || s[k] + 16 <= s[j]
    {
      assert s[j] in s && s[k] in s;
      assert TileOk(ch, s[j]) && TileOk(ch, s[k]);
      NodesDisjoint(ch, s[j], s[k]);
    }
  }

  /** No word of w is a link of x. */
  ghost predicate OffLinks(x: int, w: set<int>) {
    x + 8 !in w && x + 12 !in w
  }

  lemma RingFrame(m: Mem, m': Mem, ch: Chunks, s: seq<int>, i: int, w: set<int>)
    requires BinOk(BinnedPart(ch), s, i) && RingOk(m, s, i) && SameBut(m, m', w)
    requires OffLinks(BinAt(i), w)
    requires forall x :: x in s ==> OffLinks(x, w)
    ensures RingOk(m', s, i)
  {
    forall k | 0 <= k < |s|
      ensures Fd(m', s[k]) == Fd(m, s[k]) && Bk(m', s[k]) == Bk(m, s[k])
    {
      assert s[k] in s;
    }
    FrameRing(m, m', BinAt(i), s);
  }

  /** Stores that touch no link word keep every ring. */
  lemma RingsFrame(m: Mem, m': Mem, ch: Chunks, bins: seq<seq<int>>, w: set<int>)
    requires Listed(BinnedPart(ch), bins) && Rings(m, bins) && SameBut(m, m', w)
    requires forall i {:trigger BinAt(i)} :: 1 <= i < NBINS ==> OffLinks(BinAt(i), w)
    requires forall x :: x in BinnedPart(ch) ==> OffLinks(x, w)
    ensures Rings(m', bins)
  {
    forall i | 1 <= i < NBINS
      ensures RingOk(m', bins[i], i)
    {
      assert BinOk(BinnedPart(ch), bins[i], i) && RingOk(m, bins[i], i);
      RingFrame(m, m', ch, bins[i], i, w);
    }
  }

  /** A change of links inside bin i leaves the other bins alone. */
  lemma RingsButOne(m: Mem, m': Mem, ch: Chunks, bins: seq<seq<int>>, i: int, t: seq<int>, w: set<int>)
    requires Tiled(ch) && Listed(BinnedPart(ch), bins) && Rings(m, bins) && 1 <= i < NBINS
    requires SameBut(m, m', w)
    requires forall j {:trigger BinAt(j)} :: 1 <= j < NBINS && j != i ==> OffLinks(BinAt(j), w)
    requires forall x :: x in BinnedPart(ch) && BinnedPart(ch)[x].bin != i ==> OffLinks(x, w)
    requires RingOk(m', t, i)
    ensures Rings(m', bins[i := t])
  {
    var bins' := bins[i := t];
    forall j | 1 <= j < NBINS
      ensures RingOk(m', bins'[j], j)
    {
      if j != i {
        assert BinOk(BinnedPart(ch), bins[j], j) && RingOk(m, bins[j], j);
        RingFrame(m, m', ch, bins[j], j, w);
      }
    }
  }

  ghost predicate InBinOrHeader(ch: Chunks, y: int, i: int) {
    y == BinAt(i) || (y in BinnedPart(ch) && BinnedPart(ch)[y].bin == i)
  }

  lemma HeaderLinksOff(ch: Chunks, i: int, y: int, j: int)
    requires Tiled(ch) && 1 <= i < NBINS && 1 <= j < NBINS && j != i && InBinOrHeader(ch, y, i)
    ensures OffLinks(BinAt(j), {y + 8, y + 12})
  {
    if y in ch {
      assert TileOk(ch, y);
    }
  }

  lemma ChunkLinksOff(ch: Chunks, i: int, y: int, x: int)
    requires Tiled(ch) && 1 <= i < NBINS && InBinOrHeader(ch, y, i)
    requires x in ch && IsNode(ch, x) && !InBinOrHeader(ch, x, i)
    ensures OffLinks(x, {y + 8, y + 12})
  {
    assert TileOk(ch, x);
    NodesDisjoint(ch, x, y);
  }

  lemma NodesInBin(ch: Chunks, s: seq<int>, i: int, k: int)
    requires BinOk(BinnedPart(ch), s, i)
    ensures InBinOrHeader(ch, Node(BinAt(i), s, k), i)
  {
    if 0 <= k < |s| {
      assert s[k] in s;
    }
  }

  /** Stores to the links of two nodes of bin i. */
  lemma LinkWordsOff(ch: Chunks, i: int, bck: int, fwd: int)
    requires Tiled(ch) && 1 <= i < NBINS && InBinOrHeader(ch, bck, i) && InBinOrHeader(ch, fwd, i)
    ensures forall j {:trigger BinAt(j)} :: 1 <= j < NBINS && j != i ==> OffLinks(BinAt(j), {bck + 8, fwd + 12})
    ensures forall x :: x in BinnedPart(ch) && BinnedPart(ch)[x].bin != i ==> OffLinks(x, {bck + 8, fwd + 12})
  {
    hide Tiled;
    forall j | 1 <= j < NBINS && j != i
      ensures OffLinks(BinAt(j), {bck + 8, fwd + 12})
    {
      HeaderLinksOff(ch, i, bck, j);
      HeaderLinksOff(ch, i, fwd, j);
    }
    forall x | x in BinnedPart(ch) && BinnedPart(ch)[x].bin != i
      ensures OffLinks(x, {bck + 8, fwd + 12})
    {
      BinnedAboveBins(ch, x);
      ChunkLinksOff(ch, i, bck, x);
      ChunkLinksOff(ch, i, fwd, x);
    }
  }

  lemma BinnedAboveBins(ch: Chunks, x: int)
    requires Tiled(ch) && x in ch && ch[x].kind.Binned?
    ensures HEAP_BASE <= x && IsNode(ch, x)
  {
    assert TileOk(ch, x);
  }

  lemma UnlinkedRing(m: Mem, ch: Chunks, bins: seq<seq<int>>, i: int, k: int)
    requires Tiled(ch) && Listed(BinnedPart(ch), bins) && Rings(m, bins) && 1 <= i < NBINS && 0 <= k < |bins[i]|
    ensures var p := bins[i][k];
            && RingOk(Unlinked(m, Bk(m, p), Fd(m, p)), Without(bins[i], k), i)
            && InBinOrHeader(ch, Fd(m, p), i) && InBinOrHeader(ch, Bk(m, p), i)
  {
    var s := bins[i];
    assert BinOk(BinnedPart(ch), s, i) && RingOk(m, s, i);
    BinSpaced(ch, s, i);
    UnlinkRing(m, BinAt(i), s, k);
    NodesInBin(ch, s, i, k - 1);
    NodesInBin(ch, s, i, k + 1);
  }

  lemma RingsUnlinked(m: Mem, ch: Chunks, bins: seq<seq<int>>, i: int, k: int)
    requires Tiled(ch) && Listed(BinnedPart(ch), bins) && Rings(m, bins) && 1 <= i < NBINS && 0 <= k < |bins[i]|
    ensures var p := bins[i][k];
            Rings(Unlinked(m, Bk(m, p), Fd(m, p)), bins[i := Without(bins[i], k)])
    ensures InBinOrHeader(ch, Fd(m, bins[i][k]), i) && InBinOrHeader(ch, Bk(m, bins[i][k]), i)
  {
    assert |bins| == NBINS;
    var p := bins[i][k];
    var bck, fwd := Bk(m, p), Fd(m, p);
    UnlinkedRing(m, ch, bins, i, k);
    LinkWordsOff(ch, i, bck, fwd);
    RingsButOne(m, Unlinked(m, bck, fwd), ch, bins, i, Without(bins[i], k), {bck + 8, fwd + 12});
  }

  lemma InsertedRing(m: Mem, ch: Chunks, bins: seq<seq<int>>, i: int, k: int, p: int)
    requires Tiled(ch) && Listed(BinnedPart(ch), bins) && Rings(m, bins) && 1 <= i < NBINS && 0 <= k <= |bins[i]|
    requires p in ch && ch[p].kind.Hole?
    ensures var bck, fwd := Node(BinAt(i), bins[i], k - 1), Node(BinAt(i), bins[i], k);
            && RingOk(Inserted(m, p, bck, fwd), With(bins[i], k, p), i)
            && InBinOrHeader(ch, bck, i) && InBinOrHeader(ch, fwd, i)
  {
    var s := bins[i];
    assert BinOk(BinnedPart(ch), s, i) && RingOk(m, s, i);
    BinSpaced(ch, s, i);
    forall j | -1 <= j <= |s|
      ensures Apart(p, Node(BinAt(i), s, j)) && p != Node(BinAt(i), s, j)
    {
      NodesInBin(ch, s, i, j);
      HoleOffBin(ch, p, Node(BinAt(i), s, j), i);
    }
    InsertRing(m, BinAt(i), s, k, p);
    NodesInBin(ch, s, i, k - 1);
    NodesInBin(ch, s, i, k);
  }

  lemma HoleOffBin(ch: Chunks, p: int, y: int, i: int)
    requires Tiled(ch) && p in ch && ch[p].kind.Hole? && 1 <= i < NBINS && InBinOrHeader(ch, y, i)
    ensures Apart(p, y) && p != y
  {
    assert TileOk(ch, p);
    NodesDisjoint(ch, p, y);
  }

  /** The four stores of an insertion into bin i. */
  lemma InsertWordsOff(ch: Chunks, i: int, p: int, bck: int, fwd: int)
    requires Tiled(ch) && 1 <= i < NBINS && InBinOrHeader(ch, bck, i) && InBinOrHeader(ch, fwd, i)
    requires p in ch && ch[p].kind.Hole?
    ensures var w := {p + 8, p + 12, bck + 8, fwd + 12};
            && (forall j {:trigger BinAt(j)} :: 1 <= j < NBINS && j != i ==> OffLinks(BinAt(j), w))
            && (forall x :: x in BinnedPart(ch) && BinnedPart(ch)[x].bin != i ==> OffLinks(x, w))
  {
    LinkWordsOff(ch, i, bck, fwd);
    forall x | x in BinnedPart(ch) && BinnedPart(ch)[x].bin != i
      ensures OffLinks(x, {p + 8, p + 12})
    {
      BinnedAboveBins(ch, x);
      NodesDisjoint(ch, p, x);
    }
    assert TileOk(ch, p);
  }

  lemma RingsInserted(m: Mem, ch: Chunks, bins: seq<seq<int>>, i: int, k: int, p: int)
    requires Tiled(ch) && Listed(BinnedPart(ch), bins) && Rings(m, bins) && 1 <= i < NBINS && 0 <= k <= |bins[i]|
    requires p in ch && ch[p].kind.Hole?
    ensures var bck, fwd := Node(BinAt(i), bins[i], k - 1), Node(BinAt(i), bins[i], k);
            && Rings(Inserted(m, p, bck, fwd), bins[i := With(bins[i], k, p)])
            && InBinOrHeader(ch, bck, i) && InBinOrHeader(ch, fwd, i)
  {
    assert |bins| == NBINS;
    var bck, fwd := Node(BinAt(i), bins[i], k - 1), Node(BinAt(i), bins[i], k);
    InsertedRing(m, ch, bins, i, k, p);
    InsertWordsOff(ch, i, p, bck, fwd);
    RingsButOne(m, Inserted(m, p, bck, fwd), ch, bins, i, With(bins[i], k, p), {p + 8, p + 12, bck + 8, fwd + 12});
  }

  // ---------------------------------------------------------------- chains

  lemma ChainsFrame(m: Mem, m': Mem, fb: seq<int>, ch: Chunks, fast: seq<seq<int>>, w: set<int>)
    requires FastListed(FastPart(ch), fast) && Chains(m, fb, fast) && SameBut(m, m', w)
    requires forall x :: x in FastPart(ch) ==> x + 8 !in w
    ensures Chains(m', fb, fast)
  {
    forall i | 0 <= i < NFASTBINS
      ensures IsChain(m', fb[i], fast[i])
    {
      assert FastOk(FastPart(ch), fast[i], i) && IsChain(m, fb[i], fast[i]);
      forall k | 0 <= k < |fast[i]|
        ensures Fd(m', fast[i][k]) == Link(fast[i], k + 1)
      {
        assert fast[i][k] in FastPart(ch);
      }
    }
  }

  // ---------------------------------------------------------------- payloads

  /** The bytes a client may use: from its pointer up to and including the next chunk's prev_size word. */
  ghost predicate SamePayload(m: Mem, m': Mem, live: map<int, int>) {
    forall p, a {:trigger p in live, At(m', a)} :: p in live && p + 8 <= a < p + live[p] + 4 ==> At(m', a) == At(m, a)
  }

  lemma SamePayloadTransitive(m0: Mem, m1: Mem, m2: Mem, live: map<int, int>, live': map<int, int>)
    requires SamePayload(m0, m1, live) && SamePayload(m1, m2, live')
    requires forall p :: p in live ==> p in live' && live'[p] == live[p]
    ensures SamePayload(m0, m2, live)
  {
    forall p, a | p in live && p + 8 <= a < p + live[p] + 4
      ensures At(m2, a) == At(m0, a)
    {
      assert p in live';
      assert At(m2, a) == At(m1, a);
      assert At(m1, a) == At(m0, a);
    }
  }

  ghost predicate OffPayload(ch: Chunks, x: int, a: int)
    requires x in ch
  {
    !(x + 8 <= a < Succ(ch, x) + 4)
  }

  lemma PayloadKept(m: Mem, m': Mem, ch: Chunks, w: set<int>)
    requires SameBut(m, m', w)
    requires forall x, a :: x in ch && ch[x].kind.Live? && a in w ==> OffPayload(ch, x, a)
    ensures SamePayload(m, m', LivePart(ch))
  {
    var live := LivePart(ch);
    forall p, a | p in live && p + 8 <= a < p + live[p] + 4
      ensures At(m', a) == At(m, a)
    {
      assert p in ch && ch[p].kind.Live? && !OffPayload(ch, p, a);
    }
  }

  lemma TagWordsOffPayload(ch: Chunks, x: int, p: int)
    requires Tiled(ch) && x in ch && p in ch && Ordinary(ch[x].kind) && Ordinary(ch[p].kind) && x != p
    ensures forall a :: a in TagWords(ch, p) ==> OffPayload(ch, x, a)
  {
    assert TileOk(ch, x) && TileOk(ch, p);
    var n, y := Succ(ch, p), Succ(ch, x);
    assert TileOk(ch, n) && TileOk(ch, y);
    assert x < p ==> Before(ch, x, p);
    assert p < x ==> Before(ch, p, x);
    assert x < n ==> Before(ch, x, n);
    assert n < x ==> Before(ch, n, x);
    assert y < n ==> Before(ch, y, n);
    assert n < y ==> Before(ch, n, y);
  }

  // ---------------------------------------------------------------- step: take a chunk off its bin

  ghost function TakeBook(b: Book, i: int, k: int): Book
    requires 0 <= i < |b.bins| && 0 <= k < |b.bins[i]| && b.bins[i][k] in b.ch
  {
    b.(ch := Retag(b.ch, b.bins[i][k], Hole), bins := b.bins[i := Without(b.bins[i], k)])
  }

  lemma BinMember(bp: map<int, Entry>, s: seq<int>, i: int, k: int)
    requires BinOk(bp, s, i) && 0 <= k < |s|
    ensures s[k] in bp && bp[s[k]].bin == i
  {
    assert s[k] in s;
  }

  lemma BinEntry(b: Book, i: int, k: int)
    requires Listed(BinnedPart(b.ch), b.bins) && 1 <= i < NBINS && 0 <= k < |b.bins[i]|
    ensures b.bins[i][k] in b.ch && b.ch[b.bins[i][k]].kind == Binned(i)
  {
    BinMember(BinnedPart(b.ch), b.bins[i], i, k);
  }

  lemma LinkStoresOfBin(ch: Chunks, i: int, y: int, z: int)
    requires Tiled(ch) && 1 <= i < NBINS && InBinOrHeader(ch, y, i) && InBinOrHeader(ch, z, i)
    ensures LinkStores(ch, {y + 8, z + 12})
    ensures forall x, a :: x in ch && ch[x].kind.Live? && a in {y + 8, z + 12} ==> OffPayload(ch, x, a)
    ensures forall x :: x in FastPart(ch) ==> x + 8 !in {y + 8, z + 12}
  {
    forall x | x in ch
      ensures LinksFree(ch, x, y + 8) && LinksFree(ch, x, z + 12)
      ensures ch[x].kind.Live? ==> OffPayload(ch, x, y + 8) && OffPayload(ch, x, z + 12)
    {
      assert TileOk(ch, x);
      LinkWords(ch, x, y);
      LinkWords(ch, x, z);
    }
    forall x | x in FastPart(ch)
      ensures x + 8 !in {y + 8, z + 12}
    {
      assert TileOk(ch, x);
      NodesDisjoint(ch, x, y);
      NodesDisjoint(ch, x, z);
    }
  }

  lemma UnlinkedSame(m: Mem, bck: int, fwd: int)
    ensures SameBut(m, Unlinked(m, bck, fwd), {bck + 8, fwd + 12})
  {
  }

  lemma TakeInv(m: Mem, fb: seq<int>, b: Book, i: int, k: int)
    requires Inv(m, fb, b) && 1 <= i < NBINS && 0 <= k < |b.bins[i]|
    ensures var p := b.bins[i][k];
            var m' := Unlinked(m, Bk(m, p), Fd(m, p));
            && p in b.ch && b.ch[p].kind == Binned(i)
            && Inv(m', fb, TakeBook(b, i, k))
            && SamePayload(m, m', LivePart(b.ch))
            && LinkStores(b.ch, {Bk(m, p) + 8, Fd(m, p) + 12})
  {
    hide Unlinked, Tiled, Tagged, Rings, FastListed, Chains, BinnedPart, FastPart, LivePart, SameBut, LinkStores;
    hide Retag, InBinOrHeader, BinOk;
    BinEntry(b, i, k);
    var ch, p := b.ch, b.bins[i][k];
    var bck, fwd := Bk(m, p), Fd(m, p);
    var m', w := Unlinked(m, bck, fwd), {bck + 8, fwd + 12};
    UnlinkedSame(m, bck, fwd);
    RetagParts(ch, p, Hole);
    FastUnaffected(ch, p);
    RingsUnlinked(m, ch, b.bins, i, k);
    LinkStoresOfBin(ch, i, bck, fwd);
    RetagTiled(ch, p, Hole);
    TakeTagged(m, m', ch, p, w);
    ListedWithout(BinnedPart(ch), b.bins, i, k);
    ChainsFrame(m, m', fb, ch, b.fast, w);
    PayloadKept(m, m', ch, w);
  }

  lemma FastUnaffected(ch: Chunks, p: int)
    requires p in ch && !ch[p].kind.Fast?
    ensures FastPart(ch) - {p} == FastPart(ch)
  {
  }

  lemma TakeTagged(m: Mem, m': Mem, ch: Chunks, p: int, w: set<int>)
    requires Tiled(ch) && Tagged(m, ch) && p in ch && ch[p].kind.Binned?
    requires LinkStores(ch, w) && SameBut(m, m', w)
    ensures Tagged(m', Retag(ch, p, Hole))
  {
    assert TileOk(ch, p) && TagOk(m, ch, p) && TagOk(m, ch, Succ(ch, p)) && TileOk(ch, Succ(ch, p));
    RetagTagged(m, m', ch, p, Hole, w);
  }

  // ---------------------------------------------------------------- step: merge a hole with the hole after it

  ghost predicate Adjacent(ch: Chunks, a: int, c: int) {
    && a in ch && c in ch && a + ch[a].size == c && c + ch[c].size in ch
    && ch[a].kind.Hole? && ch[c].kind.Hole?
  }

  ghost function MergeCh(ch: Chunks, a: int, c: int): Chunks
    requires Adjacent(ch, a, c)
  {
    var n := Succ(ch, c);
    (ch - {c})[a := Chunk(ch[a].size + ch[c].size, ch[a].prev, Hole)][n := ch[n].(prev := a)]
  }

  lemma MergeFacts(ch: Chunks, a: int, c: int)
    requires Tiled(ch) && Adjacent(ch, a, c)
    ensures NONE < a < c < Succ(ch, c) && ch[c].prev == a && ch[Succ(ch, c)].prev == c && ch[a].prev != c
      && ch[a].prev != Succ(ch, c)
    ensures Succ(MergeCh(ch, a, c), a) == Succ(ch, c)
  {
    assert TileOk(ch, a) && TileOk(ch, c) && TileOk(ch, Succ(ch, c));
  }

  lemma MergeTileOk(ch: Chunks, a: int, c: int, x: int)
    requires Tiled(ch) && Adjacent(ch, a, c) && x in MergeCh(ch, a, c)
    ensures TileOk(MergeCh(ch, a, c), x)
  {
    MergeFacts(ch, a, c);
    assert TileOk(ch, a) && TileOk(ch, c) && TileOk(ch, Succ(ch, c)) && TileOk(ch, x);
  }

  lemma MergeBefore(ch: Chunks, a: int, c: int, x: int, y: int)
    requires Tiled(ch) && Adjacent(ch, a, c) && x in MergeCh(ch, a, c) && y in MergeCh(ch, a, c) && x < y
    ensures Before(MergeCh(ch, a, c), x, y)
  {
    MergeFacts(ch, a, c);
    assert Before(ch, x, y);
    assert x == a ==> c != y && (c < y ==> Before(ch, c, y));
  }

  lemma MergeTiled(ch: Chunks, a: int, c: int)
    requires Tiled(ch) && Adjacent(ch, a, c)
    ensures Tiled(MergeCh(ch, a, c))
  {
    hide MergeCh;
    var ch' := MergeCh(ch, a, c);
    forall x | x in ch'
      ensures TileOk(ch', x)
    {
      MergeTileOk(ch, a, c, x);
    }
    forall x, y | x in ch' && y in ch' && x < y
      ensures Before(ch', x, y)
    {
      MergeBefore(ch, a, c, x, y);
    }
  }

  lemma MergeParts(ch: Chunks, a: int, c: int)
    requires Tiled(ch) && Adjacent(ch, a, c)
    ensures LivePart(MergeCh(ch, a, c)) == LivePart(ch)
    ensures FastPart(MergeCh(ch, a, c)) == FastPart(ch)
    ensures BinnedPart(MergeCh(ch, a, c)) == BinnedPart(ch)
  {
    MergeFacts(ch, a, c);
  }

  lemma MergeTagged(m: Mem, ch: Chunks, a: int, c: int)
    requires Tiled(ch) && Tagged(m, ch) && Adjacent(ch, a, c)
    ensures Tagged(m, MergeCh(ch, a, c))
  {
    MergeFacts(ch, a, c);
    var ch', n := MergeCh(ch, a, c), Succ(ch, c);
    forall x | x in ch'
      ensures TagOk(m, ch', x)
    {
      assert TagOk(m, ch, x) && TileOk(ch, x);
      if x == n {
        assert PrevHole(ch, n) && PrevHole(ch', n);
      } else {
        assert ch[x].prev != c && ch'[x].prev == ch[x].prev;
      }
    }
  }

  lemma MergeInv(m: Mem, fb: seq<int>, b: Book, a: int, c: int)
    requires Inv(m, fb, b) && Adjacent(b.ch, a, c)
    ensures Inv(m, fb, b.(ch := MergeCh(b.ch, a, c)))
  {
    MergeTiled(b.ch, a, c);
    MergeTagged(m, b.ch, a, c);
    MergeParts(b.ch, a, c);
  }

  // ---------------------------------------------------------------- step: split a hole

  ghost function SplitCh(ch: Chunks, p: int, nb: int): Chunks
    requires p in ch && Succ(ch, p) in ch
  {
    var n, r := Succ(ch, p), p + nb;
    ch[n := ch[n].(prev := r)][p := Chunk(nb, ch[p].prev, Hole)][r := Chunk(ch[p].size - nb, p, Hole)]
  }

  ghost predicate CanSplit(ch: Chunks, p: int, nb: int) {
    && p in ch && ch[p].kind.Hole? && p + ch[p].size in ch
    && nb % 8 == 0 && MINSIZE <= nb && nb + MINSIZE <= ch[p].size
  }

  lemma SplitFacts(ch: Chunks, p: int, nb: int)
    requires Tiled(ch) && CanSplit(ch, p, nb)
    ensures p + nb !in ch && ch[p].prev != p && ch[Succ(ch, p)].prev == p && Succ(ch, p) != p
    ensures forall x :: x in ch && ch[x].prev == p ==> x == Succ(ch, p)
    ensures forall x :: x in ch && !EndsRegion(ch[x].kind) && x + ch[x].size == Succ(ch, p) ==> x == p
  {
    assert TileOk(ch, p) && TileOk(ch, Succ(ch, p));
    assert p + nb in ch ==> Before(ch, p, p + nb);
    forall x | x in ch && ch[x].prev == p
      ensures x == Succ(ch, p)
    {
      assert TileOk(ch, x);
    }
    forall x | x in ch && !EndsRegion(ch[x].kind) && x + ch[x].size == Succ(ch, p)
      ensures x == p
    {
      assert TileOk(ch, x);
      assert Succ(ch, x) == Succ(ch, p);
    }
  }

  lemma TileAt(ch: Chunks, x: int)
    requires Tiled(ch) && x in ch
    ensures TileOk(ch, x)
  {
  }

  lemma SplitTileOk(ch: Chunks, p: int, nb: int, x: int)
    requires Tiled(ch) && CanSplit(ch, p, nb) && x in SplitCh(ch, p, nb)
    ensures TileOk(SplitCh(ch, p, nb), x)
  {
    hide Tiled;
    SplitFacts(ch, p, nb);
    TileAt(ch, p);
    TileAt(ch, Succ(ch, p));
    if x != p + nb {
      TileAt(ch, x);
    }
  }

  lemma SplitBefore(ch: Chunks, p: int, nb: int, x: int, y: int)
    requires Tiled(ch) && CanSplit(ch, p, nb) && x in SplitCh(ch, p, nb) && y in SplitCh(ch, p, nb) && x < y
    ensures Before(SplitCh(ch, p, nb), x, y)
  {
    var x', y' := if x == p + nb then p else x, if y == p + nb then p else y;
    assert x' < y' ==> Before(ch, x', y');
    assert y' < x' ==> Before(ch, y', x');
  }

  lemma SplitTiled(ch: Chunks, p: int, nb: int)
    requires Tiled(ch) && CanSplit(ch, p, nb)
    ensures Tiled(SplitCh(ch, p, nb))
  {
    SplitFacts(ch, p, nb);
    var ch' := SplitCh(ch, p, nb);
    forall x | x in ch'
      ensures TileOk(ch', x)
    {
      SplitTileOk(ch, p, nb, x);
    }
    forall x, y | x in ch' && y in ch' && x < y
      ensures Before(ch', x, y)
    {
      SplitBefore(ch, p, nb, x, y);
    }
  }

  lemma SplitParts(ch: Chunks, p: int, nb: int)
    requires Tiled(ch) && CanSplit(ch, p, nb)
    ensures LivePart(SplitCh(ch, p, nb)) == LivePart(ch)
    ensures FastPart(SplitCh(ch, p, nb)) == FastPart(ch)
    ensures BinnedPart(SplitCh(ch, p, nb)) == BinnedPart(ch)
  {
    SplitFacts(ch, p, nb);
  }

  lemma SplitTagged(m: Mem, ch: Chunks, p: int, nb: int)
    requires Tiled(ch) && Tagged(m, ch) && CanSplit(ch, p, nb)
    ensures Tagged(m, SplitCh(ch, p, nb))
  {
    SplitFacts(ch, p, nb);
    var ch' := SplitCh(ch, p, nb);
    forall x | x in ch'
      ensures TagOk(m, ch', x)
    {
      if x != p + nb {
        assert TagOk(m, ch, x) && TileOk(ch, x);
      }
    }
  }

  lemma SplitInv(m: Mem, fb: seq<int>, b: Book, p: int, nb: int)
    requires Inv(m, fb, b) && CanSplit(b.ch, p, nb)
    ensures Inv(m, fb, b.(ch := SplitCh(b.ch, p, nb)))
  {
    SplitTiled(b.ch, p, nb);
    SplitTagged(m, b.ch, p, nb);
    SplitParts(b.ch, p, nb);
  }

  // ---------------------------------------------------------------- step: give a hole its tags

  lemma TagWordsOffLinks(ch: Chunks, p: int, x: int)
    requires Tiled(ch) && p in ch && Ordinary(ch[p].kind) && IsNode(ch, x)
    ensures OffLinks(x, TagWords(ch, p))
  {
    assert TileOk(ch, p) && TileOk(ch, Succ(ch, p));
    LinkWords(ch, p, x);
    LinkWords(ch, Succ(ch, p), x);
  }

  /** The lists do not notice stores to the tags of one chunk. */
  lemma ListsKeepTags(m: Mem, m': Mem, fb: seq<int>, b: Book, p: int)
    requires Inv(m, fb, b) && p in b.ch && Ordinary(b.ch[p].kind) && SameBut(m, m', TagWords(b.ch, p))
    ensures Rings(m', b.bins) && Chains(m', fb, b.fast)
  {
    hide Tiled, Tagged, Listed, Rings, FastListed, Chains, SameBut, TagWords, OffLinks;
    var ch, w := b.ch, TagWords(b.ch, p);
    forall i {:trigger BinAt(i)} | 1 <= i < NBINS
      ensures OffLinks(BinAt(i), w)
    {
      TagWordsOffLinks(ch, p, BinAt(i));
    }
    forall x | x in BinnedPart(ch)
      ensures OffLinks(x, w)
    {
      TagWordsOffLinks(ch, p, x);
    }
    forall x | x in FastPart(ch)
      ensures x + 8 !in w
    {
      TagWordsOffLinks(ch, p, x);
      LinkWordOff(x, w);
    }
    RingsFrame(m, m', ch, b.bins, w);
    ChainsFrame(m, m', fb, ch, b.fast, w);
  }

  lemma LinkWordOff(x: int, w: set<int>)
    requires OffLinks(x, w)
    ensures x + 8 !in w
  {
  }

  lemma TagsOffPayload(ch: Chunks, p: int)
    requires Tiled(ch) && p in ch && Ordinary(ch[p].kind)
    ensures forall x, a :: x in ch && ch[x].kind.Live? && x != p && a in TagWords(ch, p) ==> OffPayload(ch, x, a)
  {
    forall x | x in ch && ch[x].kind.Live? && x != p
      ensures forall a :: a in TagWords(ch, p) ==> OffPayload(ch, x, a)
    {
      TagWordsOffPayload(ch, x, p);
    }
  }

  /** The chunk after p is marked as following a chunk in use, or is itself a hole. */
  ghost predicate NextMarked(m: Mem, ch: Chunks, p: int)
    requires p in ch && Succ(ch, p) in ch
  {
    var n := Succ(ch, p);
    ch[n].kind.Hole? || At(m, n + 4) == HeadSize(ch[n]) + PREV_INUSE
  }

  lemma CloseTagged(m: Mem, m': Mem, ch: Chunks, p: int)
    requires Tiled(ch) && Tagged(m, ch) && p in ch && ch[p].kind.Hole?
    requires SameBut(m, m', TagWords(ch, p))
    requires At(m', p + 4) == ch[p].size + if PrevFree(ch, p) then 0 else PREV_INUSE
    requires assert TileOk(ch, p); NextMarked(m', ch, p)
    ensures Tagged(m', Retag(ch, p, Live))
  {
    var n := Succ(ch, p);
    assert TileOk(ch, p) && TagOk(m, ch, n) && TileOk(ch, n);
    RetagTagged(m, m', ch, p, Live, {});
  }

  ghost function CloseBook(b: Book, p: int): Book
    requires p in b.ch
  {
    b.(ch := Retag(b.ch, p, Live))
  }

  lemma CloseInv(m: Mem, m': Mem, fb: seq<int>, b: Book, p: int)
    requires Inv(m, fb, b) && p in b.ch && b.ch[p].kind.Hole?
    requires SameBut(m, m', TagWords(b.ch, p))
    requires At(m', p + 4) == b.ch[p].size + if PrevFree(b.ch, p) then 0 else PREV_INUSE
    requires assert TileOk(b.ch, p); NextMarked(m', b.ch, p)
    ensures Inv(m', fb, CloseBook(b, p))
    ensures LivePart(CloseBook(b, p).ch) == LivePart(b.ch)[p := b.ch[p].size]
    ensures SamePayload(m, m', LivePart(b.ch))
  {
    var ch := b.ch;
    assert TileOk(ch, p);
    RetagParts(ch, p, Live);
    FastUnaffected(ch, p);
    BinnedUnaffected(ch, p);
    TagsOffPayload(ch, p);
    ListsKeepTags(m, m', fb, b, p);
    RetagTiled(ch, p, Live);
    CloseTagged(m, m', ch, p);
    PayloadKept(m, m', ch, TagWords(ch, p));
  }

  lemma BinnedUnaffected(ch: Chunks, p: int)
    requires p in ch && !ch[p].kind.Binned?
    ensures BinnedPart(ch) - {p} == BinnedPart(ch)
  {
  }

  lemma LiveUnaffected(ch: Chunks, p: int)
    requires p in ch && !ch[p].kind.Live?
    ensures LivePart(ch) - {p} == LivePart(ch)
  {
  }

  // ---------------------------------------------------------------- step: put a hole on a bin

  ghost function PutBook(b: Book, i: int, k: int, p: int): Book
    requires 0 <= i < |b.bins| && 0 <= k <= |b.bins[i]| && p in b.ch
  {
    b.(ch := Retag(b.ch, p, Binned(i)), bins := b.bins[i := With(b.bins[i], k, p)])
  }

  /** p's tags as a free chunk: both ends say its size, and both neighbours are in use. */
  ghost predicate FreeTags(m: Mem, ch: Chunks, p: int)
    requires p in ch && Succ(ch, p) in ch
  {
    var n := Succ(ch, p);
    && !PrevFree(ch, p) && !PrevHole(ch, p)
    && !ch[n].kind.Binned? && !ch[n].kind.Top? && !ch[n].kind.Hole?
    && At(m, p + 4) == ch[p].size + PREV_INUSE && At(m, n) == ch[p].size && At(m, n + 4) == HeadSize(ch[n])
  }

  lemma PutTagged(m: Mem, m': Mem, ch: Chunks, p: int, i: int, w: set<int>)
    requires Tiled(ch) && Tagged(m, ch) && p in ch && ch[p].kind.Hole?
    requires LinkStores(ch, w) && SameBut(m, m', w + TagWords(ch, p))
    requires assert TileOk(ch, p); FreeTags(m', ch, p)
    ensures Tagged(m', Retag(ch, p, Binned(i)))
  {
    var n := Succ(ch, p);
    assert TileOk(ch, p) && TagOk(m, ch, n) && TileOk(ch, n);
    RetagTagged(m, m', ch, p, Binned(i), w);
  }

  lemma InsertedSame(m: Mem, p: int, bck: int, fwd: int)
    ensures SameBut(m, Inserted(m, p, bck, fwd), {bck + 8, fwd + 12} + {p + 8, p + 12})
  {
  }

  lemma SameButTransitive(m0: Mem, m1: Mem, m2: Mem, v: set<int>, w: set<int>)
    requires SameBut(m0, m1, v) && SameBut(m1, m2, w)
    ensures SameBut(m0, m2, v + w)
  {
    forall a | a !in v + w
      ensures At(m2, a) == At(m0, a)
    {
      assert At(m1, a) == At(m0, a);
    }
  }

  lemma InsertStores(ch: Chunks, i: int, y: int, z: int, p: int)
    requires Tiled(ch) && 1 <= i < NBINS && InBinOrHeader(ch, y, i) && InBinOrHeader(ch, z, i)
    requires p in ch && ch[p].kind.Hole?
    ensures var w := {y + 8, z + 12} + {p + 8, p + 12};
            && LinkStores(ch, w)
            && (forall x, a :: x in ch && ch[x].kind.Live? && a in w ==> OffPayload(ch, x, a))
            && (forall x :: x in FastPart(ch) ==> x + 8 !in w)
  {
    LinkStoresOfBin(ch, i, y, z);
    forall x | x in ch
      ensures LinksFree(ch, x, p + 8) && LinksFree(ch, x, p + 12)
      ensures ch[x].kind.Live? ==> OffPayload(ch, x, p + 8) && OffPayload(ch, x, p + 12)
    {
      LinkWords(ch, x, p);
    }
    forall x | x in FastPart(ch)
      ensures x + 8 !in {p + 8, p + 12}
    {
      assert TileOk(ch, x);
      NodesDisjoint(ch, x, p);
    }
  }

  lemma PutInv(m: Mem, m1: Mem, m': Mem, fb: seq<int>, b: Book, i: int, k: int, p: int)
    requires Inv(m, fb, b) && p in b.ch && b.ch[p].kind.Hole? && 1 <= i < NBINS
    requires FitsAt(BinnedPart(b.ch), b.bins[i], i, k, b.ch[p].size)
    requires m1 == Inserted(m, p, Node(BinAt(i), b.bins[i], k - 1), Node(BinAt(i), b.bins[i], k))
    requires SameBut(m1, m', TagWords(b.ch, p))
    requires assert TileOk(b.ch, p); FreeTags(m', b.ch, p)
    ensures Inv(m', fb, PutBook(b, i, k, p))
    ensures SamePayload(m, m', LivePart(b.ch))
    ensures LivePart(PutBook(b, i, k, p).ch) == LivePart(b.ch)
  {
    hide Tagged, Rings, Chains, LinkStores, InBinOrHeader, Inserted, FreeTags, FitsAt, SameBut, OffPayload;
    var ch, tags := b.ch, TagWords(b.ch, p);
    var bck, fwd := Node(BinAt(i), b.bins[i], k - 1), Node(BinAt(i), b.bins[i], k);
    var w := {bck + 8, fwd + 12} + {p + 8, p + 12};
    assert TileOk(ch, p);
    SlotRange(BinnedPart(ch), b.bins[i], i, k, ch[p].size);
    InsertedSame(m, p, bck, fwd);
    RetagParts(ch, p, Binned(i));
    FastUnaffected(ch, p);
    LiveUnaffected(ch, p);
    TagsOffPayload(ch, p);
    NotBinned(ch, p);
    RingsInserted(m, ch, b.bins, i, k, p);
    InsertStores(ch, i, bck, fwd, p);
    SameButTransitive(m, m1, m', w, tags);
    RetagTiled(ch, p, Binned(i));
    PutTagged(m, m', ch, p, i, w);
    ListedWith(BinnedPart(ch), b.bins, i, k, p, ch[p].size);
    ChainsFrame(m, m1, fb, ch, b.fast, w);
    PutLists(m1, m', fb, ch, b, i, k, p);
    PayloadKept(m, m', ch, w + tags);
  }

  lemma SlotRange(bp: map<int, Entry>, s: seq<int>, i: int, k: int, size: int)
    requires FitsAt(bp, s, i, k, size)
    ensures 0 <= k <= |s|
  {
  }

  lemma NotBinned(ch: Chunks, p: int)
    requires p in ch && !ch[p].kind.Binned?
    ensures p !in BinnedPart(ch)
  {
  }

  /** The tags of p are no links: not of a bin header, a binned chunk (p included), or a fast chunk. */
  lemma PutTagsOff(ch: Chunks, p: int, i: int)
    requires Tiled(ch) && p in ch && ch[p].kind.Hole?
    ensures forall j {:trigger BinAt(j)} :: 1 <= j < NBINS ==> OffLinks(BinAt(j), TagWords(ch, p))
    ensures forall x :: x in BinnedPart(Retag(ch, p, Binned(i))) ==> OffLinks(x, TagWords(ch, p))
    ensures forall x :: x in FastPart(ch) ==> x + 8 !in TagWords(ch, p)
  {
    hide Tiled, TagWords;
    forall j {:trigger BinAt(j)} | 1 <= j < NBINS
      ensures OffLinks(BinAt(j), TagWords(ch, p))
    {
      TagWordsOffLinks(ch, p, BinAt(j));
    }
    forall x | x in BinnedPart(Retag(ch, p, Binned(i)))
      ensures OffLinks(x, TagWords(ch, p))
    {
      TagWordsOffLinks(ch, p, x);
    }
    forall x | x in FastPart(ch)
      ensures x + 8 !in TagWords(ch, p)
    {
      TagWordsOffLinks(ch, p, x);
    }
  }

  lemma PutLists(m1: Mem, m': Mem, fb: seq<int>, ch: Chunks, b: Book, i: int, k: int, p: int)
    requires b.ch == ch && Tiled(ch) && p in ch && ch[p].kind.Hole? && 1 <= i < NBINS && |b.bins| == NBINS
      && 0 <= k <= |b.bins[i]|
    requires Rings(m1, b.bins[i := With(b.bins[i], k, p)]) && Chains(m1, fb, b.fast) && FastListed(FastPart(ch), b.fast)
    requires Listed(BinnedPart(Retag(ch, p, Binned(i))), b.bins[i := With(b.bins[i], k, p)])
    requires SameBut(m1, m', TagWords(ch, p))
    ensures Rings(m', b.bins[i := With(b.bins[i], k, p)]) && Chains(m', fb, b.fast)
  {
    hide Tiled, Listed, Rings, Chains, FastListed, SameBut, OffLinks, TagWords, BinnedPart, FastPart, Retag;
    var bins' := b.bins[i := With(b.bins[i], k, p)];
    hide With;
    PutTagsOff(ch, p, i);
    RingsFrame(m1, m', Retag(ch, p, Binned(i)), bins', TagWords(ch, p));
    ChainsFrame(m1, m', fb, ch, b.fast, TagWords(ch, p));
  }

  // ---------------------------------------------------------------- step: open a live chunk, and fastbins

  lemma OpenTagged(m: Mem, ch: Chunks, p: int, k: Kind)
    requires Tiled(ch) && Tagged(m, ch) && p in ch
    requires (ch[p].kind.Live? && (k.Hole? || k.Fast?)) || (ch[p].kind.Fast? && k.Live?)
    ensures Tagged(m, Retag(ch, p, k))
  {
    var n := Succ(ch, p);
    assert TileOk(ch, p) && TagOk(m, ch, p) && TagOk(m, ch, n) && TileOk(ch, n);
    RetagTagged(m, m, ch, p, k, {});
  }

  ghost function OpenBook(b: Book, p: int): Book
    requires p in b.ch
  {
    b.(ch := Retag(b.ch, p, Hole))
  }

  lemma OpenInv(m: Mem, fb: seq<int>, b: Book, p: int)
    requires Inv(m, fb, b) && p in b.ch && b.ch[p].kind.Live?
    ensures Inv(m, fb, OpenBook(b, p))
    ensures LivePart(OpenBook(b, p).ch) == LivePart(b.ch) - {p}
  {
    RetagParts(b.ch, p, Hole);
    FastUnaffected(b.ch, p);
    BinnedUnaffected(b.ch, p);
    RetagTiled(b.ch, p, Hole);
    OpenTagged(m, b.ch, p, Hole);
  }

  lemma TailNoDup(s: seq<int>)
    requires NoDup(s) && s != []
    ensures NoDup(s[1..])
    ensures forall x :: x in s[1..] <==> x in s && x != s[0]
  {
    forall x | x in s && x != s[0]
      ensures x in s[1..]
    {
      var j :| 0 <= j < |s| && s[j] == x;
      assert s[1..][j - 1] == x;
    }
  }

  lemma FastListedTail(fp: map<int, int>, fast: seq<seq<int>>, i: int)
    requires FastListed(fp, fast) && 0 <= i < NFASTBINS && fast[i] != []
    ensures FastListed(fp - {fast[i][0]}, fast[i := fast[i][1..]])
    ensures fast[i][0] in fp && FastIndex(fp[fast[i][0]]) == i
  {
    var p, fp', fast' := fast[i][0], fp - {fast[i][0]}, fast[i := fast[i][1..]];
    FastMember(fp, fast[i], i, 0);
    assert FastOk(fp, fast[i], i);
    TailNoDup(fast[i]);
    forall j | 0 <= j < NFASTBINS
      ensures FastOk(fp', fast'[j], j)
    {
      assert FastOk(fp, fast[j], j);
    }
    forall x | x in fp'
      ensures x in fast'[FastIndex(fp'[x])]
    {
      assert x in fast[FastIndex(fp[x])];
    }
  }

  lemma FastMember(fp: map<int, int>, s: seq<int>, i: int, k: int)
    requires FastOk(fp, s, i) && 0 <= k < |s|
    ensures s[k] in fp && FastIndex(fp[s[k]]) == i
  {
    assert s[k] in s;
  }

  lemma FastListedCons(fp: map<int, int>, fast: seq<seq<int>>, i: int, p: int, size: int)
    requires FastListed(fp, fast) && 0 <= i < NFASTBINS && p !in fp && FastIndex(size) == i
    ensures FastListed(fp[p := size], fast[i := [p] + fast[i]])
  {
    var fp', fast' := fp[p := size], fast[i := [p] + fast[i]];
    forall j | 0 <= j < NFASTBINS
      ensures FastOk(fp', fast'[j], j)
    {
      assert FastOk(fp, fast[j], j);
    }
    forall x | x in fp'
      ensures 0 <= FastIndex(fp'[x]) < NFASTBINS && x in fast'[FastIndex(fp'[x])]
    {
      assert x != p ==> x in fast[FastIndex(fp[x])];
    }
  }

  /** The catalogue after the head of fastbin i is handed out. */
  ghost function PopBook(b: Book, i: int): Book
    requires 0 <= i < |b.fast| && b.fast[i] != [] && b.fast[i][0] in b.ch
  {
    b.(ch := Retag(b.ch, b.fast[i][0], Live), fast := b.fast[i := b.fast[i][1..]])
  }

  lemma FastHead(m: Mem, fb: seq<int>, b: Book, i: int)
    requires Inv(m, fb, b) && 0 <= i < NFASTBINS
    ensures |fb| == NFASTBINS && |b.fast| == NFASTBINS && (fb[i] == 0 <==> b.fast[i] == [])
    ensures b.fast[i] != [] ==>
      fb[i] == b.fast[i][0] && fb[i] in b.ch && b.ch[fb[i]].kind.Fast? && FastIndex(b.ch[fb[i]].size) == i
  {
    assert IsChain(m, fb[i], b.fast[i]);
    if b.fast[i] != [] {
      FastListedTail(FastPart(b.ch), b.fast, i);
      assert TileOk(b.ch, b.fast[i][0]);
    }
  }

  lemma PopInv(m: Mem, fb: seq<int>, b: Book, i: int)
    requires Inv(m, fb, b) && 0 <= i < NFASTBINS && |fb| == NFASTBINS && fb[i] != 0
    ensures |b.fast| == NFASTBINS && b.fast[i] != [] && fb[i] == b.fast[i][0] && fb[i] in b.ch
    ensures Inv(m, fb[i := Fd(m, fb[i])], PopBook(b, i))
    ensures LivePart(PopBook(b, i).ch) == LivePart(b.ch)[fb[i] := b.ch[fb[i]].size]
  {
    hide Tiled, Tagged, Listed, Rings, FastListed, BinnedPart, FastPart, LivePart, Retag;
    FastHead(m, fb, b, i);
    var p := fb[i];
    RetagParts(b.ch, p, Live);
    BinnedUnaffected(b.ch, p);
    RetagTiled(b.ch, p, Live);
    OpenTagged(m, b.ch, p, Live);
    FastListedTail(FastPart(b.ch), b.fast, i);
    ChainsTail(m, fb, b.fast, i);
  }

  lemma ChainsTail(m: Mem, fb: seq<int>, fast: seq<seq<int>>, i: int)
    requires Chains(m, fb, fast) && 0 <= i < NFASTBINS && fast[i] != []
    ensures Chains(m, fb[i := Fd(m, fb[i])], fast[i := fast[i][1..]])
  {
    var fb', fast', s := fb[i := Fd(m, fb[i])], fast[i := fast[i][1..]], fast[i];
    assert IsChain(m, fb[i], s);
    forall j | 0 <= j < NFASTBINS
      ensures IsChain(m, fb'[j], fast'[j])
    {
      assert IsChain(m, fb[j], fast[j]);
      if j == i {
        forall k | 0 <= k < |s| - 1
          ensures Fd(m, s[1..][k]) == Link(s[1..], k + 1)
        {
          assert Fd(m, s[k + 1]) == Link(s, k + 2);
        }
      }
    }
  }

  ghost function PushBook(b: Book, i: int, p: int): Book
    requires 0 <= i < |b.fast| && p in b.ch
  {
    b.(ch := Retag(b.ch, p, Fast), fast := b.fast[i := [p] + b.fast[i]])
  }

  lemma PushInv(m: Mem, m': Mem, fb: seq<int>, b: Book, i: int, p: int)
    requires Inv(m, fb, b) && p in b.ch && b.ch[p].kind.Live? && 0 <= i < NFASTBINS && FastIndex(b.ch[p].size) == i
    requires |fb| == NFASTBINS && m' == m[p + 8 := fb[i]]
    ensures Inv(m', fb[i := p], PushBook(b, i, p))
    ensures LivePart(PushBook(b, i, p).ch) == LivePart(b.ch) - {p}
    ensures SamePayload(m, m', LivePart(b.ch) - {p})
  {
    var ch, w := b.ch, {p + 8};
    var m1, ch' := m, Retag(ch, p, Fast);
    assert SameBut(m, m', w);
    assert TileOk(ch, p);
    RetagParts(ch, p, Fast);
    BinnedUnaffected(ch, p);
    RetagTiled(ch, p, Fast);
    OpenTagged(m, ch, p, Fast);
    assert p !in FastPart(ch);
    FastListedCons(FastPart(ch), b.fast, i, p, ch[p].size);
    PushFrames(m, m', fb, b, i, p);
  }

  lemma PushFrames(m: Mem, m': Mem, fb: seq<int>, b: Book, i: int, p: int)
    requires Inv(m, fb, b) && p in b.ch && b.ch[p].kind.Live? && 0 <= i < NFASTBINS
    requires |fb| == NFASTBINS && m' == m[p + 8 := fb[i]]
    requires Tagged(m, Retag(b.ch, p, Fast)) && Tiled(Retag(b.ch, p, Fast))
    ensures Tagged(m', Retag(b.ch, p, Fast)) && Rings(m', b.bins)
    ensures Chains(m', fb[i := p], b.fast[i := [p] + b.fast[i]])
    ensures SamePayload(m, m', LivePart(b.ch) - {p})
  {
    var ch, ch', w := b.ch, Retag(b.ch, p, Fast), {p + 8};
    assert SameBut(m, m', w);
    assert TileOk(ch, p);
    forall x, a | x in ch' && a in w
      ensures LinksFree(ch', x, a)
    {
      LinkWords(ch', x, p);
    }
    TaggedByLinks(m, m', ch', w);
    forall x | x in BinnedPart(ch)
      ensures OffLinks(x, w)
    {
      NodesDisjoint(ch, x, p);
    }
    RingsFrame(m, m', ch, b.bins, w);
    forall x | x in FastPart(ch)
      ensures x + 8 !in w
    {
      NodesDisjoint(ch, x, p);
    }
    ChainsFrame(m, m', fb, ch, b.fast, w);
    ChainsCons(m', fb, b.fast, i, p);
    forall x, a | x in ch' && ch'[x].kind.Live? && a in w
      ensures OffPayload(ch', x, a)
    {
      LinkWords(ch', x, p);
    }
    RetagParts(ch, p, Fast);
    PayloadKept(m, m', ch', w);
  }

  lemma ChainsCons(m: Mem, fb: seq<int>, fast: seq<seq<int>>, i: int, p: int)
    requires Chains(m, fb, fast) && 0 <= i < NFASTBINS && Fd(m, p) == fb[i]
    ensures Chains(m, fb[i := p], fast[i := [p] + fast[i]])
  {
    var fb', fast', s := fb[i := p], fast[i := [p] + fast[i]], fast[i];
    forall j | 0 <= j < NFASTBINS
      ensures IsChain(m, fb'[j], fast'[j])
    {
      assert IsChain(m, fb[j], fast[j]);
      if j == i {
        forall k | 0 <= k < |s| + 1
          ensures Fd(m, fast'[i][k]) == Link(fast'[i], k + 1)
        {
          assert k > 0 ==> fast'[i][k] == s[k - 1] && Fd(m, s[k - 1]) == Link(s, k);
        }
      }
    }
  }
}
