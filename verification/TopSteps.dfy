/** The steps that involve top: carving it, growing it, and leaving it behind for a new region. */
module TopSteps {
  import opened Memory
  import opened Ring
  import opened Heap
  import opened HeapSteps

  /** top is the only chunk of its kind. */
  ghost predicate TopIs(ch: Chunks, t: int) {
    t in ch && ch[t].kind.Top? && forall x :: x in ch && ch[x].kind.Top? ==> x == t
  }

  /** The lists and parts that a change of top leaves alone. */
  ghost predicate SameParts(ch: Chunks, ch': Chunks) {
    LivePart(ch') == LivePart(ch) && FastPart(ch') == FastPart(ch) && BinnedPart(ch') == BinnedPart(ch)
  }

  ghost predicate OnSomeList(k: Kind) {
    k.Live? || k.Fast? || k.Binned?
  }

  ghost predicate Carried(ch: Chunks, ch': Chunks, p: int) {
    p in ch && OnSomeList(ch[p].kind) ==> p in ch' && ch'[p].size == ch[p].size && ch'[p].kind == ch[p].kind
  }

  lemma PartsCarried(ch: Chunks, ch': Chunks)
    requires forall p {:trigger Carried(ch, ch', p)} :: Carried(ch, ch', p) && Carried(ch', ch, p)
    ensures SameParts(ch, ch')
  {
    forall p
      ensures LiveSize(ch, p) == LiveSize(ch', p) && FastSize(ch, p) == FastSize(ch', p)
        && BinnedEntry(ch, p) == BinnedEntry(ch', p)
      ensures (p in ch && OnSomeList(ch[p].kind)) <==> (p in ch' && OnSomeList(ch'[p].kind))
      ensures p in ch && OnSomeList(ch[p].kind) ==> ch[p].kind == ch'[p].kind
    {
      assert Carried(ch, ch', p) && Carried(ch', ch, p);
    }
    assert LivePart(ch') == LivePart(ch);
    assert FastPart(ch') == FastPart(ch);
    assert BinnedPart(ch') == BinnedPart(ch);
  }

  /** Stores inside one chunk that is not on any list touch no list and no payload. */
  ghost predicate Inside(ch: Chunks, t: int, w: set<int>)
    requires t in ch
  {
    forall a :: a in w ==> t + 4 <= a < Succ(ch, t)
  }

  lemma InsideWords(ch: Chunks, t: int, x: int, a: int)
    requires Tiled(ch) && t in ch && x in ch && x != t && t + 4 <= a < Succ(ch, t)
    ensures LinksFree(ch, x, a) && (Ordinary(ch[x].kind) ==> OffPayload(ch, x, a) && a != x + 8 && a != x + 12)
  {
    assert TileOk(ch, t) && TileOk(ch, x);
    assert x < t ==> Before(ch, x, t);
    assert t < x ==> Before(ch, t, x);
  }

  lemma InsideFrames(m: Mem, m': Mem, fb: seq<int>, b: Book, t: int, w: set<int>)
    requires Inv(m, fb, b) && t in b.ch && (b.ch[t].kind.Top? || b.ch[t].kind.Hole?)
    requires SameBut(m, m', w) && Inside(b.ch, t, w)
    ensures Rings(m', b.bins) && Chains(m', fb, b.fast) && SamePayload(m, m', LivePart(b.ch))
  {
    var ch := b.ch;
    assert TileOk(ch, t);
    forall i {:trigger BinAt(i)} | 1 <= i < NBINS
      ensures OffLinks(BinAt(i), w)
    {
    }
    forall x | x in BinnedPart(ch)
      ensures OffLinks(x, w)
    {
      InsideOff(ch, t, x, w);
    }
    forall x | x in FastPart(ch)
      ensures x + 8 !in w
    {
      InsideOff(ch, t, x, w);
    }
    forall x, a | x in ch && ch[x].kind.Live? && a in w
      ensures OffPayload(ch, x, a)
    {
      InsideWords(ch, t, x, a);
    }
    RingsFrame(m, m', ch, b.bins, w);
    ChainsFrame(m, m', fb, ch, b.fast, w);
    PayloadKept(m, m', ch, w);
  }

  lemma InsideOff(ch: Chunks, t: int, x: int, w: set<int>)
    requires Tiled(ch) && t in ch && x in ch && x != t && Ordinary(ch[x].kind) && Inside(ch, t, w)
    ensures OffLinks(x, w)
  {
    forall a | a in w
      ensures a != x + 8 && a != x + 12
    {
      InsideWords(ch, t, x, a);
    }
  }

  // ---------------------------------------------------------------- step: carve a chunk from the bottom of top

  ghost function CarveCh(ch: Chunks, t: int, nb: int): Chunks
    requires t in ch
  {
    ch[t := Chunk(nb, ch[t].prev, Hole)][t + nb := Chunk(ch[t].size - nb, t, Top)]
  }

  ghost predicate CanCarve(ch: Chunks, t: int, nb: int) {
    TopIs(ch, t) && nb % 8 == 0 && MINSIZE <= nb && nb + MINSIZE <= ch[t].size
  }

  lemma CarveFacts(ch: Chunks, t: int, nb: int)
    requires Tiled(ch) && CanCarve(ch, t, nb)
    ensures t + nb !in ch && ch[t].prev != t
    ensures forall x :: x in ch ==> ch[x].prev != t
  {
    assert TileOk(ch, t);
    assert t + nb in ch ==> Before(ch, t, t + nb);
    forall x | x in ch
      ensures ch[x].prev != t
    {
      assert TileOk(ch, x);
    }
  }

  lemma CarveTiled(ch: Chunks, t: int, nb: int)
    requires Tiled(ch) && CanCarve(ch, t, nb)
    ensures Tiled(CarveCh(ch, t, nb))
  {
    var ch' := CarveCh(ch, t, nb);
    forall x | x in ch'
      ensures TileOk(ch', x)
    {
      CarveTileOk(ch, t, nb, x);
    }
    forall x, y | x in ch' && y in ch' && x < y
      ensures Before(ch', x, y)
    {
      CarveBefore(ch, t, nb, x, y);
    }
  }

  lemma CarveTileOk(ch: Chunks, t: int, nb: int, x: int)
    requires Tiled(ch) && CanCarve(ch, t, nb) && x in CarveCh(ch, t, nb)
    ensures TileOk(CarveCh(ch, t, nb), x)
  {
    hide Tiled;
    CarveFacts(ch, t, nb);
    TileAt(ch, t);
    if x != t + nb {
      TileAt(ch, x);
    }
  }

  lemma CarveBefore(ch: Chunks, t: int, nb: int, x: int, y: int)
    requires Tiled(ch) && CanCarve(ch, t, nb) && x in CarveCh(ch, t, nb) && y in CarveCh(ch, t, nb) && x < y
    ensures Before(CarveCh(ch, t, nb), x, y)
  {
    var x', y' := if x == t + nb then t else x, if y == t + nb then t else y;
    assert x' < y' ==> Before(ch, x', y');
    assert y' < x' ==> Before(ch, y', x');
  }

  lemma CarveParts(ch: Chunks, t: int, nb: int)
    requires Tiled(ch) && CanCarve(ch, t, nb)
    ensures SameParts(ch, CarveCh(ch, t, nb)) && TopIs(CarveCh(ch, t, nb), t + nb)
  {
    CarveFacts(ch, t, nb);
    PartsCarried(ch, CarveCh(ch, t, nb));
  }

  lemma CarveTagged(m: Mem, m': Mem, ch: Chunks, t: int, nb: int, w: set<int>)
    requires Tiled(ch) && Tagged(m, ch) && CanCarve(ch, t, nb)
    requires SameBut(m, m', w) && Inside(ch, t, w) && At(m', t + nb + 4) == ch[t].size - nb + PREV_INUSE
    ensures Tagged(m', CarveCh(ch, t, nb))
  {
    CarveFacts(ch, t, nb);
    var ch' := CarveCh(ch, t, nb);
    forall x | x in ch'
      ensures TagOk(m', ch', x)
    {
      if x != t + nb && x != t {
        assert TagOk(m, ch, x) && TileOk(ch, x);
        forall a | a in w
          ensures LinksFree(ch, x, a)
        {
          InsideWords(ch, t, x, a);
        }
        TagKept(m, m', ch, ch', x, w);
      }
    }
  }

  lemma CarveInv(m: Mem, m': Mem, fb: seq<int>, b: Book, t: int, nb: int)
    requires Inv(m, fb, b) && CanCarve(b.ch, t, nb)
    requires SameBut(m, m', {t + 4, t + nb + 4}) && At(m', t + nb + 4) == b.ch[t].size - nb + PREV_INUSE
    ensures Inv(m', fb, b.(ch := CarveCh(b.ch, t, nb)))
    ensures LivePart(CarveCh(b.ch, t, nb)) == LivePart(b.ch) && TopIs(CarveCh(b.ch, t, nb), t + nb)
    ensures SamePayload(m, m', LivePart(b.ch))
  {
    var w := {t + 4, t + nb + 4};
    assert TileOk(b.ch, t);
    assert Inside(b.ch, t, w);
    InsideFrames(m, m', fb, b, t, w);
    CarveTiled(b.ch, t, nb);
    CarveParts(b.ch, t, nb);
    CarveTagged(m, m', b.ch, t, nb, w);
  }

  // ---------------------------------------------------------------- step: a hole that borders top becomes top

  ghost function SinkCh(ch: Chunks, p: int, t: int): Chunks
    requires p in ch && t in ch
  {
    (ch - {t})[p := Chunk(ch[p].size + ch[t].size, ch[p].prev, Top)]
  }

  ghost predicate CanSink(ch: Chunks, p: int, t: int) {
    TopIs(ch, t) && p in ch && ch[p].kind.Hole? && p + ch[p].size == t && !PrevFree(ch, p) && !PrevHole(ch, p)
  }

  lemma SinkTiled(ch: Chunks, p: int, t: int)
    requires Tiled(ch) && CanSink(ch, p, t)
    ensures Tiled(SinkCh(ch, p, t)) && p < t && (forall x :: x in ch ==> ch[x].prev != t) && ch[t].prev == p
    ensures forall x :: x in ch && x != t ==> ch[x].prev != p
  {
    var ch' := SinkCh(ch, p, t);
    assert TileOk(ch, p) && TileOk(ch, t);
    forall x | x in ch
      ensures ch[x].prev != t && (x != t ==> ch[x].prev != p)
    {
      assert TileOk(ch, x);
    }
    forall x | x in ch'
      ensures TileOk(ch', x)
    {
      assert TileOk(ch, x);
    }
    forall x, y | x in ch' && y in ch' && x < y
      ensures Before(ch', x, y)
    {
      assert Before(ch, x, y);
      assert x == p ==> t < y && Before(ch, t, y);
    }
  }

  lemma SinkParts(ch: Chunks, p: int, t: int)
    requires Tiled(ch) && CanSink(ch, p, t)
    ensures SameParts(ch, SinkCh(ch, p, t)) && TopIs(SinkCh(ch, p, t), p)
  {
    SinkTiled(ch, p, t);
    PartsCarried(ch, SinkCh(ch, p, t));
  }

  lemma SinkTagged(m: Mem, m': Mem, ch: Chunks, p: int, t: int)
    requires Tiled(ch) && Tagged(m, ch) && CanSink(ch, p, t)
    requires SameBut(m, m', {p + 4}) && At(m', p + 4) == ch[p].size + ch[t].size + PREV_INUSE
    ensures Tagged(m', SinkCh(ch, p, t))
  {
    SinkTiled(ch, p, t);
    var ch' := SinkCh(ch, p, t);
    assert TileOk(ch, p);
    forall x | x in ch'
      ensures TagOk(m', ch', x)
    {
      assert TagOk(m, ch, x) && TileOk(ch, x);
      if x != p {
        InsideWords(ch, p, x, p + 4);
        TagKept(m, m', ch, ch', x, {p + 4});
      }
    }
  }

  lemma SinkInv(m: Mem, m': Mem, fb: seq<int>, b: Book, p: int, t: int)
    requires Inv(m, fb, b) && CanSink(b.ch, p, t)
    requires SameBut(m, m', {p + 4}) && At(m', p + 4) == b.ch[p].size + b.ch[t].size + PREV_INUSE
    ensures Inv(m', fb, b.(ch := SinkCh(b.ch, p, t)))
    ensures LivePart(SinkCh(b.ch, p, t)) == LivePart(b.ch) && TopIs(SinkCh(b.ch, p, t), p)
    ensures SamePayload(m, m', LivePart(b.ch))
  {
    assert TileOk(b.ch, p);
    InsideFrames(m, m', fb, b, p, {p + 4});
    SinkTiled(b.ch, p, t);
    SinkParts(b.ch, p, t);
    SinkTagged(m, m', b.ch, p, t);
  }

  // ---------------------------------------------------------------- step: memory from the system

  /** [lo, hi) lies in the address space above malloc_state and overlaps no chunk. */
  ghost predicate FreshSpace(ch: Chunks, lo: int, hi: int) {
    && HEAP_BASE <= lo <= hi <= ADDRESS_LIMIT && lo % 8 == 0 && hi % 8 == 0
    && forall x :: x in ch ==> x + ch[x].size <= lo || hi <= x
  }

  ghost function GrowCh(ch: Chunks, t: int, extra: int): Chunks
    requires t in ch
  {
    ch[t := ch[t].(size := ch[t].size + extra)]
  }

  lemma GrowInv(m: Mem, m': Mem, fb: seq<int>, b: Book, t: int, extra: int)
    requires Inv(m, fb, b) && TopIs(b.ch, t) && 0 <= extra
      && FreshSpace(b.ch, t + b.ch[t].size, t + b.ch[t].size + extra)
    requires SameBut(m, m', {t + 4}) && At(m', t + 4) == b.ch[t].size + extra + PREV_INUSE
    ensures Inv(m', fb, b.(ch := GrowCh(b.ch, t, extra)))
    ensures LivePart(GrowCh(b.ch, t, extra)) == LivePart(b.ch) && TopIs(GrowCh(b.ch, t, extra), t)
    ensures SamePayload(m, m', LivePart(b.ch))
  {
    assert TileOk(b.ch, t);
    InsideFrames(m, m', fb, b, t, {t + 4});
    GrowTiled(b.ch, t, extra);
    GrowTagged(m, m', b.ch, t, extra);
    GrowParts(b.ch, t, extra);
  }

  lemma GrowParts(ch: Chunks, t: int, extra: int)
    requires TopIs(ch, t)
    ensures SameParts(ch, GrowCh(ch, t, extra))
  {
    var ch' := GrowCh(ch, t, extra);
    forall p
      ensures Carried(ch, ch', p) && Carried(ch', ch, p)
    {
    }
    PartsCarried(ch, ch');
  }

  lemma GrowTiled(ch: Chunks, t: int, extra: int)
    requires Tiled(ch) && TopIs(ch, t) && 0 <= extra && FreshSpace(ch, t + ch[t].size, t + ch[t].size + extra)
    ensures Tiled(GrowCh(ch, t, extra))
    ensures forall x :: x in ch ==> ch[x].prev != t
  {
    var ch' := GrowCh(ch, t, extra);
    assert TileOk(ch, t);
    forall x | x in ch'
      ensures TileOk(ch', x) && ch[x].prev != t
    {
      assert TileOk(ch, x);
    }
    forall x, y | x in ch' && y in ch' && x < y
      ensures Before(ch', x, y)
    {
      assert Before(ch, x, y) && TileOk(ch, y);
    }
  }

  lemma GrowTagged(m: Mem, m': Mem, ch: Chunks, t: int, extra: int)
    requires Tiled(ch) && Tagged(m, ch) && TopIs(ch, t) && 0 <= extra
      && FreshSpace(ch, t + ch[t].size, t + ch[t].size + extra)
    requires SameBut(m, m', {t + 4}) && At(m', t + 4) == ch[t].size + extra + PREV_INUSE
    ensures Tagged(m', GrowCh(ch, t, extra))
  {
    GrowTiled(ch, t, extra);
    var ch' := GrowCh(ch, t, extra);
    assert TileOk(ch, t);
    forall x | x in ch'
      ensures TagOk(m', ch', x)
    {
      assert TagOk(m, ch, x) && TileOk(ch, x);
      if x != t {
        InsideWords(ch, t, x, t + 4);
        TagKept(m, m', ch, ch', x, {t + 4});
      } else {
        HeadPlain(m, ch, t);
      }
    }
  }

  lemma HeadPlain(m: Mem, ch: Chunks, t: int)
    requires t in ch && TagOk(m, ch, t) && ch[t].kind.Top?
    ensures !PrevFree(ch, t)
  {
  }

  /** The abandoned top: its last 16 bytes become the fenceposts, the rest a chunk or slack. */
  ghost function FenceCh(ch: Chunks, t: int): Chunks
    requires t in ch
  {
    var s, prev := ch[t].size - 16, ch[t].prev;
    if s == 0 then ch[t := Chunk(16, prev, Fence)]
    else ch[t := Chunk(s, prev, if s == 8 then Slack else Hole)][t + s := Chunk(16, t, Fence)]
  }

  lemma FenceTiled(ch: Chunks, t: int)
    requires Tiled(ch) && TopIs(ch, t)
    ensures Tiled(FenceCh(ch, t))
    ensures ch[t].size > 16 ==> t + ch[t].size - 16 !in ch
    ensures forall x :: x in ch ==> ch[x].prev != t
    ensures ch[t].size % 8 == 0 && MINSIZE <= ch[t].size
  {
    FenceFacts(ch, t);
    var ch' := FenceCh(ch, t);
    forall x | x in ch'
      ensures TileOk(ch', x)
    {
      FenceTileOk(ch, t, x);
    }
    forall x, y | x in ch' && y in ch' && x < y
      ensures Before(ch', x, y)
    {
      FenceBefore(ch, t, x, y);
    }
  }

  lemma FenceFacts(ch: Chunks, t: int)
    requires Tiled(ch) && TopIs(ch, t)
    ensures ch[t].size > 16 ==> t + ch[t].size - 16 !in ch
    ensures forall x :: x in ch ==> ch[x].prev != t
    ensures ch[t].size % 8 == 0 && MINSIZE <= ch[t].size
  {
    var r := t + ch[t].size - 16;
    assert TileOk(ch, t);
    assert r in ch && t < r ==> Before(ch, t, r);
    forall x | x in ch
      ensures ch[x].prev != t
    {
      assert TileOk(ch, x);
    }
  }

  lemma FenceTileOk(ch: Chunks, t: int, x: int)
    requires Tiled(ch) && TopIs(ch, t) && x in FenceCh(ch, t)
    ensures TileOk(FenceCh(ch, t), x)
  {
    hide Tiled;
    FenceFacts(ch, t);
    TileAt(ch, t);
    if x in ch {
      TileAt(ch, x);
    }
  }

  lemma FenceBefore(ch: Chunks, t: int, x: int, y: int)
    requires Tiled(ch) && TopIs(ch, t) && x in FenceCh(ch, t) && y in FenceCh(ch, t) && x < y
    ensures Before(FenceCh(ch, t), x, y)
  {
    var r := t + ch[t].size - 16;
    FenceFacts(ch, t);
    var x', y' := if x == r then t else x, if y == r then t else y;
    assert x' < y' ==> Before(ch, x', y');
    assert y' < x' ==> Before(ch, y', x');
  }

  lemma FenceParts(ch: Chunks, t: int)
    requires Tiled(ch) && TopIs(ch, t)
    ensures SameParts(ch, FenceCh(ch, t))
  {
    FenceTiled(ch, t);
    var ch' := FenceCh(ch, t);
    forall p
      ensures Carried(ch, ch', p) && Carried(ch', ch, p)
    {
    }
    PartsCarried(ch, ch');
  }

  ghost predicate FenceWords(m: Mem, t: int, s: int) {
    && At(m, t + s + 4) == SIZE_SZ + PREV_INUSE && At(m, t + s + 8) == SIZE_SZ + PREV_INUSE
    && (s != 0 ==> At(m, t + 4) == s + PREV_INUSE)
  }

  lemma FenceTagged(m: Mem, m': Mem, ch: Chunks, t: int)
    requires Tiled(ch) && Tagged(m, ch) && TopIs(ch, t) && !PrevHole(ch, t)
    requires SameBut(m, m', {t + 4, t + ch[t].size - 12, t + ch[t].size - 8}) && FenceWords(m', t, ch[t].size - 16)
    ensures Tagged(m', FenceCh(ch, t))
  {
    FenceTiled(ch, t);
    var ch', w := FenceCh(ch, t), {t + 4, t + ch[t].size - 12, t + ch[t].size - 8};
    assert TileOk(ch, t) && TagOk(m, ch, t);
    forall x | x in ch'
      ensures TagOk(m', ch', x)
    {
      if x in ch && x != t {
        assert TagOk(m, ch, x) && TileOk(ch, x);
        forall a | a in w
          ensures LinksFree(ch, x, a)
        {
          InsideWords(ch, t, x, a);
        }
        TagKept(m, m', ch, ch', x, w);
      }
    }
  }

  lemma FenceInv(m: Mem, m': Mem, fb: seq<int>, b: Book, t: int)
    requires Inv(m, fb, b) && TopIs(b.ch, t) && !PrevHole(b.ch, t)
    requires SameBut(m, m', {t + 4, t + b.ch[t].size - 12, t + b.ch[t].size - 8})
      && FenceWords(m', t, b.ch[t].size - 16)
    ensures Inv(m', fb, b.(ch := FenceCh(b.ch, t)))
    ensures LivePart(FenceCh(b.ch, t)) == LivePart(b.ch)
    ensures forall x :: x in FenceCh(b.ch, t) ==> !FenceCh(b.ch, t)[x].kind.Top?
    ensures SamePayload(m, m', LivePart(b.ch))
  {
    FenceTiled(b.ch, t);
    InsideFrames(m, m', fb, b, t, {t + 4, t + b.ch[t].size - 12, t + b.ch[t].size - 8});
    FenceTagged(m, m', b.ch, t);
    FenceParts(b.ch, t);
  }

  ghost function RegionCh(ch: Chunks, brk: int, size: int): Chunks {
    ch[brk := Chunk(size, NONE, Top)]
  }

  lemma RegionInv(m: Mem, m': Mem, fb: seq<int>, b: Book, brk: int, size: int)
    requires Inv(m, fb, b) && (forall x :: x in b.ch ==> !b.ch[x].kind.Top?)
    requires MINSIZE <= size && FreshSpace(b.ch, brk, brk + size)
    requires SameBut(m, m', {brk + 4}) && At(m', brk + 4) == size + PREV_INUSE
    ensures Inv(m', fb, b.(ch := RegionCh(b.ch, brk, size)))
    ensures LivePart(RegionCh(b.ch, brk, size)) == LivePart(b.ch) && TopIs(RegionCh(b.ch, brk, size), brk)
    ensures SamePayload(m, m', LivePart(b.ch))
  {
    RegionTiled(b.ch, brk, size);
    RegionTagged(m, m', b.ch, brk, size);
    RegionFrames(m, m', fb, b, brk, size);
    RegionParts(b.ch, brk, size);
  }

  lemma RegionParts(ch: Chunks, brk: int, size: int)
    requires brk !in ch
    ensures SameParts(ch, RegionCh(ch, brk, size))
  {
    var ch' := RegionCh(ch, brk, size);
    forall p
      ensures Carried(ch, ch', p) && Carried(ch', ch, p)
    {
    }
    PartsCarried(ch, ch');
  }

  lemma RegionTiled(ch: Chunks, brk: int, size: int)
    requires Tiled(ch) && MINSIZE <= size && FreshSpace(ch, brk, brk + size)
    ensures Tiled(RegionCh(ch, brk, size)) && brk !in ch
    ensures forall x :: x in ch ==> ch[x].prev != brk
  {
    var ch' := RegionCh(ch, brk, size);
    assert brk in ch ==> TileOk(ch, brk);
    forall x | x in ch
      ensures ch[x].prev != brk
    {
      assert TileOk(ch, x);
    }
    forall x | x in ch'
      ensures TileOk(ch', x)
    {
      assert x != brk ==> TileOk(ch, x);
    }
    forall x, y | x in ch' && y in ch' && x < y
      ensures Before(ch', x, y)
    {
      assert x != brk ==> TileOk(ch, x);
      assert y != brk ==> TileOk(ch, y);
      assert x != brk && y != brk ==> Before(ch, x, y);
    }
  }

  lemma OutsideWords(ch: Chunks, brk: int, size: int, x: int)
    requires Tiled(ch) && MINSIZE <= size && FreshSpace(ch, brk, brk + size) && x in ch
    ensures LinksFree(ch, x, brk + 4)
    ensures Ordinary(ch[x].kind) ==> OffPayload(ch, x, brk + 4) && OffLinks(x, {brk + 4})
  {
    assert TileOk(ch, x);
    assert Ordinary(ch[x].kind) ==> TileOk(ch, Succ(ch, x));
  }

  lemma RegionTagged(m: Mem, m': Mem, ch: Chunks, brk: int, size: int)
    requires Tiled(ch) && Tagged(m, ch) && MINSIZE <= size && FreshSpace(ch, brk, brk + size)
    requires SameBut(m, m', {brk + 4}) && At(m', brk + 4) == size + PREV_INUSE
    ensures Tagged(m', RegionCh(ch, brk, size))
  {
    RegionTiled(ch, brk, size);
    var ch' := RegionCh(ch, brk, size);
    forall x | x in ch'
      ensures TagOk(m', ch', x)
    {
      if x != brk {
        assert TagOk(m, ch, x);
        OutsideWords(ch, brk, size, x);
        TagKept(m, m', ch, ch', x, {brk + 4});
      } else {
        assert NONE in ch ==> TileOk(ch, NONE);
      }
    }
  }

  lemma RegionFrames(m: Mem, m': Mem, fb: seq<int>, b: Book, brk: int, size: int)
    requires Inv(m, fb, b) && MINSIZE <= size && FreshSpace(b.ch, brk, brk + size) && SameBut(m, m', {brk + 4})
    ensures Rings(m', b.bins) && Chains(m', fb, b.fast) && SamePayload(m, m', LivePart(b.ch))
  {
    var ch, w := b.ch, {brk + 4};
    forall i {:trigger BinAt(i)} | 1 <= i < NBINS
      ensures OffLinks(BinAt(i), w)
    {
    }
    forall x | x in ch && Ordinary(ch[x].kind)
      ensures OffLinks(x, w) && OffPayload(ch, x, brk + 4)
    {
      OutsideWords(ch, brk, size, x);
    }
    RingsFrame(m, m', ch, b.bins, w);
    ChainsFrame(m, m', fb, ch, b.fast, w);
    PayloadKept(m, m', ch, w);
  }
}
