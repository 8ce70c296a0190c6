/** Counting the catalogue: holes, and bytes by use. */
module Census {
  import opened MapSum
  import opened Memory
  import opened Heap
  import opened HeapSteps
  import opened TopSteps

  // ---------------------------------------------------------------- the census

  ghost function SizeOf(ch: Chunks, p: int): int {
    if p in ch then ch[p].size else 0
  }

  ghost function Sizes(ch: Chunks): map<int, int> {
    map p | p in ch :: SizeOf(ch, p)
  }

  /** All bytes obtained from the system. */
  ghost function Total(ch: Chunks): int { Sum(Sizes(ch)) }

  ghost function Holes(ch: Chunks): set<int> {
    set p | p in ch && ch[p].kind.Hole?
  }

  /** Chunks that can never be used again: fenceposts, and the slack in front of them. */
  ghost function DeadSize(ch: Chunks, p: int): int {
    if p in ch && (ch[p].kind.Fence? || ch[p].kind.Slack?) then ch[p].size else 0
  }

  ghost function DeadPart(ch: Chunks): map<int, int> {
    map p | p in ch && (ch[p].kind.Fence? || ch[p].kind.Slack?) :: DeadSize(ch, p)
  }

  /** Where regions begin. */
  ghost function Starts(ch: Chunks): set<int> {
    set p | p in ch && ch[p].prev == NONE
  }

  ghost function TopSize(ch: Chunks, p: int): int {
    if p in ch && ch[p].kind.Top? then ch[p].size else 0
  }

  ghost function TopPart(ch: Chunks): map<int, int> {
    map p | p in ch && ch[p].kind.Top? :: TopSize(ch, p)
  }

  /** The chunks by use, and where regions begin. */
  datatype Parts = Parts(live: map<int, int>, fast: map<int, int>, binned: map<int, Entry>, dead: map<int, int>,
      holes: set<int>, starts: set<int>, tops: map<int, int>)

  ghost function PartsOf(ch: Chunks): Parts {
    Parts(LivePart(ch), FastPart(ch), BinnedPart(ch), DeadPart(ch), Holes(ch), Starts(ch), TopPart(ch))
  }

  lemma RetagCensus(ch: Chunks, p: int, k: Kind)
    requires p in ch && Ordinary(ch[p].kind) && Ordinary(k)
    ensures Total(Retag(ch, p, k)) == Total(ch)
    ensures Holes(Retag(ch, p, k)) == if k.Hole? then Holes(ch) + {p} else Holes(ch) - {p}
    ensures DeadPart(Retag(ch, p, k)) == DeadPart(ch) && Starts(Retag(ch, p, k)) == Starts(ch)
      && TopPart(Retag(ch, p, k)) == TopPart(ch)
    ensures forall t :: TopIs(ch, t) ==> TopIs(Retag(ch, p, k), t)
  {
    assert Sizes(Retag(ch, p, k)) == Sizes(ch);
  }

  lemma TakeCensus(ch: Chunks, p: int)
    requires p in ch && ch[p].kind.Binned?
    ensures var q := PartsOf(ch); PartsOf(Retag(ch, p, Hole)) == q.(binned := q.binned - {p}, holes := q.holes + {p})
  {
    RetagCensus(ch, p, Hole);
    RetagParts(ch, p, Hole);
    FastUnaffected(ch, p);
    LiveUnaffected(ch, p);
    Unholed(ch, p);
  }

  lemma OpenCensus(ch: Chunks, p: int)
    requires p in ch && ch[p].kind.Live?
    ensures var q := PartsOf(ch); PartsOf(Retag(ch, p, Hole)) == q.(live := q.live - {p}, holes := q.holes + {p})
  {
    RetagCensus(ch, p, Hole);
    RetagParts(ch, p, Hole);
    FastUnaffected(ch, p);
    BinnedUnaffected(ch, p);
  }

  lemma CloseCensus(ch: Chunks, p: int)
    requires p in ch && ch[p].kind.Hole?
    ensures var q := PartsOf(ch);
      PartsOf(Retag(ch, p, Live)) == q.(live := q.live[p := ch[p].size], holes := q.holes - {p})
  {
    RetagCensus(ch, p, Live);
    RetagParts(ch, p, Live);
    FastUnaffected(ch, p);
    BinnedUnaffected(ch, p);
  }

  lemma PutCensus(ch: Chunks, p: int, i: int)
    requires p in ch && ch[p].kind.Hole?
    ensures var q := PartsOf(ch);
            PartsOf(Retag(ch, p, Binned(i))) ==
              q.(binned := q.binned[p := Entry(ch[p].size, i)], holes := q.holes - {p})
  {
    RetagCensus(ch, p, Binned(i));
    RetagParts(ch, p, Binned(i));
    FastUnaffected(ch, p);
    LiveUnaffected(ch, p);
  }

  lemma PopCensus(ch: Chunks, p: int)
    requires p in ch && ch[p].kind.Fast?
    ensures var q := PartsOf(ch);
      PartsOf(Retag(ch, p, Live)) == q.(live := q.live[p := ch[p].size], fast := q.fast - {p})
  {
    RetagCensus(ch, p, Live);
    RetagParts(ch, p, Live);
    BinnedUnaffected(ch, p);
    Unholed(ch, p);
  }

  lemma PushCensus(ch: Chunks, p: int)
    requires p in ch && ch[p].kind.Live?
    ensures var q := PartsOf(ch);
      PartsOf(Retag(ch, p, Fast)) == q.(live := q.live - {p}, fast := q.fast[p := ch[p].size])
  {
    RetagCensus(ch, p, Fast);
    RetagParts(ch, p, Fast);
    BinnedUnaffected(ch, p);
    Unholed(ch, p);
  }

  lemma Unholed(ch: Chunks, p: int)
    requires p in ch && !ch[p].kind.Hole?
    ensures Holes(ch) - {p} == Holes(ch)
  {
  }

  lemma MergeKinds(ch: Chunks, a: int, c: int)
    requires Tiled(ch) && Adjacent(ch, a, c)
    ensures PartsOf(MergeCh(ch, a, c)) == PartsOf(ch).(holes := Holes(ch) - {c})
  {
    MergeFacts(ch, a, c);
    MergeParts(ch, a, c);
    MergeStarts(ch, a, c);
  }

  lemma MergeStarts(ch: Chunks, a: int, c: int)
    requires Tiled(ch) && Adjacent(ch, a, c)
    ensures Starts(MergeCh(ch, a, c)) == Starts(ch)
  {
    hide Tiled;
    MergeFacts(ch, a, c);
  }

  lemma MergeTop(ch: Chunks, a: int, c: int, t: int)
    requires Tiled(ch) && Adjacent(ch, a, c) && TopIs(ch, t)
    ensures TopIs(MergeCh(ch, a, c), t)
  {
    MergeFacts(ch, a, c);
  }

  lemma MergeCensus(ch: Chunks, a: int, c: int)
    requires Tiled(ch) && Adjacent(ch, a, c)
    ensures Total(MergeCh(ch, a, c)) == Total(ch)
  {
    MergeFacts(ch, a, c);
    SumRemove(Sizes(ch), c);
    SumUpdate(Sizes(ch) - {c}, a, ch[a].size + ch[c].size);
    assert Sizes(MergeCh(ch, a, c)) == (Sizes(ch) - {c})[a := ch[a].size + ch[c].size];
  }

  lemma SplitKinds(ch: Chunks, p: int, nb: int)
    requires Tiled(ch) && CanSplit(ch, p, nb)
    ensures PartsOf(SplitCh(ch, p, nb)) == PartsOf(ch).(holes := Holes(ch) + {p + nb})
  {
    SplitFacts(ch, p, nb);
    SplitParts(ch, p, nb);
    SplitStarts(ch, p, nb);
  }

  lemma SplitStarts(ch: Chunks, p: int, nb: int)
    requires Tiled(ch) && CanSplit(ch, p, nb)
    ensures Starts(SplitCh(ch, p, nb)) == Starts(ch)
  {
    SplitFacts(ch, p, nb);
    assert TileOk(ch, p);
  }

  lemma SplitTop(ch: Chunks, p: int, nb: int, t: int)
    requires Tiled(ch) && CanSplit(ch, p, nb) && TopIs(ch, t)
    ensures TopIs(SplitCh(ch, p, nb), t)
  {
    SplitFacts(ch, p, nb);
  }

  lemma SplitCensus(ch: Chunks, p: int, nb: int)
    requires Tiled(ch) && CanSplit(ch, p, nb)
    ensures Total(SplitCh(ch, p, nb)) == Total(ch)
  {
    SplitFacts(ch, p, nb);
    SumUpdate(Sizes(ch), p, nb);
    SumAdd(Sizes(ch)[p := nb], p + nb, ch[p].size - nb);
    assert Sizes(SplitCh(ch, p, nb)) == Sizes(ch)[p := nb][p + nb := ch[p].size - nb];
  }

  lemma CarveCensus(ch: Chunks, t: int, nb: int)
    requires Tiled(ch) && CanCarve(ch, t, nb)
    ensures Total(CarveCh(ch, t, nb)) == Total(ch)
  {
    CarveFacts(ch, t, nb);
    SumUpdate(Sizes(ch), t, nb);
    SumAdd(Sizes(ch)[t := nb], t + nb, ch[t].size - nb);
    assert Sizes(CarveCh(ch, t, nb)) == Sizes(ch)[t := nb][t + nb := ch[t].size - nb];
  }

  lemma CarveKinds(ch: Chunks, t: int, nb: int)
    requires Tiled(ch) && CanCarve(ch, t, nb)
    ensures PartsOf(CarveCh(ch, t, nb)) == PartsOf(ch).(holes := Holes(ch) + {t}, tops := TopPart(CarveCh(ch, t, nb)))
  {
    CarveFacts(ch, t, nb);
    CarveParts(ch, t, nb);
    SameDead(ch, CarveCh(ch, t, nb));
    CarveStarts(ch, t, nb);
  }

  lemma CarveStarts(ch: Chunks, t: int, nb: int)
    requires Tiled(ch) && CanCarve(ch, t, nb)
    ensures Starts(CarveCh(ch, t, nb)) == Starts(ch)
  {
    CarveFacts(ch, t, nb);
    assert TileOk(ch, t);
    var ch' := CarveCh(ch, t, nb);
    assert forall x :: x in ch && x != t ==> ch'[x] == ch[x];
  }

  lemma SameDead(ch: Chunks, ch': Chunks)
    requires forall p :: DeadSize(ch, p) == DeadSize(ch', p)
    requires forall p :: (p in ch && (ch[p].kind.Fence? || ch[p].kind.Slack?)) <==>
      (p in ch' && (ch'[p].kind.Fence? || ch'[p].kind.Slack?))
    ensures DeadPart(ch') == DeadPart(ch)
  {
  }

  lemma SinkCensus(ch: Chunks, p: int, t: int)
    requires Tiled(ch) && CanSink(ch, p, t)
    ensures Total(SinkCh(ch, p, t)) == Total(ch)
  {
    SinkTiled(ch, p, t);
    SumRemove(Sizes(ch), t);
    SumUpdate(Sizes(ch) - {t}, p, ch[p].size + ch[t].size);
    assert Sizes(SinkCh(ch, p, t)) == (Sizes(ch) - {t})[p := ch[p].size + ch[t].size];
  }

  lemma SinkKinds(ch: Chunks, p: int, t: int)
    requires Tiled(ch) && CanSink(ch, p, t)
    ensures PartsOf(SinkCh(ch, p, t)) == PartsOf(ch).(holes := Holes(ch) - {p}, tops := TopPart(SinkCh(ch, p, t)))
  {
    SinkTiled(ch, p, t);
    SinkParts(ch, p, t);
    SameDead(ch, SinkCh(ch, p, t));
    SinkStarts(ch, p, t);
  }

  lemma SinkStarts(ch: Chunks, p: int, t: int)
    requires Tiled(ch) && CanSink(ch, p, t)
    ensures Starts(SinkCh(ch, p, t)) == Starts(ch)
  {
    assert TileOk(ch, p) && TileOk(ch, t);
  }

  lemma GrowCensus(ch: Chunks, t: int, extra: int)
    requires TopIs(ch, t)
    ensures Total(GrowCh(ch, t, extra)) == Total(ch) + extra
  {
    SumUpdate(Sizes(ch), t, ch[t].size + extra);
    assert Sizes(GrowCh(ch, t, extra)) == Sizes(ch)[t := ch[t].size + extra];
  }

  lemma GrowKinds(ch: Chunks, t: int, extra: int)
    requires TopIs(ch, t)
    ensures PartsOf(GrowCh(ch, t, extra)) == PartsOf(ch).(tops := TopPart(GrowCh(ch, t, extra)))
  {
    GrowParts(ch, t, extra);
    SameDead(ch, GrowCh(ch, t, extra));
    assert Holes(GrowCh(ch, t, extra)) == Holes(ch) && Starts(GrowCh(ch, t, extra)) == Starts(ch);
  }

  lemma FenceCensus(ch: Chunks, t: int)
    requires Tiled(ch) && TopIs(ch, t)
    ensures Total(FenceCh(ch, t)) == Total(ch)
  {
    hide Tiled, Sum, Sizes;
    FenceTiled(ch, t);
    FenceSizes(ch, t);
    var s := ch[t].size - 16;
    SumUpdate(Sizes(ch), t, if s == 0 then 16 else s);
    if s != 0 {
      SumAdd(Sizes(ch)[t := s], t + s, 16);
    }
  }

  lemma FenceSizes(ch: Chunks, t: int)
    requires t in ch
    ensures t in Sizes(ch) && Sizes(ch)[t] == ch[t].size
      && (t + ch[t].size - 16 in Sizes(ch) <==> t + ch[t].size - 16 in ch)
    ensures var s := ch[t].size - 16;
            Sizes(FenceCh(ch, t)) == if s == 0 then Sizes(ch)[t := 16] else Sizes(ch)[t := s][t + s := 16]
  {
  }

  lemma FenceKinds(ch: Chunks, t: int)
    requires Tiled(ch) && TopIs(ch, t)
    ensures var q := PartsOf(ch);
            PartsOf(FenceCh(ch, t)) ==
              q.(dead := DeadPart(FenceCh(ch, t)), holes := if ch[t].size >= 32 then q.holes + {t} else q.holes,
                tops := TopPart(FenceCh(ch, t)))
  {
    FenceTiled(ch, t);
    FenceParts(ch, t);
    FenceStarts(ch, t);
    var q := PartsOf(ch);
    assert Holes(FenceCh(ch, t)) == if ch[t].size >= 32 then q.holes + {t} else q.holes;
  }

  lemma FenceStarts(ch: Chunks, t: int)
    requires Tiled(ch) && TopIs(ch, t)
    ensures Starts(FenceCh(ch, t)) == Starts(ch)
  {
    FenceTiled(ch, t);
    assert TileOk(ch, t);
  }

  lemma RegionCensus(ch: Chunks, brk: int, size: int)
    requires brk !in ch
    ensures Total(RegionCh(ch, brk, size)) == Total(ch) + size
  {
    SumAdd(Sizes(ch), brk, size);
    assert Sizes(RegionCh(ch, brk, size)) == Sizes(ch)[brk := size];
  }

  lemma RegionKinds(ch: Chunks, brk: int, size: int)
    requires brk !in ch
    ensures PartsOf(RegionCh(ch, brk, size)) ==
      PartsOf(ch).(starts := Starts(ch) + {brk}, tops := TopPart(RegionCh(ch, brk, size)))
  {
    RegionParts(ch, brk, size);
    SameDead(ch, RegionCh(ch, brk, size));
    assert Holes(RegionCh(ch, brk, size)) == Holes(ch);
    assert Starts(RegionCh(ch, brk, size)) == Starts(ch) + {brk};
  }
}
