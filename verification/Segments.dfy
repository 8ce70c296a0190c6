/** A buffer's data: a list of segments, each a range of addresses of physical memory, read as one
    flat sequence of bytes. */
module Segments {
  type Byte = x: int | 0 <= x < 256

  /** bd_start, bd_end and the memory block both point into. */
  datatype Seg = Seg(start: int, end: int, blk: int)

  function Len(s: Seg): int { s.end - s.start }

  /** No memory lies at address 0: a segment that starts there has no bytes. */
  const NULL := 0

  ghost predicate SegOk(size: int, s: Seg) {
    0 <= s.start <= s.end <= size && (s.start == NULL ==> s.end == NULL)
  }

  ghost predicate SegsOk(size: int, segs: seq<Seg>) {
    forall i {:trigger segs[i]} :: 0 <= i < |segs| ==> SegOk(size, segs[i])
  }

  /** The bytes the segments hold, in order. */
  function View(mem: seq<Byte>, segs: seq<Seg>): seq<Byte>
    requires SegsOk(|mem|, segs)
  {
    if segs == [] then [] else mem[segs[0].start..segs[0].end] + View(mem, segs[1..])
  }

  /** The total length of the first i segments. */
  function LenTo(segs: seq<Seg>, i: nat): int
    requires i <= |segs|
  {
    if i == 0 then 0 else LenTo(segs, i - 1) + Len(segs[i - 1])
  }

  lemma {:induction false} ViewSplit(mem: seq<Byte>, segs: seq<Seg>, i: nat)
    requires SegsOk(|mem|, segs) && i <= |segs|
    ensures View(mem, segs) == View(mem, segs[..i]) + View(mem, segs[i..])
  {
    if i == 0 {
      assert segs[..0] == [] && segs[0..] == segs;
    } else {
      ViewSplit(mem, segs[1..], i - 1);
      assert segs[..i][1..] == segs[1..][..i - 1] && segs[i..] == segs[1..][i - 1..];
    }
  }

  lemma ViewJoin(mem: seq<Byte>, a: seq<Seg>, b: seq<Seg>)
    requires SegsOk(|mem|, a) && SegsOk(|mem|, b)
    ensures SegsOk(|mem|, a + b) && View(mem, a + b) == View(mem, a) + View(mem, b)
  {
    ViewSplit(mem, a + b, |a|);
    assert (a + b)[..|a|] == a && (a + b)[|a|..] == b;
  }

  lemma ViewOne(mem: seq<Byte>, s: Seg)
    requires SegOk(|mem|, s)
    ensures SegsOk(|mem|, [s]) && View(mem, [s]) == mem[s.start..s.end]
  {
    assert [s][1..] == [];
  }

  lemma {:induction false} ViewLength(mem: seq<Byte>, segs: seq<Seg>, i: nat)
    requires SegsOk(|mem|, segs) && i <= |segs|
    ensures |View(mem, segs[..i])| == LenTo(segs, i)
  {
    if i == 0 {
      assert segs[..0] == [];
    } else {
      hide SegsOk, View;
      SegAt(|mem|, segs, i - 1);
      PartsOk(|mem|, segs, i - 1);
      ViewLength(mem, segs, i - 1);
      assert segs[..i] == segs[..i - 1] + [segs[i - 1]];
      ViewOne(mem, segs[i - 1]);
      ViewJoin(mem, segs[..i - 1], [segs[i - 1]]);
    }
  }

  lemma WholeLength(mem: seq<Byte>, segs: seq<Seg>)
    requires SegsOk(|mem|, segs)
    ensures |View(mem, segs)| == LenTo(segs, |segs|)
  {
    ViewLength(mem, segs, |segs|);
    assert segs[..|segs|] == segs;
  }

  lemma {:induction false} LenMonotone(size: int, segs: seq<Seg>, i: nat, j: nat)
    requires SegsOk(size, segs) && i <= j <= |segs|
    ensures 0 <= LenTo(segs, i) <= LenTo(segs, j)
  {
    if j > 0 {
      LenMonotone(size, segs, if i < j then i else i - 1, j - 1);
    }
  }

  /** Segment i is the part of the flat view between LenTo(i) and LenTo(i + 1). */
  lemma SegView(mem: seq<Byte>, segs: seq<Seg>, i: nat)
    requires SegsOk(|mem|, segs) && i < |segs|
    ensures 0 <= LenTo(segs, i) <= LenTo(segs, i + 1) <= |View(mem, segs)|
    ensures View(mem, segs)[LenTo(segs, i)..LenTo(segs, i + 1)] == mem[segs[i].start..segs[i].end]
    ensures View(mem, segs)[..LenTo(segs, i)] == View(mem, segs[..i])
    ensures View(mem, segs)[LenTo(segs, i + 1)..] == View(mem, segs[i + 1..])
  {
    var a, s, b := View(mem, segs[..i]), mem[segs[i].start..segs[i].end], View(mem, segs[i + 1..]);
    ViewSplit(mem, segs, i);
    ViewLength(mem, segs, i);
    assert segs[i..][1..] == segs[i + 1..];
    assert View(mem, segs) == a + (s + b);
    assert |a| == LenTo(segs, i) && |s| == Len(segs[i]);
  }

  /** More memory does not change what the old segments hold. */
  lemma {:induction false} ViewGrows(mem: seq<Byte>, more: seq<Byte>, segs: seq<Seg>)
    requires SegsOk(|mem|, segs)
    ensures SegsOk(|mem + more|, segs) && View(mem + more, segs) == View(mem, segs)
  {
    if segs != [] {
      ViewGrows(mem, more, segs[1..]);
      assert (mem + more)[segs[0].start..segs[0].end] == mem[segs[0].start..segs[0].end];
    }
  }

  // ---------------------------------------------------------------- flat operations

  function Inserted(v: seq<Byte>, off: nat, src: seq<Byte>): seq<Byte>
    requires off <= |v|
  {
    v[..off] + src + v[off..]
  }

  function Deleted(v: seq<Byte>, off: nat, len: nat): seq<Byte>
    requires off + len <= |v|
  {
    v[..off] + v[off + len..]
  }

  function Overwritten(v: seq<Byte>, off: nat, src: seq<Byte>): seq<Byte>
    requires off + |src| <= |v|
  {
    v[..off] + src + v[off + |src|..]
  }

  // ---------------------------------------------------------------- insertion

  lemma InsertBetween(mem: seq<Byte>, segs: seq<Seg>, i: nat, s: Seg)
    requires SegsOk(|mem|, segs) && i <= |segs| && SegOk(|mem|, s)
    ensures SegsOk(|mem|, segs[..i] + [s] + segs[i..])
    ensures 0 <= LenTo(segs, i) <= |View(mem, segs)|
    ensures View(mem, segs[..i] + [s] + segs[i..]) == Inserted(View(mem, segs), LenTo(segs, i), mem[s.start..s.end])
  {
    ViewSplit(mem, segs, i);
    ViewLength(mem, segs, i);
    ViewOne(mem, s);
    ViewJoin(mem, segs[..i], [s]);
    ViewJoin(mem, segs[..i] + [s], segs[i..]);
  }

  function CutAt(segs: seq<Seg>, i: nat, k: int): seq<Seg>
    requires i < |segs|
  {
    var s := segs[i];
    segs[..i] + [s.(end := s.start + k)] + [s.(start := s.start + k)] + segs[i + 1..]
  }

  lemma {:induction false} LenPrefix(a: seq<Seg>, b: seq<Seg>, i: nat)
    requires i <= |a| && i <= |b| && a[..i] == b[..i]
    ensures LenTo(a, i) == LenTo(b, i)
  {
    if i > 0 {
      assert a[..i - 1] == a[..i][..i - 1] && b[..i - 1] == b[..i][..i - 1];
      LenPrefix(a, b, i - 1);
      assert a[i - 1] == a[..i][i - 1] && b[i - 1] == b[..i][i - 1];
    }
  }

  // ---------------------------------------------------------------- deletion

  lemma DeleteMiddle(a: seq<Byte>, x: seq<Byte>, b: seq<Byte>, d: nat, m: nat)
    requires d + m <= |x|
    ensures Deleted(a + (x + b), |a| + d, m) == a + (x[..d] + x[d + m..] + b)
  {
    var v := a + (x + b);
    assert v[..|a| + d] == a + x[..d];
    assert v[|a| + d + m..] == x[d + m..] + b;
  }

  lemma OverwriteMiddle(a: seq<Byte>, x: seq<Byte>, b: seq<Byte>, d: nat, c: seq<Byte>)
    requires d + |c| <= |x|
    ensures Overwritten(a + (x + b), |a| + d, c) == a + (Overwritten(x, d, c) + b)
  {
    var v := a + (x + b);
    assert v[..|a| + d] == a + x[..d];
    assert v[|a| + d + |c|..] == x[d + |c|..] + b;
  }

  /** Three parts: what precedes segment i, the segment, and what follows it. */
  lemma ThreeParts(mem: seq<Byte>, segs: seq<Seg>, i: nat)
    requires SegsOk(|mem|, segs) && i < |segs|
    ensures View(mem, segs) == View(mem, segs[..i]) + (mem[segs[i].start..segs[i].end] + View(mem, segs[i + 1..]))
    ensures |View(mem, segs[..i])| == LenTo(segs, i) && LenTo(segs, i + 1) == LenTo(segs, i) + Len(segs[i])
  {
    ViewSplit(mem, segs, i);
    ViewLength(mem, segs, i);
    assert segs[i..][1..] == segs[i + 1..];
  }

  /** Cutting segment i in two changes nothing. */
  lemma SplitSegment(mem: seq<Byte>, segs: seq<Seg>, i: nat, k: int)
    requires SegsOk(|mem|, segs) && i < |segs| && 0 <= k <= Len(segs[i])
    ensures var t := CutAt(segs, i, k);
            SegsOk(|mem|, t) && View(mem, t) == View(mem, segs) && |t| == |segs| + 1
              && LenTo(t, i + 1) == LenTo(segs, i) + k
  {
    hide View, LenTo, SegsOk;
    var s := segs[i];
    var a, b := s.(end := s.start + k), s.(start := s.start + k);
    SegAt(|mem|, segs, i);
    PartsOk(|mem|, segs, i);
    ThreeParts(mem, segs, i);
    ViewOne(mem, a);
    ViewOne(mem, b);
    ViewJoin(mem, segs[..i], [a]);
    ViewJoin(mem, segs[..i] + [a], [b]);
    ViewJoin(mem, segs[..i] + [a] + [b], segs[i + 1..]);
    Halves(mem, View(mem, segs[..i]), s.start, s.start + k, s.end, View(mem, segs[i + 1..]));
    CutLength(segs, i, k);
  }

  lemma SegAt(size: int, segs: seq<Seg>, i: nat)
    requires SegsOk(size, segs) && i < |segs|
    ensures SegOk(size, segs[i]) && 0 <= segs[i].start <= segs[i].end <= size
  {
  }

  lemma PartsOk(size: int, segs: seq<Seg>, i: nat)
    requires SegsOk(size, segs) && i < |segs|
    ensures SegsOk(size, segs[..i]) && SegsOk(size, segs[i + 1..])
  {
  }

  lemma Halves(mem: seq<Byte>, p: seq<Byte>, x: int, y: int, z: int, q: seq<Byte>)
    requires 0 <= x <= y <= z <= |mem|
    ensures p + mem[x..y] + mem[y..z] + q == p + (mem[x..z] + q)
  {
    assert mem[x..z] == mem[x..y] + mem[y..z];
  }

  lemma CutLength(segs: seq<Seg>, i: nat, k: int)
    requires i < |segs|
    ensures var t := CutAt(segs, i, k); |t| == |segs| + 1 && LenTo(t, i + 1) == LenTo(segs, i) + k
  {
    var t := CutAt(segs, i, k);
    assert t[..i] == segs[..i];
    LenPrefix(segs, t, i);
  }

  /** Dropping bytes from the front or the end of segment i drops them from the view. */
  lemma Shortened(mem: seq<Byte>, segs: seq<Seg>, i: nat, d: nat, m: nat, s': Seg)
    requires SegsOk(|mem|, segs) && i < |segs| && d + m <= Len(segs[i]) && SegOk(|mem|, s')
    requires mem[s'.start..s'.end] == mem[segs[i].start..segs[i].start + d] + mem[segs[i].start + d + m..segs[i].end]
    ensures SegsOk(|mem|, segs[i := s']) && 0 <= LenTo(segs, i) && LenTo(segs, i) + d + m <= |View(mem, segs)|
    ensures View(mem, segs[i := s']) == Deleted(View(mem, segs), LenTo(segs, i) + d, m)
    ensures LenTo(segs[i := s'], i) == LenTo(segs, i) && LenTo(segs[i := s'], i + 1) == LenTo(segs, i + 1) - m
  {
    hide View, LenTo, SegsOk, SegOk, Deleted;
    var t, s := segs[i := s'], segs[i];
    SegAt(|mem|, segs, i);
    UpdateOk(|mem|, segs, i, s');
    PartsOk(|mem|, segs, i);
    ThreeParts(mem, segs, i);
    ThreeParts(mem, t, i);
    SameAround(segs, i, s');
    LenPrefix(segs, t, i);
    LenMonotone(|mem|, segs, 0, i);
    ShortenedSegment(mem, s, d, m, s');
    DeleteMiddle(View(mem, segs[..i]), mem[s.start..s.end], View(mem, segs[i + 1..]), d, m);
  }

  lemma UpdateOk(size: int, segs: seq<Seg>, i: nat, s: Seg)
    requires SegsOk(size, segs) && i < |segs| && SegOk(size, s)
    ensures SegsOk(size, segs[i := s])
  {
  }

  lemma SameAround(segs: seq<Seg>, i: nat, s: Seg)
    requires i < |segs|
    ensures segs[i := s][..i] == segs[..i] && segs[i := s][i + 1..] == segs[i + 1..]
  {
  }

  lemma ShortenedSegment(mem: seq<Byte>, s: Seg, d: nat, m: nat, s': Seg)
    requires SegOk(|mem|, s) && SegOk(|mem|, s') && d + m <= Len(s)
    requires mem[s'.start..s'.end] == mem[s.start..s.start + d] + mem[s.start + d + m..s.end]
    ensures var x := mem[s.start..s.end]; mem[s'.start..s'.end] == x[..d] + x[d + m..] && Len(s') == Len(s) - m
  {
    var x := mem[s.start..s.end];
    assert x[..d] == mem[s.start..s.start + d] && x[d + m..] == mem[s.start + d + m..s.end];
    assert |mem[s'.start..s'.end]| == Len(s');
  }

  lemma DeletedTwice(v: seq<Byte>, off: nat, a: nat, b: nat)
    requires off + a + b <= |v|
    ensures Deleted(Deleted(v, off, a), off, b) == Deleted(v, off, a + b)
  {
    var w := Deleted(v, off, a);
    assert w[..off] == v[..off] && w[off + b..] == v[off + a + b..];
  }

  // ---------------------------------------------------------------- overwriting in place

  ghost predicate ApartSegs(a: Seg, b: Seg) {
    a.end <= b.start || b.end <= a.start || a.start == a.end || b.start == b.end
  }

  /** No two segments share memory. */
  ghost predicate Unshared(segs: seq<Seg>) {
    forall i, j {:trigger segs[i], segs[j]} :: 0 <= i < j < |segs| ==> ApartSegs(segs[i], segs[j])
  }

  function Stored(mem: seq<Byte>, a: nat, c: seq<Byte>): (mem': seq<Byte>)
    requires a + |c| <= |mem|
    ensures |mem'| == |mem|
  {
    mem[..a] + c + mem[a + |c|..]
  }

  lemma {:induction false} ViewElsewhere(mem: seq<Byte>, segs: seq<Seg>, a: nat, c: seq<Byte>)
    requires SegsOk(|mem|, segs) && a + |c| <= |mem|
    requires forall j {:trigger segs[j]} :: 0 <= j < |segs| ==> ApartSegs(segs[j], Seg(a, a + |c|, 0))
    ensures View(Stored(mem, a, c), segs) == View(mem, segs)
  {
    if segs != [] {
      ViewElsewhere(mem, segs[1..], a, c);
      var s, mem' := segs[0], Stored(mem, a, c);
      forall k | s.start <= k < s.end
        ensures mem'[k] == mem[k]
      {
        assert ApartSegs(segs[0], Seg(a, a + |c|, 0));
      }
      assert mem'[s.start..s.end] == mem[s.start..s.end];
    }
  }

  /** A store inside segment i overwrites that part of the view, and nothing else. */
  lemma StoreInSegment(mem: seq<Byte>, segs: seq<Seg>, i: nat, d: nat, c: seq<Byte>)
    requires SegsOk(|mem|, segs) && Unshared(segs) && i < |segs| && d + |c| <= Len(segs[i])
    ensures var mem' := Stored(mem, segs[i].start + d, c);
            && |mem'| == |mem| && 0 <= LenTo(segs, i) && LenTo(segs, i) + d + |c| <= |View(mem, segs)|
            && View(mem', segs) == Overwritten(View(mem, segs), LenTo(segs, i) + d, c)
  {
    hide View, LenTo, Stored, Overwritten;
    var s, a := segs[i], segs[i].start + d;
    var mem' := Stored(mem, a, c);
    ThreeParts(mem, segs, i);
    ThreeParts(mem', segs, i);
    forall j | 0 <= j < |segs| && j != i
      ensures ApartSegs(segs[j], Seg(a, a + |c|, 0))
    {
      assert if j < i then ApartSegs(segs[j], segs[i]) else ApartSegs(segs[i], segs[j]);
    }
    ViewElsewhere(mem, segs[..i], a, c);
    ViewElsewhere(mem, segs[i + 1..], a, c);
    StoredSegment(mem, s, d, c);
    OverwriteMiddle(View(mem, segs[..i]), mem[s.start..s.end], View(mem, segs[i + 1..]), d, c);
  }

  lemma StoredSegment(mem: seq<Byte>, s: Seg, d: nat, c: seq<Byte>)
    requires SegOk(|mem|, s) && d + |c| <= Len(s)
    ensures var mem' := Stored(mem, s.start + d, c);
            |mem'| == |mem| && mem'[s.start..s.end] == Overwritten(mem[s.start..s.end], d, c)
  {
  }

  lemma OverwrittenTwice(v: seq<Byte>, off: nat, a: seq<Byte>, b: seq<Byte>)
    requires off + |a| + |b| <= |v|
    ensures Overwritten(Overwritten(v, off, a), off + |a|, b) == Overwritten(v, off, a + b)
  {
    var w := Overwritten(v, off, a);
    assert w[..off + |a|] == v[..off] + a && w[off + |a| + |b|..] == v[off + |a| + |b|..];
  }
}
