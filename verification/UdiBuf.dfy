/** UDI buffers: udi_buf_write on a list of segments against splices of a flat byte sequence,
    udi_buf_read, and compaction. */
module UdiBuf {
  import opened Segments

  const BF_CHAR: Byte := 0xCA

  datatype Option<T> = None | Some(value: T)

  /** What udi_buf_write does to the flat view: dst_len bytes at dst_off make way for the source bytes. */
  function Spliced(v: seq<Byte>, off: nat, len: nat, src: seq<Byte>): seq<Byte>
    requires off + len <= |v|
  {
    v[..off] + src + v[off + len..]
  }

  /** How many segments point into a memory block. */
  function Sharers(segs: seq<Seg>, blk: int): nat {
    if segs == [] then 0 else (if segs[0].blk == blk then 1 else 0) + Sharers(segs[1..], blk)
  }

  lemma {:induction false} SharersJoin(a: seq<Seg>, b: seq<Seg>, blk: int)
    ensures Sharers(a + b, blk) == Sharers(a, blk) + Sharers(b, blk)
  {
    if a == [] {
      assert a + b == b;
    } else {
      SharersJoin(a[1..], b, blk);
      assert (a + b)[1..] == a[1..] + b;
    }
  }

  lemma SharersOne(s: Seg, blk: int)
    ensures Sharers([s], blk) == if s.blk == blk then 1 else 0
  {
    assert [s][1..] == [];
  }

  lemma SharersInsert(segs: seq<Seg>, i: nat, s: Seg, blk: int)
    requires i <= |segs|
    ensures Sharers(segs[..i] + [s] + segs[i..], blk) == Sharers(segs, blk) + if s.blk == blk then 1 else 0
  {
    SharersJoin(segs[..i] + [s], segs[i..], blk);
    SharersJoin(segs[..i], [s], blk);
    SharersJoin(segs[..i], segs[i..], blk);
    SharersOne(s, blk);
    assert segs == segs[..i] + segs[i..];
  }

  lemma SharersUpdate(segs: seq<Seg>, i: nat, s: Seg, blk: int)
    requires i < |segs| && s.blk == segs[i].blk
    ensures Sharers(segs[i := s], blk) == Sharers(segs, blk)
  {
    var t := segs[i := s];
    assert segs == segs[..i] + [segs[i]] + segs[i + 1..] && t == segs[..i] + [s] + segs[i + 1..];
    SharersJoin(segs[..i] + [segs[i]], segs[i + 1..], blk);
    SharersJoin(segs[..i], [segs[i]], blk);
    SharersJoin(segs[..i] + [s], segs[i + 1..], blk);
    SharersJoin(segs[..i], [s], blk);
    SharersOne(s, blk);
    SharersOne(segs[i], blk);
  }

  /** Each block's reference count is the number of segments that point into it. */
  ghost predicate Counted(refcnt: seq<int>, segs: seq<Seg>) {
    && (forall i {:trigger segs[i]} :: 0 <= i < |segs| ==> 0 <= segs[i].blk < |refcnt|)
    && (forall b :: 0 <= b < |refcnt| ==> refcnt[b] == Sharers(segs, b))
  }

  /** A segment added in front of position i of the list: new memory, or the second half of a cut segment. */
  lemma CountedInsert(refcnt: seq<int>, segs: seq<Seg>, i: nat, s: Seg)
    requires Counted(refcnt, segs) && i <= |segs| && 0 <= s.blk < |refcnt|
    ensures Counted(refcnt[s.blk := refcnt[s.blk] + 1], segs[..i] + [s] + segs[i..])
  {
    forall b | 0 <= b < |refcnt|
      ensures refcnt[s.blk := refcnt[s.blk] + 1][b] == Sharers(segs[..i] + [s] + segs[i..], b)
    {
      SharersInsert(segs, i, s, b);
    }
  }

  lemma CountedNew(refcnt: seq<int>, segs: seq<Seg>)
    requires Counted(refcnt, segs)
    ensures Counted(refcnt + [0], segs)
  {
    NoSharers(segs, |refcnt|);
  }

  lemma {:induction false} NoSharers(segs: seq<Seg>, blk: int)
    requires forall i {:trigger segs[i]} :: 0 <= i < |segs| ==> segs[i].blk < blk
    ensures Sharers(segs, blk) == 0
  {
    if segs != [] {
      NoSharers(segs[1..], blk);
    }
  }

  lemma CountedUpdate(refcnt: seq<int>, segs: seq<Seg>, i: nat, s: Seg)
    requires Counted(refcnt, segs) && i < |segs| && s.blk == segs[i].blk
    ensures Counted(refcnt, segs[i := s])
  {
    forall b | 0 <= b < |refcnt|
      ensures refcnt[b] == Sharers(segs[i := s], b)
    {
      SharersUpdate(segs, i, s, b);
    }
  }

  lemma UnsharedUpdate(segs: seq<Seg>, i: nat, s: Seg)
    requires Unshared(segs) && i < |segs|
      && (s.start == s.end || (segs[i].start <= s.start && s.end <= segs[i].end)) && s.start <= s.end
    ensures Unshared(segs[i := s])
  {
    var t := segs[i := s];
    forall j, k | 0 <= j < k < |t|
      ensures ApartSegs(t[j], t[k])
    {
      assert ApartSegs(segs[j], segs[k]);
    }
  }

  lemma UnsharedInsert(size: int, segs: seq<Seg>, i: nat, s: Seg)
    requires Unshared(segs) && i <= |segs| && forall j {:trigger segs[j]} :: 0 <= j < |segs| ==> ApartSegs(segs[j], s)
    ensures Unshared(segs[..i] + [s] + segs[i..])
  {
    var t := segs[..i] + [s] + segs[i..];
    forall j, k | 0 <= j < k < |t|
      ensures ApartSegs(t[j], t[k])
    {
      assert t[j] == if j < i then segs[j] else if j == i then s else segs[j - 1];
      assert t[k] == if k < i then segs[k] else if k == i then s else segs[k - 1];
      if j != i && k != i {
        assert ApartSegs(segs[if j < i then j else j - 1], segs[if k < i then k else k - 1]);
      }
    }
  }

  /** Where an insertion goes: the first segment from i on that reaches past off, and how far into it. */
  function Holding(segs: seq<Seg>, i: nat, off: int): (nat, int)
    decreases |segs| - i
  {
    if i < |segs| && Len(segs[i]) <= off then Holding(segs, i + 1, off - Len(segs[i])) else (i, off)
  }

  /** The list with segment s added at off, cutting a segment in two if off lies inside one. */
  function InsertedSegs(segs: seq<Seg>, off: int, s: Seg): seq<Seg> {
    var (i, k) := Holding(segs, 0, off);
    if i < |segs| && k > 0 then CutAt(segs, i, k)[..i + 1] + [s] + CutAt(segs, i, k)[i + 1..]
    else if i <= |segs| then segs[..i] + [s] + segs[i..]
    else segs
  }

  /** Where a deletion starts: the first segment from i on that reaches off, if only with its end. */
  function Reaching(segs: seq<Seg>, i: nat, off: int): (nat, int)
    decreases |segs| - i
  {
    if i < |segs| && Len(segs[i]) < off then Reaching(segs, i + 1, off - Len(segs[i])) else (i, off)
  }

  /** The list without n bytes from offset o of segment i on; a segment that loses all its bytes to a deletion
      that goes on behind it becomes NULL. */
  function DroppedSegs(segs: seq<Seg>, i: nat, o: int, n: int): seq<Seg>
    decreases |segs| - i
  {
    if i >= |segs| || n == 0 then segs
    else if o != 0 then DroppedSegs(segs[i := segs[i].(end := segs[i].start + o)], i + 1, 0, n - (Len(segs[i]) - o))
    else if Len(segs[i]) < n then DroppedSegs(segs[i := segs[i].(start := NULL, end := NULL)], i + 1, 0,
      n - Len(segs[i]))
    else segs[i := segs[i].(start := segs[i].start + n)]
  }

  function DeletedSegs(segs: seq<Seg>, off: int, len: int): seq<Seg> {
    var (i, k) := Reaching(segs, 0, off);
    if i < |segs| && k != 0 && Len(segs[i]) > k + len then
      CutAt(segs, i, k)[i + 1 := segs[i].(start := segs[i].start + k + len)]
    else DroppedSegs(segs, i, k, len)
  }

  /** Byte a of memory is behind a place of the view from from on and before to. */
  ghost predicate Behind(segs: seq<Seg>, a: int, from: int, to: int) {
    exists j {:trigger segs[j]} ::
      0 <= j < |segs| && segs[j].start <= a < segs[j].end && from <= LenTo(segs, j) + a - segs[j].start < to
  }

  /** Memory differs only behind those places. */
  ghost predicate OnlyBehind(mem: seq<Byte>, mem': seq<Byte>, segs: seq<Seg>, from: int, to: int) {
    |mem'| == |mem| && forall a :: 0 <= a < |mem| && mem'[a] != mem[a] ==> Behind(segs, a, from, to)
  }

  /** The list a call of udi_buf_write leaves: overwriting changes none of it, and a call for no bytes nothing. */
  function WrittenSegs(segs: seq<Seg>, src: Option<seq<Byte>>, off: int, len: int, memory: int, blk: int): seq<Seg> {
    if src.None? then if len == 0 then segs else DeletedSegs(segs, off, len)
    else if len != 0 || src.value == [] then segs
    else InsertedSegs(segs, off, Seg(memory, memory + |src.value|, blk))
  }

  class Buffer {
    // Physical memory, from address 0 on. Nothing is ever stored at address 0.
    var mem: seq<Byte>
    var segs: seq<Seg>
    var bufSize: int
    var totalSize: int
    var refcnt: seq<int>

    /** The list is well formed, its lengths sum to totalSize, and no byte belongs to two segments. */
    ghost predicate Valid()
      reads this
    {
      && 0 < |mem| && SegsOk(|mem|, segs) && Unshared(segs) && Counted(refcnt, segs) && segs != []
      && totalSize == LenTo(segs, |segs|) && 0 <= bufSize
    }

    /** Every byte of the buffer has memory behind it. */
    ghost predicate Backed()
      reads this
    {
      Valid() && bufSize == totalSize
    }

    ghost function Bytes(): seq<Byte>
      reads this
      requires SegsOk(|mem|, segs)
    {
      View(mem, segs)
    }

    /** Allocate, and initialise from src. Without bytes there is no memory, and the segment is NULL. */
    constructor Init(src: seq<Byte>)
      ensures Backed() && Bytes() == src
      ensures mem == [0] + src && segs == [if src == [] then Seg(NULL, NULL, 0) else Seg(1, 1 + |src|, 0)]
        && refcnt == [1]
    {
      mem := [0] + src;
      segs := [if src == [] then Seg(NULL, NULL, 0) else Seg(1, 1 + |src|, 0)];
      refcnt := [1];
      bufSize := |src|;
      totalSize := |src|;
      new;
      ViewOne(mem, segs[0]);
      SharersOne(segs[0], 0);
      WholeLength(mem, segs);
    }

    /** Allocate without memory: all of it is virtual. */
    constructor Reserve(size: nat)
      ensures Valid() && Bytes() == [] && bufSize == size && totalSize == 0
      ensures mem == [0] && segs == [Seg(NULL, NULL, 0)]
    {
      mem := [0];
      segs := [Seg(NULL, NULL, 0)];
      refcnt := [1];
      bufSize := size;
      totalSize := 0;
      new;
      ViewOne(mem, segs[0]);
      SharersOne(segs[0], 0);
      WholeLength(mem, segs);
    }

    // -------------------------------------------------------------- insert

    /** How much memory an insertion needs, and whether it cuts a segment in two. */
    method CalcInsert(off: int, srcLen: nat) returns (memAlloc: int, cut: bool)
      requires Backed() && 0 <= off <= bufSize
      ensures memAlloc == srcLen
      ensures cut <==> forall j {:trigger LenTo(segs, j)} :: 0 <= j <= |segs| ==> LenTo(segs, j) != off
    {
      memAlloc, cut := srcLen, false;
      var i, offset := 0, 0;
      while i < |segs| && offset < off
        invariant 0 <= i <= |segs| && offset == LenTo(segs, i)
        invariant forall j {:trigger LenTo(segs, j)} :: 0 <= j < i ==> LenTo(segs, j) < off
      {
        offset := offset + Len(segs[i]);
        i := i + 1;
      }
      if offset == off {
        memAlloc := srcLen;
      } else if offset < off || (offset == 0 && bufSize == 0) {
        memAlloc := off + srcLen - offset;
      } else {
        cut := true;
        forall j: nat {:trigger LenTo(segs, j)} | i <= j <= |segs|
          ensures LenTo(segs, j) > off
        {
          LenMonotone(|mem|, segs, i, j);
        }
      }
    }

    /** The segment that holds the byte at off, or the end of the list. */
    method FindInsert(off: int) returns (i: nat, offset: int)
      requires Valid() && 0 <= off <= totalSize
      ensures i <= |segs| && offset == LenTo(segs, i) <= off && (i < |segs| ==> off < LenTo(segs, i + 1))
      ensures forall j: nat {:trigger LenTo(segs, j)} :: j <= |segs| && LenTo(segs, j) == off ==> offset == off
      ensures Holding(segs, 0, off) == (i, off - offset)
    {
      i, offset := 0, 0;
      while i < |segs| && offset + Len(segs[i]) <= off
        invariant i <= |segs| && offset == LenTo(segs, i) <= off
          && Holding(segs, i, off - offset) == Holding(segs, 0, off)
      {
        offset := offset + Len(segs[i]);
        i := i + 1;
      }
      forall j: nat {:trigger LenTo(segs, j)} | j <= |segs| && LenTo(segs, j) == off
        ensures offset == off
      {
        if j <= i {
          LenMonotone(|mem|, segs, j, i);
        } else {
          LenMonotone(|mem|, segs, i + 1, j);
        }
      }
    }

    method Insert(off: int, src: seq<Byte>)
      requires Backed() && 0 <= off <= bufSize
      modifies this
      ensures off <= |old(Bytes())| == old(bufSize)
      ensures Backed() && Bytes() == Spliced(old(Bytes()), off, 0, src)
      ensures mem == old(mem) + src && refcnt != [] && |refcnt| == |old(refcnt)| + 1
      ensures segs == InsertedSegs(old(segs), off, Seg(|old(mem)|, |old(mem)| + |src|, |old(refcnt)|))
    {
      hide Holding;
      hide View, Unshared, Counted, LenTo;
      ghost var v := Bytes();
      WholeLength(mem, segs);
      var memAlloc, cut := CalcInsert(off, |src|);
      var i, offset := FindInsert(off);
      if cut {
        var d, k := segs[i], off - offset;
        FoundInside(segs, i, off, offset);
        CutInTwo(mem, segs, refcnt, i, k);
        segs := CutAt(segs, i, k);
        refcnt := refcnt[d.blk := refcnt[d.blk] + 1];
        i := i + 1;
      }
      var added := Seg(|mem|, |mem| + memAlloc, |refcnt|);
      InsertedRope(mem, segs, refcnt, i, src);
      mem := mem + src;
      segs := segs[..i] + [added] + segs[i..];
      refcnt := refcnt + [1];
      totalSize := totalSize + memAlloc;
      bufSize := bufSize + |src|;
      WholeLength(mem, segs);
      assert v[off + 0..] == v[off..];
    }

    // -------------------------------------------------------------- delete

    /** The first segment that reaches off; off may be its very end. */
    method FindDelete(off: int) returns (i: nat, offset: int)
      requires Valid() && 0 <= off <= totalSize
      ensures i < |segs| && offset == LenTo(segs, i) <= off <= LenTo(segs, i + 1)
      ensures Reaching(segs, 0, off) == (i, off - offset)
    {
      i, offset := 0, 0;
      while i < |segs| && Len(segs[i]) + offset < off
        invariant i <= |segs| && offset == LenTo(segs, i) <= off && (i == |segs| ==> offset < off)
        invariant Reaching(segs, i, off - offset) == Reaching(segs, 0, off)
      {
        offset := offset + Len(segs[i]);
        i := i + 1;
      }
    }

    method Delete(off: int, len: int)
      requires Backed() && 0 <= off <= bufSize && 0 <= len <= bufSize - off
      modifies this
      ensures off + len <= |old(Bytes())| == old(bufSize)
      ensures Backed() && Bytes() == Spliced(old(Bytes()), off, len, [])
      ensures segs == DeletedSegs(old(segs), off, len) && mem == old(mem) && |refcnt| == |old(refcnt)|
    {
      hide Reaching, DroppedSegs;
      hide View, Unshared, Counted, LenTo, SegsOk, SegOk, CutAt, Spliced, Deleted, Reshaped;
      ghost var v := Bytes();
      WholeLength(mem, segs);
      var i, offset := FindDelete(off);
      SegAt(|mem|, segs, i);
      LenNext(segs, i);
      DeletedIsSpliced(v, off, len);
      if offset != off && Len(segs[i]) > off - offset + len {
        var d, k := segs[i], off - offset;
        HoleCut(mem, segs, refcnt, i, k, len);
        segs := CutAt(segs, i, k)[i + 1 := d.(start := d.start + k + len)];
        refcnt := refcnt[d.blk := refcnt[d.blk] + 1];
      } else {
        DropBytes(i, off, off - offset, len);
      }
      totalSize := bufSize - len;
      bufSize := bufSize - len;
      WholeLength(mem, segs);
    }

    /** Take count bytes at off away, from segment i on: clip the end of the first segment, empty whole
        segments, and move the front of the last one. */
    method DropBytes(i0: nat, off: int, o0: int, len: int)
      requires SegsOk(|mem|, segs) && Unshared(segs) && Counted(refcnt, segs) && 0 <= off && 0 <= len
        && off + len <= LenTo(segs, |segs|)
      requires i0 < |segs| && 0 <= o0 <= Len(segs[i0]) && off == LenTo(segs, i0) + o0
        && (o0 > 0 ==> Len(segs[i0]) <= o0 + len)
      modifies this`segs
      ensures off + len <= |old(Bytes())|
      ensures SegsOk(|mem|, segs) && Unshared(segs) && Counted(refcnt, segs) && |segs| == |old(segs)|
      ensures Bytes() == Deleted(old(Bytes()), off, len)
      ensures segs == DroppedSegs(old(segs), i0, o0, len)
    {
      hide View, Unshared, Counted, Reshaped, LenTo, SegsOk, Deleted;
      ghost var v := Bytes();
      WholeLength(mem, segs);
      DeletedNothing(v, off);
      var i, o, count := i0, o0, len;
      while i < |segs| && count != 0
        invariant |segs| == |old(segs)| && i <= |segs| && 0 <= count <= len && 0 <= o
        invariant SegsOk(|mem|, segs) && Unshared(segs) && Counted(refcnt, segs)
        invariant View(mem, segs) == Deleted(v, off, len - count)
        invariant count != 0 ==> LenTo(segs, i) + o == off
        invariant o > 0 ==> i < |segs| && o <= Len(segs[i]) <= o + count
        invariant LenTo(segs, |segs|) == |v| - (len - count)
        invariant DroppedSegs(segs, i, o, count) == DroppedSegs(old(segs), i0, o0, len)
        decreases |segs| - i
      {
        var s, n, dropped := segs[i], Len(segs[i]), count;
        SegAt(|mem|, segs, i);
        LenNext(segs, i);
        if o == 0 {
          if n < count {
            SegmentEmptied(mem, segs, refcnt, i);
            dropped := n;
            s := s.(start := NULL, end := NULL);
          } else {
            FrontDropped(mem, segs, refcnt, i, count);
            s := s.(start := s.start + count);
          }
        } else {
          EndDropped(mem, segs, refcnt, i, o);
          dropped := n - o;
          s := s.(end := s.start + o);
        }
        DropStep(mem, v, segs, refcnt, i, s, off, len - count, dropped);
        count := count - dropped;
        segs := segs[i := s];
        i := i + 1;
        o := 0;
      }
    }

    // -------------------------------------------------------------- overwrite

    /** Copy src over the bytes from off on, segment by segment. */
    method Overwrite(src: seq<Byte>, off: int)
      requires Backed() && 0 <= off && 0 < |src| && off + |src| <= bufSize
      modifies this`mem
      ensures off + |src| <= |old(Bytes())|
      ensures Backed() && Bytes() == Overwritten(old(Bytes()), off, src)
      ensures OnlyBehind(old(mem), mem, segs, off, off + |src|)
    {
      hide View, Counted, Unshared, Overwritten, Stored, OnlyBehind, Behind;
      ghost var v := Bytes();
      WholeLength(mem, segs);
      OverwrittenNothing(v, off);
      NothingStored(mem, segs, off);
      var tocopy, i: nat, offset := |src|, 0, 0;
      var seglen := Len(segs[0]);
      while offset + seglen < off || seglen == 0
        modifies {}
        invariant i < |segs| && offset == LenTo(segs, i) <= off && seglen == Len(segs[i])
        decreases |segs| - i
      {
        NotLast(|mem|, segs, i);
        offset := offset + seglen;
        i := i + 1;
        seglen := Len(segs[i]);
      }
      var copysize := offset + seglen - off;
      if copysize > tocopy {
        copysize := tocopy;
      }
      var copied := 0;
      if copysize != 0 {
        StoreStep(mem, segs, v, i, off - offset, src, off, 0, copysize);
        StoreBehind(mem, mem, segs, i, off - offset, src[..copysize], off, off);
        mem := Stored(mem, segs[i].start + (off - offset), src[..copysize]);
        copied := copysize;
      }
      tocopy := tocopy - copysize;
      while tocopy != 0
        invariant |mem| == |old(mem)| && i < |segs| && 0 <= tocopy && 0 <= copied && copied + tocopy == |src|
        invariant View(mem, segs) == Overwritten(v, off, src[..copied])
        invariant OnlyBehind(old(mem), mem, segs, off, off + copied)
        invariant tocopy != 0 ==> LenTo(segs, i + 1) == off + copied
        decreases |segs| - i
      {
        NotLast(|mem|, segs, i);
        i := i + 1;
        copysize := Len(segs[i]);
        if copysize > tocopy {
          copysize := tocopy;
        }
        StoreStep(mem, segs, v, i, 0, src, off, copied, copysize);
        StoreBehind(old(mem), mem, segs, i, 0, src[copied..copied + copysize], off, off + copied);
        mem := Stored(mem, segs[i].start, src[copied..copied + copysize]);
        copied := copied + copysize;
        tocopy := tocopy - copysize;
      }
      assert src[..copied] == src;
    }

    // -------------------------------------------------------------- udi_buf_write

    /** udi_buf_write on a buffer that exists: no source means delete, no target bytes means insert, and as many
        source as target bytes means overwrite. */
    method Write(src: Option<seq<Byte>>, off: int, len: int)
      requires Backed() && 0 <= off <= bufSize && 0 <= len <= bufSize - off
      requires src.Some? ==> len == 0 || len == |src.value|
      modifies this
      ensures off + len <= |old(Bytes())|
      ensures Backed() && Bytes() == Spliced(old(Bytes()), off, len, if src.Some? then src.value else [])
      ensures segs == WrittenSegs(old(segs), src, off, len, |old(mem)|, |old(refcnt)|)
      ensures if src.Some? && len == 0 then mem == old(mem) + src.value
              else OnlyBehind(old(mem), mem, segs, off, off + if src.Some? then len else 0)
    {
      hide Behind, InsertedSegs, DeletedSegs;
      ghost var v := Bytes();
      WholeLength(mem, segs);
      assert v[..off] + v[off + len..] == v[..off] + [] + v[off + len..];
      assert v == v[..off] + v[off..];
      if (src.None? || |src.value| == 0) && len == 0 {
        return;
      }
      if src.None? {
        Delete(off, len);
      } else if len != 0 {
        Overwrite(src.value, off);
      } else {
        Insert(off, src.value);
      }
    }

    // -------------------------------------------------------------- reading

    /** The buffer as its users see it: bufSize bytes, filled up with BF_CHAR where no memory is behind them. */
    ghost function Flat(): seq<Byte>
      reads this
      requires Valid()
    {
      Padded(View(mem, segs), bufSize)
    }

    /** The first non-empty segment that reaches off. */
    method FindRead(off: int) returns (i: nat, offset: int)
      requires Valid() && 0 <= off < totalSize
      ensures i < |segs| && offset == LenTo(segs, i) <= off <= offset + Len(segs[i])
    {
      hide View, Counted, Unshared, LenTo, SegsOk;
      LenNone(segs);
      i, offset := 0, 0;
      var n := Len(segs[0]);
      while offset + n < off || n == 0
        invariant i < |segs| && offset == LenTo(segs, i) <= off && n == Len(segs[i])
        decreases |segs| - i
      {
        LenNext(segs, i);
        NotLast(|mem|, segs, i);
        offset := offset + n;
        i := i + 1;
        n := Len(segs[i]);
      }
    }

    /** Copy from each further segment until all is copied or the list ends. */
    method ReadRest(i0: nat, off: int, got: seq<Byte>, tocopy0: int) returns (dst: seq<Byte>)
      requires Valid() && i0 < |segs| && 0 <= off && 0 <= tocopy0
        && (tocopy0 != 0 ==> LenTo(segs, i0 + 1) == off + |got|)
      requires off + |got| <= |View(mem, segs)| && got == View(mem, segs)[off..off + |got|]
      ensures |dst| <= |got| + tocopy0 && off + |dst| <= |View(mem, segs)| && dst == View(mem, segs)[off..off + |dst|]
      ensures |dst| < |got| + tocopy0 ==> off + |dst| == |View(mem, segs)|
    {
      hide View, Counted, Unshared, LenTo, SegsOk;
      WholeLength(mem, segs);
      var i, tocopy := i0, tocopy0;
      dst := got;
      while tocopy != 0 && i + 1 < |segs|
        invariant i < |segs| && 0 <= tocopy && |dst| + tocopy == |got| + tocopy0
        invariant off + |dst| <= |View(mem, segs)| && dst == View(mem, segs)[off..off + |dst|]
        invariant tocopy != 0 ==> LenTo(segs, i + 1) == off + |dst|
        decreases |segs| - i
      {
        i := i + 1;
        var copysize := Len(segs[i]);
        SegAt(|mem|, segs, i);
        LenNext(segs, i);
        if copysize > tocopy {
          copysize := tocopy;
        }
        Collected(mem, segs, i, 0, copysize, off, dst);
        dst := dst + mem[segs[i].start..segs[i].start + copysize];
        tocopy := tocopy - copysize;
      }
    }

    /** The part of the range that has memory behind it. The first copy may start inside a segment. */
    method ReadSegments(off: int, len: int) returns (dst: seq<Byte>)
      requires Valid() && 0 <= off < totalSize && 0 <= len && off + len <= bufSize
      ensures |dst| <= len && off + |dst| <= |View(mem, segs)| && dst == View(mem, segs)[off..off + |dst|]
      ensures |dst| < len ==> off + |dst| == |View(mem, segs)|
    {
      hide View, Counted, Unshared, LenTo, SegsOk;
      var i, offset := FindRead(off);
      var n := Len(segs[i]);
      SegAt(|mem|, segs, i);
      LenNext(segs, i);
      var copysize := if offset + n - off <= bufSize then offset + n - off else bufSize - offset;
      if copysize > len {
        copysize := len;
      }
      Collected(mem, segs, i, off - offset, copysize, off, []);
      dst := mem[segs[i].start + (off - offset)..segs[i].start + (off - offset) + copysize];
      dst := ReadRest(i, off, dst, len - copysize);
    }

    /** udi_buf_read: nothing if the buffer is empty, else the requested part of the flat view. */
    method Read(off: int, len: int) returns (dst: seq<Byte>)
      requires Valid() && 0 <= off && 0 <= len && off + len <= bufSize
      ensures dst == Flat()[off..off + len]
    {
      hide View, Counted, Unshared, Padded;
      WholeLength(mem, segs);
      dst := [];
      if bufSize == 0 {
        return;
      }
      var ext := if bufSize > totalSize then bufSize - totalSize else 0;
      if totalSize > off {
        dst := ReadSegments(off, len);
      }
      var tocopy := len - |dst|;
      PaddedRead(View(mem, segs), bufSize, off, len, dst);
      if tocopy != 0 && ext != 0 {
        if tocopy < ext {
          ext := tocopy;
        }
        dst := dst + seq(ext, _ => BF_CHAR);
      }
    }

    /** _udi_buf_compact_allocated: the same bytes in one segment of memory of its own, fully backed. */
    constructor Compact(src: Buffer)
      requires src.Valid()
      ensures Backed() && bufSize == src.bufSize && |segs| == 1 && segs[0].start != NULL && Bytes() == src.Flat()
    {
      var m := Gather(src);
      mem := [0] + m;
      segs := [Seg(1, 1 + |m|, 0)];
      refcnt := [1];
      bufSize := src.bufSize;
      totalSize := src.bufSize;
      new;
      ViewOne(mem, segs[0]);
      SharersOne(segs[0], 0);
      WholeLength(mem, segs);
    }
  }

  // ---------------------------------------------------------------- runs

  /** A call of udi_buf_write within the scope of this model. */
  datatype BufOp = BufOp(src: Option<seq<Byte>>, off: int, len: int)

  function Source(op: BufOp): seq<Byte> {
    if op.src.Some? then op.src.value else []
  }

  predicate InScope(size: int, op: BufOp) {
    0 <= op.off <= size && 0 <= op.len <= size - op.off && (op.src.Some? ==> op.len == 0 || op.len == |op.src.value|)
  }

  /** The same calls as splices of a flat byte sequence; calls out of scope are not made. */
  function SplicedAll(v: seq<Byte>, ops: seq<BufOp>): seq<Byte> {
    if ops == [] then v
    else
      var w, op := SplicedAll(v, ops[..|ops| - 1]), ops[|ops| - 1];
      if InScope(|w|, op) then Spliced(w, op.off, op.len, Source(op)) else w
  }

  /** Any run of initialise, insert, delete and overwrite leaves the bytes the flat splices give. */
  method Run(src: seq<Byte>, ops: seq<BufOp>) returns (buf: Buffer)
    ensures buf.Backed() && buf.Bytes() == SplicedAll(src, ops)
  {
    buf := new Buffer.Init(src);
    for i := 0 to |ops|
      invariant fresh(buf) && buf.Backed() && buf.Bytes() == SplicedAll(src, ops[..i])
    {
      WholeLength(buf.mem, buf.segs);
      assert ops[..i + 1][..i] == ops[..i];
      if InScope(buf.bufSize, ops[i]) {
        buf.Write(ops[i].src, ops[i].off, ops[i].len);
      }
    }
    assert ops[..|ops|] == ops;
  }

  /** The copying part of compaction: fragment by fragment, then the fill characters. */
  method Gather(src: Buffer) returns (m: seq<Byte>)
    requires src.Valid()
    ensures m == src.Flat()
  {
    hide View, Counted, Unshared, LenTo, SegsOk, Padded;
    ghost var v := View(src.mem, src.segs);
    WholeLength(src.mem, src.segs);
    var tocopy := src.bufSize;
    var i: nat := 0;
    m := [];
    LenNone(src.segs);
    while tocopy != 0 && i < |src.segs|
      invariant i <= |src.segs| && 0 <= tocopy && |m| + tocopy == src.bufSize && |m| <= |v| && m == v[0..|m|]
      invariant tocopy != 0 ==> |m| == LenTo(src.segs, i)
      decreases |src.segs| - i
    {
      var seglen := Len(src.segs[i]);
      SegAt(|src.mem|, src.segs, i);
      LenNext(src.segs, i);
      if seglen != 0 {
        if tocopy < seglen {
          seglen := tocopy;
        }
        Collected(src.mem, src.segs, i, 0, seglen, 0, m);
        m := m + src.mem[src.segs[i].start..src.segs[i].start + seglen];
        tocopy := tocopy - seglen;
      }
      i := i + 1;
    }
    GatheredAll(v, m, src.bufSize);
    if tocopy != 0 {
      m := m + seq(tocopy, _ => BF_CHAR);
    }
  }

  lemma GatheredAll(v: seq<Byte>, m: seq<Byte>, size: int)
    requires |m| <= size && |m| <= |v| && m == v[0..|m|] && (|m| < size ==> |m| == |v|)
    ensures m + seq(size - |m|, _ => BF_CHAR) == Padded(v, size) && (|m| == size ==> m == Padded(v, size))
  {
  }

  ghost function Padded(v: seq<Byte>, size: int): (p: seq<Byte>)
    requires 0 <= size
    ensures |p| == size
  {
    if size <= |v| then v[..size] else v + seq(size - |v|, _ => BF_CHAR)
  }

  lemma LenNone(segs: seq<Seg>)
    ensures LenTo(segs, 0) == 0
  {
  }

  lemma SliceOf(v: seq<Byte>, mem: seq<Byte>, s: Seg, at: int, d: int, n: int)
    requires SegOk(|mem|, s) && 0 <= d && 0 <= n && d + n <= Len(s) && 0 <= at && at + Len(s) <= |v|
      && v[at..at + Len(s)] == mem[s.start..s.end]
    ensures v[at + d..at + d + n] == mem[s.start + d..s.start + d + n]
  {
    var p, q := v[at + d..at + d + n], mem[s.start + d..s.start + d + n];
    forall k | 0 <= k < n
      ensures p[k] == q[k]
    {
      assert v[at..at + Len(s)][d + k] == mem[s.start..s.end][d + k];
    }
  }

  /** The n bytes at offset d of segment i follow what has been collected from off on. */
  lemma Collected(mem: seq<Byte>, segs: seq<Seg>, i: nat, d: int, n: int, off: int, dst: seq<Byte>)
    requires SegsOk(|mem|, segs) && i < |segs| && 0 <= d && 0 <= n && d + n <= Len(segs[i]) && 0 <= off
    requires LenTo(segs, i) + d == off + |dst|
    requires off + |dst| <= |View(mem, segs)| ==> dst == View(mem, segs)[off..off + |dst|]
    ensures 0 <= segs[i].start + d && segs[i].start + d + n <= |mem|
    ensures var dst' := dst + mem[segs[i].start + d..segs[i].start + d + n];
            |dst'| == |dst| + n && off + |dst'| <= |View(mem, segs)| && dst' == View(mem, segs)[off..off + |dst'|]
  {
    hide View, LenTo;
    SegAt(|mem|, segs, i);
    LenNext(segs, i);
    SegView(mem, segs, i);
    SliceOf(View(mem, segs), mem, segs[i], LenTo(segs, i), d, n);
    SliceJoin(View(mem, segs), off, off + |dst|, off + |dst| + n);
  }

  lemma SliceJoin(v: seq<Byte>, a: int, b: int, c: int)
    requires 0 <= a <= b <= c <= |v|
    ensures v[a..b] + v[b..c] == v[a..c]
  {
  }

  /** What was read from memory, and what is missing, make up the padded view. */
  lemma PaddedRead(v: seq<Byte>, size: int, off: int, len: int, dst: seq<Byte>)
    requires 0 <= off && 0 <= len && off + len <= size && |dst| <= len
    requires if off < |v|
             then off + |dst| <= |v| && dst == v[off..off + |dst|] && (|dst| < len ==> off + |dst| == |v|)
             else dst == []
    ensures dst + seq(len - |dst|, _ => BF_CHAR) == Padded(v, size)[off..off + len]
    ensures |dst| == len ==> dst == Padded(v, size)[off..off + len]
  {
  }

  lemma DeletedNothing(v: seq<Byte>, off: nat)
    requires off <= |v|
    ensures Deleted(v, off, 0) == v
  {
    assert v == v[..off] + v[off..];
  }

  lemma OverwrittenNothing(v: seq<Byte>, off: nat)
    requires off <= |v|
    ensures forall src: seq<Byte> {:trigger Overwritten(v, off, src[..0])} :: Overwritten(v, off, src[..0]) == v
  {
    assert v == v[..off] + [] + v[off..];
  }

  lemma DeletedIsSpliced(v: seq<Byte>, off: nat, len: nat)
    requires off + len <= |v|
    ensures Deleted(v, off, len) == Spliced(v, off, len, []) && |Deleted(v, off, len)| == |v| - len
  {
  }

  /** A hole inside segment i: cut it in two, and move the front of the second half. */
  lemma HoleCut(mem: seq<Byte>, segs: seq<Seg>, refcnt: seq<int>, i: nat, k: int, len: int)
    requires SegsOk(|mem|, segs) && Unshared(segs) && Counted(refcnt, segs)
    requires i < |segs| && 0 <= k && 0 <= len && k + len <= Len(segs[i])
    ensures 0 <= segs[i].blk < |refcnt| && |CutAt(segs, i, k)| == |segs| + 1 && 0 <= LenTo(segs, i) + k
    ensures LenTo(segs, i) + k + len <= |View(mem, segs)|
    ensures var d, r := segs[i], refcnt[segs[i].blk := refcnt[segs[i].blk] + 1];
            var t := CutAt(segs, i, k)[i + 1 := d.(start := d.start + k + len)];
            && SegsOk(|mem|, t) && Unshared(t) && Counted(r, t)
               && View(mem, t) == Deleted(View(mem, segs), LenTo(segs, i) + k, len)
  {
    hide View, Unshared, Counted, LenTo, SegsOk, Deleted;
    CutInTwo(mem, segs, refcnt, i, k);
    var d := segs[i];
    FrontDropped(mem, CutAt(segs, i, k), refcnt[d.blk := refcnt[d.blk] + 1], i + 1, len);
  }

  lemma LenNext(segs: seq<Seg>, i: nat)
    requires i < |segs|
    ensures LenTo(segs, i + 1) == LenTo(segs, i) + Len(segs[i])
  {
  }

  /** One segment has lost m bytes at off, after the first done bytes to be deleted were gone. */
  lemma DropStep(mem: seq<Byte>, v: seq<Byte>, segs: seq<Seg>, refcnt: seq<int>, i: nat, s: Seg, off: nat, done: nat,
      m: int)
    requires Reshaped(mem, segs, refcnt, i, s, off, m) && off + done <= |v| && View(mem, segs) == Deleted(v, off, done)
    ensures off + done + m <= |v|
    ensures var t := segs[i := s];
            && |t| == |segs| && SegsOk(|mem|, t) && Unshared(t) && Counted(refcnt, t)
               && View(mem, t) == Deleted(v, off, done + m)
            && LenTo(t, i + 1) == LenTo(segs, i + 1) - m && LenTo(t, |t|) == |v| - (done + m)
  {
    hide View, LenTo, Unshared, Counted;
    DeletedTwice(v, off, done, m);
    WholeLength(mem, segs[i := s]);
  }

  /** Bytes copied..copied + n of the source go to offset d of segment i, where the view has their place. */
  lemma StoreStep(mem: seq<Byte>, segs: seq<Seg>, v: seq<Byte>, i: nat, d: int, src: seq<Byte>, off: nat,
      copied: int, n: int)
    requires SegsOk(|mem|, segs) && Unshared(segs) && i < |segs| && 0 <= d && 0 <= n && d + n <= Len(segs[i])
    requires 0 <= copied && copied + n <= |src| && off + |src| <= |v|
    requires LenTo(segs, i) + d == off + copied && View(mem, segs) == Overwritten(v, off, src[..copied])
    ensures 0 <= segs[i].start + d && segs[i].start + d + n <= |mem|
    ensures var mem' := Stored(mem, segs[i].start + d, src[copied..copied + n]);
            |mem'| == |mem| && View(mem', segs) == Overwritten(v, off, src[..copied + n])
  {
    hide View, LenTo, Unshared, Stored, Overwritten;
    SegAt(|mem|, segs, i);
    var c := src[copied..copied + n];
    StoreInSegment(mem, segs, i, d, c);
    OverwrittenTwice(v, off, src[..copied], c);
    assert src[..copied] + c == src[..copied + n];
  }

  lemma NothingStored(mem: seq<Byte>, segs: seq<Seg>, off: int)
    ensures OnlyBehind(mem, mem, segs, off, off)
  {
  }

  lemma StoreBehind(mem0: seq<Byte>, mem: seq<Byte>, segs: seq<Seg>, i: nat, d: nat, c: seq<Byte>, off: int, at: int)
    requires OnlyBehind(mem0, mem, segs, off, at) && off <= at && i < |segs| && LenTo(segs, i) + d == at
    requires 0 <= segs[i].start && d + |c| <= segs[i].end - segs[i].start && segs[i].end <= |mem|
    ensures OnlyBehind(mem0, Stored(mem, segs[i].start + d, c), segs, off, at + |c|)
  {
    hide LenTo;
    var mem' := Stored(mem, segs[i].start + d, c);
    forall a | 0 <= a < |mem| && mem'[a] != mem0[a]
      ensures Behind(segs, a, off, at + |c|)
    {
      if mem'[a] == mem[a] {
        assert Behind(segs, a, off, at);
      } else {
        assert segs[i].start + d <= a < segs[i].start + d + |c|;
      }
    }
  }

  /** A segment that ends before the end of the buffer has a successor. */
  lemma NotLast(size: int, segs: seq<Seg>, i: nat)
    requires SegsOk(size, segs) && i < |segs| && LenTo(segs, i + 1) < LenTo(segs, |segs|)
    ensures i + 1 < |segs|
  {
  }

  /** The parts of validity that a change of one segment's bounds keeps. */
  ghost predicate Reshaped(mem: seq<Byte>, segs: seq<Seg>, refcnt: seq<int>, i: nat, s: Seg, at: int, m: int) {
    && i < |segs| && SegsOk(|mem|, segs[i := s]) && SegsOk(|mem|, segs) && Unshared(segs[i := s])
       && Counted(refcnt, segs[i := s])
    && 0 <= at && 0 <= m && at + m <= |View(mem, segs)| && View(mem, segs[i := s]) == Deleted(View(mem, segs), at, m)
    && LenTo(segs[i := s], i + 1) == LenTo(segs, i + 1) - m
  }

  lemma ReshapeSegment(mem: seq<Byte>, segs: seq<Seg>, refcnt: seq<int>, i: nat, d: nat, m: nat, s: Seg)
    requires SegsOk(|mem|, segs) && Unshared(segs) && Counted(refcnt, segs) && i < |segs| && d + m <= Len(segs[i])
    requires SegOk(|mem|, s) && s.blk == segs[i].blk
      && (s.start == s.end || (segs[i].start <= s.start && s.end <= segs[i].end))
    requires mem[s.start..s.end] == mem[segs[i].start..segs[i].start + d] + mem[segs[i].start + d + m..segs[i].end]
    ensures Reshaped(mem, segs, refcnt, i, s, LenTo(segs, i) + d, m)
  {
    hide View, LenTo, Unshared, Counted;
    UnsharedUpdate(segs, i, s);
    CountedUpdate(refcnt, segs, i, s);
    Shortened(mem, segs, i, d, m, s);
  }

  lemma SegmentEmptied(mem: seq<Byte>, segs: seq<Seg>, refcnt: seq<int>, i: nat)
    requires SegsOk(|mem|, segs) && Unshared(segs) && Counted(refcnt, segs) && i < |segs|
    ensures Reshaped(mem, segs, refcnt, i, segs[i].(start := NULL, end := NULL), LenTo(segs, i), Len(segs[i]))
  {
    hide View, LenTo, Unshared, Counted, SegsOk, SegOk, Reshaped, Len;
    SegAt(|mem|, segs, i);
    Bounds(|mem|, segs[i]);
    var d := segs[i];
    DropAll(mem, d);
    ReshapeSegment(mem, segs, refcnt, i, 0, Len(d), d.(start := NULL, end := NULL));
  }

  lemma FrontDropped(mem: seq<Byte>, segs: seq<Seg>, refcnt: seq<int>, i: nat, m: int)
    requires SegsOk(|mem|, segs) && Unshared(segs) && Counted(refcnt, segs) && i < |segs| && 0 <= m <= Len(segs[i])
    ensures Reshaped(mem, segs, refcnt, i, segs[i].(start := segs[i].start + m), LenTo(segs, i), m)
  {
    hide View, LenTo, Unshared, Counted, SegsOk, SegOk, Reshaped;
    SegAt(|mem|, segs, i);
    Bounds(|mem|, segs[i]);
    var d := segs[i];
    DropFront(mem, d.start, d.end, m);
    ReshapeSegment(mem, segs, refcnt, i, 0, m, d.(start := d.start + m));
  }

  lemma EndDropped(mem: seq<Byte>, segs: seq<Seg>, refcnt: seq<int>, i: nat, o: int)
    requires SegsOk(|mem|, segs) && Unshared(segs) && Counted(refcnt, segs) && i < |segs| && 0 <= o <= Len(segs[i])
    ensures Reshaped(mem, segs, refcnt, i, segs[i].(end := segs[i].start + o), LenTo(segs, i) + o, Len(segs[i]) - o)
  {
    hide View, LenTo, Unshared, Counted, SegsOk, SegOk, Reshaped;
    SegAt(|mem|, segs, i);
    Bounds(|mem|, segs[i]);
    var d := segs[i];
    DropEnd(mem, d.start, d.end, o);
    ReshapeSegment(mem, segs, refcnt, i, o, Len(d) - o, d.(end := d.start + o));
  }

  lemma Bounds(size: int, s: Seg)
    requires SegOk(size, s)
    ensures 0 <= s.start <= s.end <= size && Len(s) == s.end - s.start
    ensures forall t: Seg :: 0 <= t.start <= t.end <= size && (t.start == NULL ==> t.end == NULL) ==> SegOk(size, t)
    ensures s.start == NULL ==> s.end == NULL
  {
  }

  lemma DropAll(mem: seq<Byte>, s: Seg)
    requires 0 <= s.start <= s.end <= |mem|
    ensures mem[NULL..NULL] == mem[s.start..s.start + 0] + mem[s.start + 0 + Len(s)..s.end]
  {
  }

  lemma DropFront(mem: seq<Byte>, x: int, y: int, m: int)
    requires 0 <= x <= x + m <= y <= |mem|
    ensures mem[x + m..y] == mem[x..x + 0] + mem[x + 0 + m..y]
  {
  }

  lemma DropEnd(mem: seq<Byte>, x: int, y: int, o: int)
    requires 0 <= x <= x + o <= y <= |mem|
    ensures mem[x..x + o] == mem[x..x + o] + mem[x + o + (y - x - o)..y]
  {
  }

  /** A cut point lies strictly inside a segment. */
  lemma FoundInside(segs: seq<Seg>, i: nat, off: int, offset: int)
    requires i <= |segs| && offset == LenTo(segs, i) <= off && (i < |segs| ==> off < LenTo(segs, i + 1))
    requires forall j {:trigger LenTo(segs, j)} :: 0 <= j <= |segs| ==> LenTo(segs, j) != off
    requires off <= LenTo(segs, |segs|)
    ensures i < |segs| && 0 < off - offset < Len(segs[i])
  {
    assert LenTo(segs, |segs|) != off && LenTo(segs, i) != off;
  }

  /** New memory, in one new segment in front of position i. */
  lemma InsertedRope(mem: seq<Byte>, segs: seq<Seg>, refcnt: seq<int>, i: nat, src: seq<Byte>)
    requires 0 < |mem| && SegsOk(|mem|, segs) && Unshared(segs) && Counted(refcnt, segs) && i <= |segs|
    ensures var mem', segs' := mem + src, segs[..i] + [Seg(|mem|, |mem| + |src|, |refcnt|)] + segs[i..];
            && SegsOk(|mem'|, segs') && Unshared(segs') && Counted(refcnt + [1], segs')
            && 0 <= LenTo(segs, i) <= |View(mem, segs)|
               && View(mem', segs') == Inserted(View(mem, segs), LenTo(segs, i), src)
  {
    var mem', added := mem + src, Seg(|mem|, |mem| + |src|, |refcnt|);
    ViewGrows(mem, src, segs);
    NewApart(|mem|, segs, added);
    UnsharedInsert(|mem'|, segs, i, added);
    CountedNew(refcnt, segs);
    CountedInsert(refcnt + [0], segs, i, added);
    assert (refcnt + [0])[|refcnt| := 1] == refcnt + [1];
    InsertBetween(mem', segs, i, added);
    assert mem'[added.start..added.end] == src;
  }

  lemma NewApart(size: int, segs: seq<Seg>, s: Seg)
    requires SegsOk(size, segs) && s.start == size
    ensures forall j {:trigger segs[j]} :: 0 <= j < |segs| ==> ApartSegs(segs[j], s)
  {
  }

  lemma CutUnshared(segs: seq<Seg>, i: nat, a: Seg, b: Seg)
    requires Unshared(segs) && i < |segs| && segs[i].start <= a.start <= a.end <= b.start <= b.end <= segs[i].end
    ensures Unshared(segs[..i] + [a] + [b] + segs[i + 1..])
  {
    var u := segs[i := a];
    UnsharedUpdate(segs, i, a);
    forall j {:trigger u[j]} | 0 <= j < |u|
      ensures ApartSegs(u[j], b)
    {
      assert j < i ==> ApartSegs(segs[j], segs[i]);
      assert i < j ==> ApartSegs(segs[i], segs[j]);
    }
    UnsharedInsert(0, u, i + 1, b);
    assert segs[..i] + [a] + [b] + segs[i + 1..] == u[..i + 1] + [b] + u[i + 1..];
  }

  lemma CutCounted(segs: seq<Seg>, refcnt: seq<int>, i: nat, a: Seg, b: Seg)
    requires Counted(refcnt, segs) && i < |segs| && a.blk == segs[i].blk == b.blk
    ensures 0 <= a.blk < |refcnt| && Counted(refcnt[a.blk := refcnt[a.blk] + 1], segs[..i] + [a] + [b] + segs[i + 1..])
  {
    var u := segs[i := a];
    CountedUpdate(refcnt, segs, i, a);
    CountedInsert(refcnt, u, i + 1, b);
    assert segs[..i] + [a] + [b] + segs[i + 1..] == u[..i + 1] + [b] + u[i + 1..];
  }

  /** Segment i becomes two segments over the same memory block. */
  lemma CutInTwo(mem: seq<Byte>, segs: seq<Seg>, refcnt: seq<int>, i: nat, k: int)
    requires SegsOk(|mem|, segs) && Unshared(segs) && Counted(refcnt, segs) && i < |segs| && 0 <= k <= Len(segs[i])
    ensures var d, t := segs[i], CutAt(segs, i, k);
            && 0 <= d.blk < |refcnt| && |t| == |segs| + 1
            && SegsOk(|mem|, t) && Unshared(t) && Counted(refcnt[d.blk := refcnt[d.blk] + 1], t)
            && View(mem, t) == View(mem, segs) && LenTo(t, i + 1) == LenTo(segs, i) + k
  {
    hide View, Unshared, Counted, LenTo;
    var d := segs[i];
    assert SegOk(|mem|, segs[i]);
    SplitSegment(mem, segs, i, k);
    CutUnshared(segs, i, d.(end := d.start + k), d.(start := d.start + k));
    CutCounted(segs, refcnt, i, d.(end := d.start + k), d.(start := d.start + k));
  }
}
