/** The Internet checksum over a segmented buffer: what the segment-wise computation reads,
    and when that is the checksum of the flat bytes (section 1 of RFC 1071). */
module Checksum {
  import opened Segments
  import opened UdiBuf

  // ---------------------------------------------------------------- the flat checksum

  /** Ones' complement addition of 16-bit numbers: the carry comes back in at the bottom. */
  function Plus(value: int, word: int): int {
    if value + word > 0xffff then value + word - 0xffff else value + word
  }

  function Word(hi: Byte, lo: Byte): int { 0x100 * hi + lo }

  /** Sum of the complete big-endian words. */
  function Pairs(value: int, bytes: seq<Byte>): int
    decreases |bytes|
  {
    if |bytes| < 2 then value else Pairs(Plus(value, Word(bytes[0], bytes[1])), bytes[2..])
  }

  function Odd(bytes: seq<Byte>): bool { |bytes| % 2 == 1 }

  function LastOf(bytes: seq<Byte>): Byte
    requires bytes != []
  {
    bytes[|bytes| - 1]
  }

  /** The flat sum; an odd byte at the end is padded with zero on the right. */
  function FlatSum(value: int, bytes: seq<Byte>): int {
    if Odd(bytes) then Plus(Pairs(value, bytes), Word(LastOf(bytes), 0)) else Pairs(value, bytes)
  }

  function WordSum(bytes: seq<Byte>): int {
    if |bytes| == 0 then 0
    else if |bytes| == 1 then Word(bytes[0], 0)
    else Word(bytes[0], bytes[1]) + WordSum(bytes[2..])
  }

  lemma PlusMod(value: int, word: int)
    requires 0 <= value <= 0xffff && 0 <= word <= 0xffff
    ensures Plus(value, word) == if value + word > 0xffff then value + word - 0xffff else value + word
    ensures 0 <= Plus(value, word) <= 0xffff && Plus(value, word) % 0xffff == (value + word) % 0xffff
  {
  }

  /** The accumulator is always a 16-bit number, congruent to the sum of the words modulo 0xffff. */
  lemma {:induction false} FlatSumMod(value: int, bytes: seq<Byte>)
    requires 0 <= value <= 0xffff
    ensures 0 <= FlatSum(value, bytes) <= 0xffff && FlatSum(value, bytes) % 0xffff == (value + WordSum(bytes)) % 0xffff
    decreases |bytes|
  {
    if |bytes| == 1 {
      PlusMod(value, Word(bytes[0], 0));
    } else if |bytes| >= 2 {
      var w := Word(bytes[0], bytes[1]);
      PlusMod(value, w);
      FlatSumMod(Plus(value, w), bytes[2..]);
      TailParity(bytes);
      AddMod(Plus(value, w), value + w, WordSum(bytes[2..]));
    }
  }

  lemma AddMod(a: int, b: int, c: int)
    requires a % 0xffff == b % 0xffff
    ensures (a + c) % 0xffff == (b + c) % 0xffff
  {
  }

  lemma TailParity(bytes: seq<Byte>)
    requires |bytes| >= 2
    ensures Odd(bytes[2..]) == Odd(bytes) && (Odd(bytes) ==> LastOf(bytes[2..]) == LastOf(bytes))
  {
  }

  lemma {:induction false} PairsRange(value: int, bytes: seq<Byte>)
    requires 0 <= value <= 0xffff
    ensures 0 <= Pairs(value, bytes) <= 0xffff
    decreases |bytes|
  {
    if |bytes| >= 2 {
      PairsRange(Plus(value, Word(bytes[0], bytes[1])), bytes[2..]);
    }
  }

  lemma {:induction false} PairsJoin(value: int, a: seq<Byte>, b: seq<Byte>)
    requires !Odd(a)
    ensures Pairs(value, a + b) == Pairs(Pairs(value, a), b)
    decreases |a|
  {
    if a == [] {
      assert a + b == b;
    } else {
      assert (a + b)[2..] == a[2..] + b;
      PairsJoin(Plus(value, Word(a[0], a[1])), a[2..], b);
    }
  }

  // ---------------------------------------------------------------- one piece

  /** Between pieces: the sum so far, and the byte that still lacks its partner. */
  datatype State = State(value: int, pending: seq<Byte>)

  ghost predicate StateOk(st: State) {
    0 <= st.value <= 0xffff && |st.pending| <= 1
  }

  /** The state after a stream of bytes: the complete words are summed, an odd byte is pending. */
  function StateOf(value: int, s: seq<Byte>): State {
    State(Pairs(value, s), if Odd(s) then [LastOf(s)] else [])
  }

  /** What a piece does to the state. A one-byte piece completes a pending byte but leaves it pending. */
  function Fed(st: State, piece: seq<Byte>): State
    requires |st.pending| <= 1
  {
    if |piece| == 1 && |st.pending| == 1 then State(Plus(st.value, Word(st.pending[0], piece[0])), st.pending)
    else StateOf(st.value, st.pending + piece)
  }

  lemma WholeWord(value: int, piece: seq<Byte>, k: nat)
    requires k + 1 < |piece|
    ensures StateOf(value, [] + piece[k..]) == StateOf(Plus(value, Word(piece[k], piece[k + 1])), [] + piece[k + 2..])
  {
    assert ([] + piece[k..])[2..] == [] + piece[k + 2..];
    TailParity([] + piece[k..]);
  }

  lemma HalfWord(value: int, pending: seq<Byte>, piece: seq<Byte>, k: nat)
    requires |pending| == 1 && k < |piece|
    ensures StateOf(value, pending + piece[k..]) ==
      StateOf(Plus(value, Word(pending[0], piece[k])), [] + piece[k + 1..])
  {
    assert (pending + piece[k..])[2..] == [] + piece[k + 1..];
    TailParity(pending + piece[k..]);
  }

  lemma AtMostOne(value: int, rest: seq<Byte>)
    ensures |rest| < 2 ==> StateOf(value, rest) == State(value, rest)
  {
  }

  lemma LastAddress(start: int, n: int)
    requires 0 <= start && 0 <= n && start + n < WORD
    ensures (start + n - 1) % WORD == if start + n == 0 then WORD - 1 else start + n - 1
    ensures 1 < WORD
  {
  }

  // Addresses and sizes are 32-bit words.
  const WORD := 0x1_0000_0000

  /** _udi_tag_compute on one piece, word by word. The end test computes with addresses: for no bytes at NULL its
      bound wraps around, and the loop starts to read what is not there. */
  method TagCompute(st: State, start: int, piece: seq<Byte>) returns (result: Option<State>)
    requires StateOk(st) && NULL <= start && start + |piece| < WORD
    ensures result.None? <==> start == NULL && piece == []
    ensures result.Some? ==> result.value == Fed(st, piece) && StateOk(result.value)
  {
    hide Plus, StateOf, WORD;
    var value, pending := st.value, st.pending;
    ghost var all := StateOf(st.value, st.pending + piece);
    var ptr := start;
    LastAddress(start, |piece|);
    var last := (start + |piece| - 1) % WORD;
    assert piece[0..] == piece;
    while ptr < last
      invariant start <= ptr <= start + |piece| && |pending| <= 1 && 0 <= value <= 0xffff
      invariant ptr != start ==> pending == [] && |piece| > 1
      invariant ptr == start ==> pending == st.pending && value == st.value
      invariant StateOf(value, pending + piece[ptr - start..]) == all
      decreases start + |piece| - ptr
    {
      if ptr == start + |piece| {
        return None;
      }
      var val, k;
      k := ptr - start;
      if pending == [] {
        WholeWord(value, piece, k);
        val := Word(piece[k], piece[k + 1]);
        ptr := ptr + 2;
      } else {
        HalfWord(value, pending, piece, k);
        val := Word(pending[0], piece[k]);
        pending := [];
        ptr := ptr + 1;
      }
      PlusMod(value, val);
      value := value + val;
      if value > 0xffff {
        value := value - 0xffff;
      }
    }
    AtMostOne(value, pending + piece[ptr - start..]);
    if ptr < start + |piece| {
      var k := ptr - start;
      if pending != [] {
        PlusMod(value, Word(pending[0], piece[k]));
        value := value + Word(pending[0], piece[k]);
        if value > 0xffff {
          value := value - 0xffff;
        }
      } else {
        pending := [piece[k]];
        assert pending == [] + piece[k..];
      }
    }
    result := Some(State(value, pending));
  }

  // ---------------------------------------------------------------- a list of pieces

  function FedAll(st: State, pieces: seq<seq<Byte>>): (st': State)
    requires |st.pending| <= 1
    ensures |st'.pending| <= 1
  {
    if pieces == [] then st else Fed(FedAll(st, pieces[..|pieces| - 1]), pieces[|pieces| - 1])
  }

  function Concat(pieces: seq<seq<Byte>>): seq<Byte> {
    if pieces == [] then [] else Concat(pieces[..|pieces| - 1]) + pieces[|pieces| - 1]
  }

  /** The stream the computation really sums: after a one-byte piece that met a pending byte,
      the pending byte comes once more. */
  function Stream(pieces: seq<seq<Byte>>): seq<Byte> {
    if pieces == [] then []
    else
      var s, p := Stream(pieces[..|pieces| - 1]), pieces[|pieces| - 1];
      if |p| == 1 && Odd(s) then s + p + [LastOf(s)] else s + p
  }

  /** A lone pending byte is padded with zero. */
  function Finished(st: State): int {
    if st.pending == [] then st.value else Plus(st.value, Word(st.pending[0], 0))
  }

  /** Feeding a piece to the state of a stream gives the state of the longer stream. */
  lemma FedStream(value: int, s: seq<Byte>, p: seq<Byte>)
    ensures |StateOf(value, s).pending| <= 1
    ensures Fed(StateOf(value, s), p) == StateOf(value, if |p| == 1 && Odd(s) then s + p + [LastOf(s)] else s + p)
  {
    hide Pairs;
    if !Odd(s) {
      FedWhole(value, s, p);
    } else if |p| == 1 {
      FedLoneByte(value, s, p[0]);
      assert p == [p[0]];
    } else {
      FedPending(value, s, p);
      hide LastOf;
    }
  }

  lemma FedWhole(value: int, s: seq<Byte>, p: seq<Byte>)
    requires !Odd(s)
    ensures [] + p == p && Pairs(value, s + p) == Pairs(Pairs(value, s), p) && Odd(s + p) == Odd(p)
    ensures Odd(p) ==> LastOf(s + p) == LastOf(p)
  {
    hide Pairs;
    PairsJoin(value, s, p);
    assert Odd(p) ==> (s + p)[|s + p| - 1] == p[|p| - 1];
  }

  lemma FedLoneByte(value: int, s: seq<Byte>, y: Byte)
    requires Odd(s)
    ensures var t := s + [y] + [LastOf(s)];
            Odd(t) && LastOf(t) == LastOf(s) && Pairs(value, t) == Plus(Pairs(value, s), Word(LastOf(s), y))
  {
    var a, x := s[..|s| - 1], LastOf(s);
    var pair := [x, y];
    assert s == a + [x] && s + [y] + [x] == a + pair + [x];
    PairsPrefix(value, a, x);
    PairsPrefix(value, a + pair, x);
    PairsJoin(value, a, pair);
    assert pair[2..] == [];
  }

  lemma FedPending(value: int, s: seq<Byte>, p: seq<Byte>)
    requires Odd(s)
    ensures Pairs(value, s + p) == Pairs(Pairs(value, s), [LastOf(s)] + p) && Odd(s + p) == Odd([LastOf(s)] + p)
    ensures Odd(s + p) ==> LastOf(s + p) == LastOf([LastOf(s)] + p)
  {
    var a, x := s[..|s| - 1], LastOf(s);
    assert s == a + [x] && s + p == a + ([x] + p);
    PairsPrefix(value, a, x);
    PairsJoin(value, a, [x] + p);
  }

  lemma PairsPrefix(value: int, a: seq<Byte>, x: Byte)
    requires !Odd(a)
    ensures Pairs(value, a + [x]) == Pairs(value, a)
  {
    PairsJoin(value, a, [x]);
  }

  /** For every split into pieces, the computation sums exactly its stream. */
  lemma {:induction false} SumsTheStream(value: int, pieces: seq<seq<Byte>>)
    ensures FedAll(State(value, []), pieces) == StateOf(value, Stream(pieces))
    ensures Finished(FedAll(State(value, []), pieces)) == FlatSum(value, Stream(pieces))
    decreases |pieces|
  {
    if pieces != [] {
      SumsTheStream(value, pieces[..|pieces| - 1]);
      FedStream(value, Stream(pieces[..|pieces| - 1]), pieces[|pieces| - 1]);
    }
  }

  /** No one-byte piece arrives while an odd number of bytes has gone before. */
  ghost predicate NoLoneByte(pieces: seq<seq<Byte>>) {
    forall i {:trigger pieces[i]} :: 0 <= i < |pieces| && |pieces[i]| == 1 ==> !Odd(Concat(pieces[..i]))
  }

  lemma {:induction false} StreamLength(pieces: seq<seq<Byte>>)
    ensures |Stream(pieces)| > |Concat(pieces)| || Stream(pieces) == Concat(pieces)
    decreases |pieces|
  {
    if pieces != [] {
      StreamLength(pieces[..|pieces| - 1]);
    }
  }

  lemma NoLoneLast(pieces: seq<seq<Byte>>)
    requires pieces != []
    ensures var init, p := pieces[..|pieces| - 1], pieces[|pieces| - 1];
            NoLoneByte(pieces) <==> NoLoneByte(init) && (|p| == 1 ==> !Odd(Concat(init)))
  {
    var n, init := |pieces| - 1, pieces[..|pieces| - 1];
    forall i {:trigger pieces[i]} | 0 <= i < n
      ensures pieces[i] == init[i] && pieces[..i] == init[..i]
    {
    }
    assert pieces[n] == pieces[|pieces| - 1];
    forall i {:trigger init[i]} | 0 <= i < |init| && NoLoneByte(pieces) && |init[i]| == 1
      ensures !Odd(Concat(init[..i]))
    {
      assert |pieces[i]| == 1;
    }
  }

  /** The stream is the flat byte sequence exactly if no lone byte meets a pending one. */
  lemma {:induction false} StreamIsFlat(pieces: seq<seq<Byte>>)
    ensures Stream(pieces) == Concat(pieces) <==> NoLoneByte(pieces)
    decreases |pieces|
  {
    if pieces != [] {
      StreamIsFlat(pieces[..|pieces| - 1]);
      StreamLength(pieces[..|pieces| - 1]);
      NoLoneLast(pieces);
      hide NoLoneByte;
    }
  }

  /** The segment-wise checksum is the flat one, for any split without lone bytes. */
  lemma ChecksumIsFlat(value: int, pieces: seq<seq<Byte>>)
    requires NoLoneByte(pieces)
    ensures Finished(FedAll(State(value, []), pieces)) == FlatSum(value, Concat(pieces))
  {
    SumsTheStream(value, pieces);
    StreamIsFlat(pieces);
  }

  /** With a lone byte it can be wrong: bytes 1 and 2 in segments of their own sum to 0x0202, not 0x0102. */
  lemma LoneByteBreaks()
    ensures var pieces: seq<seq<Byte>> := [[1], [2]];
            Finished(FedAll(State(0, []), pieces)) == 0x0202 && FlatSum(0, Concat(pieces)) == 0x0102
  {
    hide FedAll, FlatSum, Stream, Concat;
    SumsTheStream(0, [[1], [2]]);
    TwoPieces();
    ThreeBytes();
    TwoBytes();
  }

  lemma TwoPieces()
    ensures Stream([[1], [2]]) == [1, 2, 1] && Concat([[1], [2]]) == [1, 2]
  {
    var p1: seq<seq<Byte>>, pieces: seq<seq<Byte>> := [[1]], [[1], [2]];
    assert pieces[..1] == p1 && p1[..0] == [];
    assert Stream(p1) == [1] && Concat(p1) == [1];
  }

  lemma ThreeBytes()
    ensures FlatSum(0, [1, 2, 1]) == 0x0202
  {
    var s: seq<Byte> := [1, 2, 1];
    assert s[2..] == [1] && LastOf(s) == 1;
    assert Pairs(0, s) == Pairs(Plus(0, Word(1, 2)), [1]);
  }

  lemma TwoBytes()
    ensures FlatSum(0, [1, 2]) == 0x0102
  {
    var s: seq<Byte> := [1, 2];
    assert s[2..] == [];
    assert Pairs(0, s) == Pairs(Plus(0, Word(1, 2)), []);
  }

  // ---------------------------------------------------------------- over a buffer

  lemma {:induction false} EmptyPrefix(segs: seq<Seg>, i: nat)
    requires i <= |segs| && forall j {:trigger segs[j]} :: 0 <= j < i ==> Len(segs[j]) == 0
    ensures LenTo(segs, i) == 0
  {
    if i > 0 {
      EmptyPrefix(segs, i - 1);
    }
  }

  /** The segment a range starts in: the very first one, unless leading segments are empty and the range
      does not start at 0. */
  function FirstFrom(segs: seq<Seg>, off: int, i: nat): nat
    decreases |segs| - i
  {
    if off > 0 && i + 1 < |segs| && Len(segs[i]) == 0 then FirstFrom(segs, off, i + 1) else i
  }

  lemma {:induction false} FirstFromIs(segs: seq<Seg>, off: int, i: nat)
    requires i < |segs|
    ensures var k := FirstFrom(segs, off, i);
            && i <= k < |segs| && (off > 0 && Len(segs[k]) == 0 ==> k == |segs| - 1) && (off <= 0 ==> k == i)
            && forall j {:trigger segs[j]} :: i <= j < k ==> Len(segs[j]) == 0
    decreases |segs| - i
  {
    if off > 0 && i + 1 < |segs| && Len(segs[i]) == 0 {
      FirstFromIs(segs, off, i + 1);
    }
  }

  /** The walk finds the range: it begins at the very start or in the first segment that is not empty, which there
      has to be; a range of no bytes may lie anywhere behind. */
  predicate Found(segs: seq<Seg>, off: int, len: int)
    requires segs != []
  {
    var i := FirstFrom(segs, off, 0);
    off == 0 || (i < |segs| && Len(segs[i]) != 0 && (off <= Len(segs[i]) || len == 0))
  }

  /** n bytes from offset d of segment i on, one piece per segment; bytes that no segment holds are missing. */
  ghost function CutUp(mem: seq<Byte>, segs: seq<Seg>, i: nat, d: int, n: int): seq<seq<Byte>>
    requires SegsOk(|mem|, segs) && i < |segs| && 0 <= d <= Len(segs[i]) && 0 <= n
    decreases |segs| - i, 0
  {
    var s := segs[i];
    var m := if n < Len(s) - d then n else Len(s) - d;
    [mem[s.start + d..s.start + d + m]] + CutRest(mem, segs, i + 1, n - m)
  }

  ghost function CutRest(mem: seq<Byte>, segs: seq<Seg>, i: nat, n: int): seq<seq<Byte>>
    requires SegsOk(|mem|, segs) && 0 <= n
    decreases |segs| - i, 1
  {
    if n == 0 || i >= |segs| then [] else CutUp(mem, segs, i, 0, n)
  }

  /** The pieces of a range: those of the segments, and the fill characters that are missing. */
  ghost function PiecesOf(mem: seq<Byte>, segs: seq<Seg>, off: int, len: int): seq<seq<Byte>>
    requires SegsOk(|mem|, segs) && 0 <= off && 0 <= len && segs != []
  {
    FirstFromIs(segs, off, 0);
    var i := FirstFrom(segs, off, 0);
    assert SegOk(|mem|, segs[i]);
    var pieces := CutUp(mem, segs, i, if off <= Len(segs[i]) then off else Len(segs[i]), len);
    var rest := len - |Concat(pieces)|;
    if rest > 0 then pieces + [seq(rest, _ => BF_CHAR)] else pieces
  }

  /** The segment the computation begins with. If the range does not begin at 0 and all segments are empty, the walk
      never leaves the last one. */
  method FindFirst(buf: Buffer, off: int) returns (first: Option<nat>)
    requires buf.Valid() && 0 <= off
    ensures FirstFrom(buf.segs, off, 0) < |buf.segs|
    ensures first.None? <==> off > 0 && Len(buf.segs[FirstFrom(buf.segs, off, 0)]) == 0
    ensures first.Some? ==> first.value == FirstFrom(buf.segs, off, 0) && LenTo(buf.segs, first.value) == 0
  {
    FirstFromIs(buf.segs, off, 0);
    var i: nat := 0;
    var len := Len(buf.segs[0]);
    while 0 + len < off && len == 0
      invariant i < |buf.segs| && len == Len(buf.segs[i]) && FirstFrom(buf.segs, off, i) == FirstFrom(buf.segs, off, 0)
      invariant forall j {:trigger buf.segs[j]} :: 0 <= j < i ==> Len(buf.segs[j]) == 0
      decreases |buf.segs| - i
    {
      if i + 1 == |buf.segs| {
        return None;
      }
      i := i + 1;
      len := Len(buf.segs[i]);
    }
    SegAt(|buf.mem|, buf.segs, i);
    EmptyPrefix(buf.segs, i);
    first := Some(i);
  }

  lemma ConcatOne(st: State, pieces: seq<seq<Byte>>, p: seq<Byte>)
    requires |st.pending| <= 1
    ensures Concat(pieces + [p]) == Concat(pieces) + p && FedAll(st, pieces + [p]) == Fed(FedAll(st, pieces), p)
  {
    assert (pieces + [p])[..|pieces|] == pieces;
  }

  /** The pieces cut from segment i on follow what has been taken from off on, as far as there is memory. */
  lemma {:induction false} CutFlat(mem: seq<Byte>, segs: seq<Seg>, i: nat, d: int, n: int, off: int,
      pieces: seq<seq<Byte>>)
    requires SegsOk(|mem|, segs) && i < |segs| && 0 <= d <= Len(segs[i]) && 0 <= n && 0 <= off
    requires LenTo(segs, i) + d == off + |Concat(pieces)| <= |View(mem, segs)|
    requires Concat(pieces) == View(mem, segs)[off..off + |Concat(pieces)|]
    ensures var all, v := Concat(pieces + CutUp(mem, segs, i, d, n)), View(mem, segs);
            && |all| == |Concat(pieces)| + (if n <= |v| - LenTo(segs, i) - d then n else |v| - LenTo(segs, i) - d)
            && off + |all| <= |v| && all == v[off..off + |all|]
    decreases |segs| - i
  {
    hide View, LenTo, SegsOk, CutUp, Concat, FedAll;
    CutNext(mem, segs, i, d, n);
    var m := if n < Len(segs[i]) - d then n else Len(segs[i]) - d;
    var p := mem[segs[i].start + d..segs[i].start + d + m];
    Collected(mem, segs, i, d, m, off, Concat(pieces));
    ConcatOne(State(0, []), pieces, p);
    LenNext(segs, i);
    WholeLength(mem, segs);
    LenMonotone(|mem|, segs, i + 1, |segs|);
    assert pieces + ([p] + CutRest(mem, segs, i + 1, n - m)) == pieces + [p] + CutRest(mem, segs, i + 1, n - m);
    if n - m == 0 || i + 1 == |segs| {
      assert pieces + [p] + [] == pieces + [p];
    } else {
      SegAt(|mem|, segs, i + 1);
      CutFlat(mem, segs, i + 1, 0, n - m, off, pieces + [p]);
    }
  }

  /** The pieces of a range are the bytes of the range. */
  lemma RangeFlat(buf: Buffer, off: int, len: int)
    requires buf.Valid() && 0 <= off && 0 <= len && off + len <= buf.bufSize
    requires var i := FirstFrom(buf.segs, off, 0); i < |buf.segs| && off <= Len(buf.segs[i]) && LenTo(buf.segs, i) == 0
    ensures Concat(PiecesOf(buf.mem, buf.segs, off, len)) == buf.Flat()[off..off + len]
    ensures PiecesOf(buf.mem, buf.segs, off, len) ==
              var pieces := CutUp(buf.mem, buf.segs, FirstFrom(buf.segs, off, 0), off, len);
              if len > |Concat(pieces)| then pieces + [seq(len - |Concat(pieces)|, _ => BF_CHAR)] else pieces
    ensures var pieces := CutUp(buf.mem, buf.segs, FirstFrom(buf.segs, off, 0), off, len);
            |Concat(pieces)| == if off + len <= buf.totalSize then len else buf.totalSize - off
  {
    hide View, LenTo, SegsOk, CutUp, FedAll, FirstFrom, Counted, Unshared, Padded;
    var i, v := FirstFrom(buf.segs, off, 0), View(buf.mem, buf.segs);
    var pieces := CutUp(buf.mem, buf.segs, i, off, len);
    FirstSpan(buf, i, off);
    assert [] + pieces == pieces;
    CutFlat(buf.mem, buf.segs, i, off, len, off, []);
    WholeLength(buf.mem, buf.segs);
    PaddedRead(v, buf.bufSize, off, len, Concat(pieces));
    ConcatOne(State(0, []), pieces, seq(if len > |Concat(pieces)| then len - |Concat(pieces)| else 0, _ => BF_CHAR));
  }

  /** The computation visits the segment it begins with, and each later one in which the range goes on. */
  predicate Visited(segs: seq<Seg>, i0: nat, off: int, len: int, i: int) {
    i == i0 || (i0 < i <= |segs| && len > 0 && LenTo(segs, i) < off + len)
  }

  /** One of the visited segments is NULL. */
  predicate NullVisited(segs: seq<Seg>, i0: nat, off: int, len: int) {
    exists i {:trigger segs[i]} :: 0 <= i < |segs| && Visited(segs, i0, off, len, i) && segs[i].start == NULL
  }

  /** The segments' part of the sum. */
  method SumSegments(buf: Buffer, i0: nat, off: int, len: int, value: int)
    returns (sum: Option<State>, tocopy: int, ghost pieces: seq<seq<Byte>>)
    requires buf.Valid() && 0 <= off && 0 <= len && off + len <= buf.bufSize && |buf.mem| < WORD && 0 <= value <= 0xffff
    requires i0 < |buf.segs| && LenTo(buf.segs, i0) == 0 && off <= Len(buf.segs[i0])
    ensures sum.None? <==> NullVisited(buf.segs, i0, off, len)
    ensures sum.Some? ==> pieces == CutUp(buf.mem, buf.segs, i0, off, len)
    ensures sum.Some? ==> sum.value == FedAll(State(value, []), pieces) && StateOk(sum.value)
    ensures sum.Some? ==> tocopy == if off + len <= buf.totalSize then 0 else off + len - buf.totalSize
  {
    hide CutUp, View, Counted, Unshared, LenTo, SegsOk, FedAll, Concat, Fed, StateOk, NullVisited, Visited;
    var i := i0;
    var n := Len(buf.segs[i]);
    FirstSpan(buf, i, off);
    SegAt(|buf.mem|, buf.segs, i);
    var copysize := if n - off <= buf.bufSize then n - off else buf.bufSize;
    if copysize > len {
      copysize := len;
    }
    FedNone(value);
    FirstVisited(buf.segs, i0, off, len);
    ghost var p := buf.mem[buf.segs[i].start + off..buf.segs[i].start + off + copysize];
    sum := Sum(buf, State(value, []), i, off, copysize);
    ConcatOne(State(value, []), [], p);
    tocopy, pieces := len - copysize, [] + [p];
    if sum.None? {
      return;
    }
    CutNext(buf.mem, buf.segs, i, off, len);
    ghost var all := CutUp(buf.mem, buf.segs, i0, off, len);
    while tocopy != 0 && i + 1 < |buf.segs|
      invariant i0 <= i < |buf.segs| && sum.Some? && NoneNullTo(buf.segs, i0, off, len, i)
      invariant sum.value == FedAll(State(value, []), pieces) && StateOk(sum.value)
      invariant 0 <= tocopy <= len && (tocopy != 0 ==> LenTo(buf.segs, i + 1) == off + len - tocopy)
      invariant tocopy == 0 ==> off + len <= LenTo(buf.segs, i + 1)
      invariant pieces + CutRest(buf.mem, buf.segs, i + 1, tocopy) == all
      decreases |buf.segs| - i
    {
      i := i + 1;
      SegAt(|buf.mem|, buf.segs, i);
      CutNext(buf.mem, buf.segs, i, 0, tocopy);
      copysize := Len(buf.segs[i]);
      LenNext(buf.segs, i);
      if copysize > tocopy {
        copysize := tocopy;
      }
      NextVisited(buf.segs, i0, off, len, i);
      p := buf.mem[buf.segs[i].start + 0..buf.segs[i].start + 0 + copysize];
      ConcatOne(State(value, []), pieces, p);
      sum := Sum(buf, sum.value, i, 0, copysize);
      if sum.None? {
        return;
      }
      pieces := pieces + [p];
      tocopy := tocopy - copysize;
    }
    NoneVisited(|buf.mem|, buf.segs, i0, off, len, i);
    LenMonotone(|buf.mem|, buf.segs, i + 1, |buf.segs|);
    assert pieces + [] == pieces;
  }

  lemma FedNone(value: int)
    requires 0 <= value <= 0xffff
    ensures FedAll(State(value, []), []) == State(value, []) && StateOk(State(value, []))
  {
  }

  ghost predicate NoneNullTo(segs: seq<Seg>, i0: nat, off: int, len: int, i: int) {
    forall j {:trigger segs[j]} :: 0 <= j < |segs| && j <= i && Visited(segs, i0, off, len, j) ==> segs[j].start != NULL
  }

  lemma FirstVisited(segs: seq<Seg>, i0: nat, off: int, len: int)
    requires i0 < |segs|
    ensures segs[i0].start == NULL ==> NullVisited(segs, i0, off, len)
    ensures segs[i0].start != NULL ==> NoneNullTo(segs, i0, off, len, i0)
  {
    assert Visited(segs, i0, off, len, i0);
  }

  lemma NextVisited(segs: seq<Seg>, i0: nat, off: int, len: int, i: int)
    requires i0 < i < |segs| && len > 0 && LenTo(segs, i) < off + len && NoneNullTo(segs, i0, off, len, i - 1)
    ensures segs[i].start == NULL ==> NullVisited(segs, i0, off, len)
    ensures segs[i].start != NULL ==> NoneNullTo(segs, i0, off, len, i)
  {
    assert Visited(segs, i0, off, len, i);
  }

  /** Where the loop stops, no later segment is visited. */
  lemma NoneVisited(size: int, segs: seq<Seg>, i0: nat, off: int, len: int, i: nat)
    requires SegsOk(size, segs) && i0 <= i < |segs| && NoneNullTo(segs, i0, off, len, i)
    requires i + 1 == |segs| || len == 0 || off + len <= LenTo(segs, i + 1)
    ensures !NullVisited(segs, i0, off, len)
  {
    forall j {:trigger segs[j]} | i < j < |segs|
      ensures !Visited(segs, i0, off, len, j)
    {
      LenMonotone(size, segs, i + 1, j);
    }
  }

  lemma CutNext(mem: seq<Byte>, segs: seq<Seg>, i: nat, d: int, n: int)
    requires SegsOk(|mem|, segs) && i < |segs| && 0 <= d <= Len(segs[i]) && 0 <= n
    ensures var m := if n < Len(segs[i]) - d then n else Len(segs[i]) - d;
            && 0 <= m <= n && SegOk(|mem|, segs[i])
            && CutUp(mem, segs, i, d, n) ==
               [mem[segs[i].start + d..segs[i].start + d + m]] + CutRest(mem, segs, i + 1, n - m)
  {
  }

  lemma FirstSpan(buf: Buffer, i: nat, off: int)
    requires buf.Valid() && i < |buf.segs| && LenTo(buf.segs, i) == 0 && 0 <= off <= Len(buf.segs[i])
    ensures off <= |View(buf.mem, buf.segs)| && LenTo(buf.segs, i + 1) == Len(buf.segs[i])
  {
    SegView(buf.mem, buf.segs, i);
  }

  /** Sum n bytes at offset d of segment i. */
  method Sum(buf: Buffer, st: State, i: nat, d: int, n: int) returns (result: Option<State>)
    requires StateOk(st) && |buf.mem| < WORD
    requires i < |buf.segs| && SegOk(|buf.mem|, buf.segs[i]) && 0 <= d && 0 <= n && d + n <= Len(buf.segs[i])
    ensures result.None? <==> buf.segs[i].start == NULL
    ensures result.Some? ==> StateOk(result.value)
    ensures result.Some? ==> result.value == Fed(st, buf.mem[buf.segs[i].start + d..buf.segs[i].start + d + n])
  {
    hide Fed, StateOk;
    result := TagCompute(st, buf.segs[i].start + d, buf.mem[buf.segs[i].start + d..buf.segs[i].start + d + n]);
  }

  /** A range of no bytes behind the first segment: one piece, and it is empty. */
  lemma NoBytes(buf: Buffer, off: int, value: int)
    requires buf.Valid() && 0 <= off <= buf.bufSize && 0 <= value <= 0xffff
    requires var i := FirstFrom(buf.segs, off, 0); i < |buf.segs| && Len(buf.segs[i]) < off && Len(buf.segs[i]) != 0
    ensures PiecesOf(buf.mem, buf.segs, off, 0) == [[]] && Concat([[]]) == [] == buf.Flat()[off..off + 0]
    ensures FedAll(State(value, []), [[]]) == Fed(State(value, []), [])
    ensures !NullVisited(buf.segs, FirstFrom(buf.segs, off, 0), off, 0)
  {
    hide View, LenTo, Counted, Unshared, Padded, FirstFrom;
    var i := FirstFrom(buf.segs, off, 0);
    SegAt(|buf.mem|, buf.segs, i);
    CutNext(buf.mem, buf.segs, i, Len(buf.segs[i]), 0);
    var p: seq<Byte>, none: seq<seq<Byte>> := [], [];
    ConcatOne(State(value, []), none, p);
    assert none + [p] == [[]];
  }

  /** _udi_buf_tag_compute: the ones' complement of the sum over the pieces of the range, one piece per segment
      and one for the fill characters; and of the flat range, unless a lone byte meets a pending one. It reads
      other memory, or never ends, exactly if the walk does not find the range or one of the segments visited
      is NULL. */
  method BufTagCompute(buf: Buffer, off: int, len: int, value: int) returns (sum: Option<int>)
    requires buf.Valid() && 0 <= off && 0 <= len && off + len <= buf.bufSize
    requires |buf.mem| + buf.bufSize < WORD && 0 <= value <= 0xffff
    ensures sum.Some? <==> Found(buf.segs, off, len) && !NullVisited(buf.segs, FirstFrom(buf.segs, off, 0), off, len)
    ensures sum.Some? ==> Concat(PiecesOf(buf.mem, buf.segs, off, len)) == buf.Flat()[off..off + len]
    ensures sum.Some? ==> sum.value == 0xffff - FlatSum(value, Stream(PiecesOf(buf.mem, buf.segs, off, len)))
    ensures sum.Some? && NoLoneByte(PiecesOf(buf.mem, buf.segs, off, len)) ==>
              sum.value == 0xffff - FlatSum(value, buf.Flat()[off..off + len])
  {
    hide CutUp, PiecesOf, FirstFrom, View, Counted, Unshared, LenTo, SegsOk, Padded, Stream, FlatSum, FedAll, Concat;
    hide Fed, NoLoneByte, NullVisited;
    var ext := if buf.bufSize > buf.totalSize then buf.bufSize - buf.totalSize else 0;
    var first := FindFirst(buf, off);
    if first.None? {
      return None;
    }
    var i := first.value;
    SegAt(|buf.mem|, buf.segs, i);
    var st, tocopy;
    ghost var pieces;
    if Len(buf.segs[i]) < off {
      if len != 0 {
        return None;
      }
      NoBytes(buf, off, value);
      st := TagCompute(State(value, []), buf.segs[i].start + off, []);
      tocopy, pieces := 0, [[]];
    } else {
      RangeFlat(buf, off, len);
      st, tocopy, pieces := SumSegments(buf, i, off, len, value);
    }
    if st.None? {
      return None;
    }
    if tocopy != 0 && ext != 0 {
      if tocopy < ext {
        ext := tocopy;
      }
      var fill := seq(ext, _ => BF_CHAR);
      ConcatOne(State(value, []), pieces, fill);
      st := TagCompute(st.value, NULL, fill);
      pieces := pieces + [fill];
    }
    SumsTheStream(value, pieces);
    var chksum := if st.value.pending != [] then Plus(st.value.value, Word(st.value.pending[0], 0)) else st.value.value;
    sum := Some(0xffff - chksum);
    StreamIsFlat(pieces);
  }

  // ---------------------------------------------------------------- where it runs away

  /** The segments of the bytes 1, 2 and, in a segment of their own, 3, 4. */
  function TwoSegs(): seq<Seg> {
    InsertedSegs([Seg(1, 3, 0)], 2, Seg(3, 5, 1))
  }

  /** If the first three of them are deleted, the first segment is NULL, and the checksum of byte 4 visits it. */
  lemma DeletedSegmentVisited()
    ensures var segs := DeletedSegs(TwoSegs(), 0, 3);
            Found(segs, 0, 1) && NullVisited(segs, FirstFrom(segs, 0, 0), 0, 1)
  {
    TwoSegments();
    FirstIsNull(DeletedSegs(TwoSegs(), 0, 3), 0, 1);
  }

  /** A buffer for which no memory has been allocated yet is one NULL segment, which every range visits. */
  lemma ReservedVisited(len: nat)
    ensures var segs := [Seg(NULL, NULL, 0)]; Found(segs, 0, len) && NullVisited(segs, FirstFrom(segs, 0, 0), 0, len)
  {
    FirstIsNull([Seg(NULL, NULL, 0)], 0, len);
  }

  /** The last of the four bytes alone is not found: the walk stops in the first segment. */
  lemma LaterSegmentNotFound()
    ensures !Found(TwoSegs(), 3, 1)
  {
    TwoSegments();
  }

  /** The input that shows it: of the bytes 1, 2 and 3, 4 the first three are deleted. Byte 4 is left; its
      checksum is never returned. */
  method DeletedSegmentRunsAway() returns (buf: Buffer, sum: Option<int>)
    ensures buf.Valid() && buf.Flat() == [4] && buf.segs == DeletedSegs(TwoSegs(), 0, 3)
    ensures NullVisited(buf.segs, FirstFrom(buf.segs, 0, 0), 0, 1) && sum == None
  {
    hide View, Counted, Unshared, LenTo, SegsOk, SegOk, Spliced, InsertedSegs, DeletedSegs, NullVisited, FirstFrom;
    hide Found;
    TwoSegments();
    buf := new Buffer.Init([1, 2]);
    WholeLength(buf.mem, buf.segs);
    FourBytes();
    buf.Insert(2, [3, 4]);
    WholeLength(buf.mem, buf.segs);
    buf.Delete(0, 3);
    WholeLength(buf.mem, buf.segs);
    DeletedSegmentVisited();
    sum := BufTagCompute(buf, 0, 1, 0);
  }

  /** Nor does it end on a buffer for which no memory has been allocated yet. */
  method ReservedRunsAway(size: nat, len: nat) returns (buf: Buffer, sum: Option<int>)
    requires len <= size < WORD - 1
    ensures buf.Valid() && buf.bufSize == size && buf.segs == [Seg(NULL, NULL, 0)]
    ensures NullVisited(buf.segs, FirstFrom(buf.segs, 0, 0), 0, len) && sum == None
  {
    buf := new Buffer.Reserve(size);
    ReservedVisited(len);
    sum := BufTagCompute(buf, 0, len, 0);
  }

  lemma FirstIsNull(segs: seq<Seg>, off: int, len: int)
    requires segs != [] && segs[0].start == NULL
    ensures FirstFrom(segs, 0, 0) == 0 && NullVisited(segs, 0, off, len) && Found(segs, 0, len)
  {
    assert Visited(segs, 0, off, len, 0);
  }

  /** Of the bytes 1, 2 and 3, 4 in two segments, the last one alone is not summed. */
  method LaterSegmentMissed() returns (buf: Buffer, sum: Option<int>)
    ensures buf.Valid() && buf.Flat() == [1, 2, 3, 4] && buf.segs == TwoSegs()
    ensures !Found(buf.segs, 3, 1) && sum == None
  {
    hide View, Counted, Unshared, LenTo, SegsOk, SegOk, Spliced, InsertedSegs, DeletedSegs, NullVisited, Found;
    TwoSegments();
    buf := new Buffer.Init([1, 2]);
    WholeLength(buf.mem, buf.segs);
    FourBytes();
    buf.Insert(2, [3, 4]);
    WholeLength(buf.mem, buf.segs);
    LaterSegmentNotFound();
    sum := BufTagCompute(buf, 3, 1, 0);
  }

  lemma FourBytes()
    ensures Spliced([1, 2], 2, 0, [3, 4]) == [1, 2, 3, 4] && Spliced([1, 2, 3, 4], 0, 3, []) == [4]
  {
  }

  lemma TwoSegments()
    ensures var s := InsertedSegs([Seg(1, 3, 0)], 2, Seg(3, 5, 1));
            s == [Seg(1, 3, 0), Seg(3, 5, 1)] && DeletedSegs(s, 0, 3) == [Seg(NULL, NULL, 0), Seg(4, 5, 1)]
  {
    var a, s := [Seg(1, 3, 0)], [Seg(1, 3, 0), Seg(3, 5, 1)];
    assert Holding(a, 0, 2) == Holding(a, 1, 0) == (1, 0);
    assert a[..1] + [Seg(3, 5, 1)] + a[1..] == s;
    var t := s[0 := Seg(NULL, NULL, 0)];
    assert Reaching(s, 0, 0) == (0, 0);
    assert DroppedSegs(s, 0, 0, 3) == DroppedSegs(t, 1, 0, 1) == t[1 := Seg(4, 5, 1)];
  }
}
