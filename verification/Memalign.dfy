/** memalign: carve an aligned block out of a larger one, giving back what lies before and behind. */
module Memalign {
  import opened Memory
  import opened Heap
  import opened HeapSteps
  import opened TopSteps
  import opened Census
  import opened BinIndex
  import opened Binmap
  import opened FreeSteps
  import opened AllocSteps
  import opened SystemSteps
  import opened Resize
  import opened Realloc
  import opened Arena

  // ---------------------------------------------------------------- powers of two

  function BitAnd(x: nat, y: nat): nat {
    if x == 0 || y == 0 then 0 else x % 2 * (y % 2) + 2 * BitAnd(x / 2, y / 2)
  }

  ghost predicate IsPow2(x: nat) {
    exists k: nat :: x == Pow2(k)
  }

  lemma {:induction false} AndSelf(x: nat)
    ensures BitAnd(x, x) == x
  {
    if x > 0 {
      AndSelf(x / 2);
      SquareBit(x % 2);
    }
  }

  lemma SquareBit(b: nat)
    requires b < 2
    ensures b * b == b
  {
  }

  /** alignment & (alignment - 1) is zero exactly for the powers of two. */
  lemma {:induction false} PowerTest(x: nat)
    requires x > 0
    ensures BitAnd(x, x - 1) == 0 <==> IsPow2(x)
  {
    if x == 1 {
      assert Pow2(0) == 1;
    } else if x % 2 == 1 {
      AndSelf(x / 2);
      assert (x - 1) / 2 == x / 2;
      OddNotPow2(x);
    } else {
      PowerTest(x / 2);
      assert (x - 1) / 2 == x / 2 - 1;
      DoublePow2(x / 2);
    }
  }

  lemma OddNotPow2(x: nat)
    requires x > 1 && x % 2 == 1
    ensures !IsPow2(x)
  {
    forall k: nat
      ensures x != Pow2(k)
    {
      if k > 0 {
        assert Pow2(k) == 2 * Pow2(k - 1);
      } else {
        assert Pow2(0) == 1;
      }
    }
  }

  lemma DoublePow2(x: nat)
    requires x > 0
    ensures IsPow2(2 * x) <==> IsPow2(x)
  {
    if IsPow2(x) {
      var k: nat :| x == Pow2(k);
      assert 2 * x == Pow2(k + 1);
    }
    if IsPow2(2 * x) {
      var k: nat :| 2 * x == Pow2(k);
      if k > 0 {
        assert x == Pow2(k - 1);
      }
    }
  }

  lemma {:induction false} AndOnes(v: nat, w: nat)
    requires v < Pow2(w)
    ensures BitAnd(v, Pow2(w) - 1) == v
  {
    if w > 0 && v > 0 {
      assert Pow2(w) == 2 * Pow2(w - 1);
      AndOnes(v / 2, w - 1);
      assert (Pow2(w) - 1) / 2 == Pow2(w - 1) - 1 && (Pow2(w) - 1) % 2 == 1;
    }
  }

  /** v & -a, in words of w bits, rounds v down to a multiple of the power of two a. */
  lemma {:induction false} AndMinus(v: nat, k: nat, w: nat)
    requires k <= w && v < Pow2(w)
    ensures Pow2(k) <= Pow2(w) && BitAnd(v, Pow2(w) - Pow2(k)) == v - v % Pow2(k)
  {
    Pow2Monotone(k, w);
    if k == 0 {
      AndOnes(v, w);
      assert Pow2(0) == 1;
    } else {
      AndMinus(v / 2, k - 1, w - 1);
      TwiceMod(v, Pow2(k - 1));
      AndEven(v, Pow2(w - 1) - Pow2(k - 1));
      assert Pow2(w) == 2 * Pow2(w - 1) && Pow2(k) == 2 * Pow2(k - 1);
    }
  }

  lemma AndEven(v: nat, mask: nat)
    ensures BitAnd(v, 2 * mask) == 2 * BitAnd(v / 2, mask)
  {
  }

  lemma TwiceMod(v: nat, q: nat)
    requires q > 0
    ensures v % (2 * q) == 2 * (v / 2 % q) + v % 2
  {
    var d := v / 2 / q;
    assert v == (2 * q) * d + (2 * (v / 2 % q) + v % 2);
    DivBounds(v, 2 * q, d);
  }

  /** The alignment that is used: MINSIZE, doubled until it is at least the one asked for. */
  function UsedAlignment(asked: int, a: int): (used: int)
    requires a > 0
    ensures a <= used
    decreases asked - a
  {
    if a >= asked then a else UsedAlignment(asked, 2 * a)
  }

  /** It is the smallest power of two that will do. */
  lemma {:induction false} UsedIsLeast(asked: int, k: nat)
    requires k >= 4 && (k == 4 || Pow2(k - 1) < asked)
    ensures Pow2(4) == MINSIZE
    ensures var used := UsedAlignment(asked, Pow2(k));
            && IsPow2(used) && used % 16 == 0 && asked <= used && Pow2(k) <= used
            && (used == MINSIZE || used < 2 * asked)
    decreases asked - Pow2(k)
  {
    assert Pow2(4) == 16;
    SixteenDivides(k);
    if Pow2(k) < asked {
      assert Pow2(k + 1) == 2 * Pow2(k);
      UsedIsLeast(asked, k + 1);
    }
  }

  lemma {:induction false} UsedIfPower(k: nat, j: nat)
    requires 4 <= k <= j
    ensures UsedAlignment(Pow2(j), Pow2(k)) == Pow2(j)
    decreases j - k
  {
    Pow2Monotone(k, j);
    if k < j {
      assert Pow2(k + 1) == 2 * Pow2(k);
      Pow2Monotone(k + 1, j);
      UsedIfPower(k + 1, j);
    }
  }

  method RoundAlignment(asked: int) returns (a: int)
    requires MALLOC_ALIGNMENT < asked
    ensures a == UsedAlignment(asked, MINSIZE)
  {
    a := if asked < MINSIZE then MINSIZE else asked;
    assert Pow2(4) == MINSIZE;
    PowerTest(a);
    if BitAnd(a, a - 1) != 0 {
      var alignment := a;
      a := MALLOC_ALIGNMENT * 2;
      while a < alignment
        invariant 0 < a && UsedAlignment(alignment, a) == UsedAlignment(alignment, MINSIZE)
        decreases alignment - a
      {
        a := 2 * a;
      }
    } else {
      var k: nat :| a == Pow2(k);
      Pow2Monotone(k, if k < 4 then 3 else k);
      assert Pow2(3) == 8;
      UsedIfPower(4, k);
    }
  }

  lemma TwiceSixteen(x: nat)
    requires x % 16 == 0
    ensures 2 * x % 16 == 0
  {
  }

  lemma {:induction false} SixteenDivides(k: nat)
    requires k >= 4
    ensures Pow2(k) % 16 == 0
  {
    if k > 4 {
      SixteenDivides(k - 1);
      assert Pow2(k) == 2 * Pow2(k - 1);
      TwiceSixteen(Pow2(k - 1));
    } else {
      assert Pow2(4) == 16;
    }
  }

  // ---------------------------------------------------------------- finding the aligned spot

  predicate Aligned(x: int, a: int)
    requires a > 0
  {
    x % a == 0
  }

  /** (m + a - 1) & -a, in words of 32 bits. */
  function AlignUp(m: nat, a: nat): nat
    requires 0 < a <= WORD
  {
    BitAnd(m + a - 1, WORD - a)
  }

  /** For a power of two the mask finds the next multiple. */
  lemma AlignUpIs(m: nat, a: nat)
    requires IsPow2(a) && a % 16 == 0 && m + a <= WORD && 0 < a
    ensures var up := AlignUp(m, a); m <= up <= m + a - 1 && Aligned(up, a) && Aligned(up + a, a) && up % 8 == 0
  {
    hide BitAnd, Pow2;
    var x := m + a - 1;
    var k: nat :| a == Pow2(k);
    SmallPower(k);
    AndMinus(x, k, 32);
    RoundedDown(m, a);
  }

  lemma SmallPower(k: nat)
    requires Pow2(k) <= WORD
    ensures k <= 32 && Pow2(32) == WORD
  {
    Pow2Word();
    assert Pow2(33) == 2 * Pow2(32);
    Pow2Monotone(33, if k > 32 then k else 33);
  }

  lemma RoundedDown(m: nat, a: nat)
    requires a % 16 == 0 && a > 0
    ensures var x := m + a - 1;
            var up := x - x % a; m <= up <= x && Aligned(up, a) && Aligned(up + a, a) && up % 8 == 0
  {
    var x := m + a - 1;
    var q := x / a;
    assert x == a * q + x % a;
    ModOfMultiple(q, a);
    ModOfMultiple(q + 1, a);
    assert (q + 1) * a == q * a + a;
    MultipleOf8(q, a / 16);
    assert a == 16 * (a / 16);
  }

  lemma MultipleOf8(q: int, c: int)
    ensures q * (16 * c) % 8 == 0
  {
    assert q * (16 * c) == 16 * (q * c);
  }

  lemma ModOfMultiple(q: nat, a: nat)
    requires a > 0
    ensures q * a % a == 0
  {
    DivBounds(q * a, a, q);
    assert q * a == a * (q * a / a) + q * a % a;
  }

  /** A leader shorter than MINSIZE is eight bytes long; the next aligned spot is then taken instead. */
  function Leader(m: nat, a: nat): int
    requires 0 < a <= WORD
  {
    var lead := AlignUp(m, a) - m;
    if lead < MINSIZE then lead + a else lead
  }

  lemma LeadArithmetic(lead: int, a: int)
    requires a % 16 == 0 && a >= MINSIZE && lead % 8 == 0 && 0 < lead < a
    ensures var l := if lead < MINSIZE then lead + a else lead; l % 8 == 0 && MINSIZE <= l < a + MINSIZE
  {
    EightsOf(a / 16, lead / 8);
  }

  lemma EightsOf(x: int, y: int)
    ensures (8 * y + 16 * x) % 8 == 0
  {
    assert 8 * y + 16 * x == 8 * (y + 2 * x);
  }

  /** The leader is a chunk of its own, shorter than the alignment plus MINSIZE, and what follows it is aligned. */
  lemma LeaderFits(m: nat, a: nat)
    requires m % 8 == 0 && IsPow2(a) && a % 16 == 0 && a >= MINSIZE && m + a <= WORD && !Aligned(m, a)
    ensures var lead := Leader(m, a); lead % 8 == 0 && MINSIZE <= lead < a + MINSIZE && Aligned(m + lead, a)
  {
    hide AlignUp, Aligned, IsPow2;
    AlignUpIs(m, a);
    var up := AlignUp(m, a);
    assert up != m;
    Eights(m, up);
    LeadArithmetic(up - m, a);
    assert m + (up - m) == up && m + (up - m + a) == up + a;
  }

  lemma Eights(m: int, up: int)
    requires m % 8 == 0 && up % 8 == 0
    ensures (up - m) % 8 == 0
  {
  }

  // ---------------------------------------------------------------- the operation

  lemma CutStored(m: Mem, m': Mem, fb: seq<int>, b: Book, p: int, k: int, mark: bool)
    requires Inv(m, fb, b) && Holes(b.ch) == {} && CanCut(b.ch, p, k)
    requires var n, rs := p + b.ch[p].size, b.ch[p].size - k;
             var m1 := m[p + k + 4 := rs + PREV_INUSE];
             var m2 := if mark then m1[n + 4 := At(m1, n + 4) - At(m1, n + 4) % 2 + PREV_INUSE] else m1;
             m' == m2[p + 4 := At(m2, p + 4) % 2 + k]
    ensures CutStores(m, m', p, b.ch[p].size, k)
  {
    AfterLive(m, fb, b, p);
    NoHoleAfter(b, Succ(b.ch, p));
    assert TileOk(b.ch, Succ(b.ch, p));
    FlagBit(HeadSize(b.ch[Succ(b.ch, p)]));
  }

  /** Cut the block p in two blocks in use, of k bytes and the rest. */
  method CutOff(av: MallocState, p: int, size: int, k: int, mark: bool)
    requires av.Settled() && FlagOk(FastPart(av.book.ch), av.fastChunks) && CanCut(av.book.ch, p, k)
      && size == av.book.ch[p].size
    modifies av`mem, av`book
    ensures av.Settled() && FlagOk(FastPart(av.book.ch), av.fastChunks)
    ensures p in old(LivePart(av.book.ch)) && p + k !in old(LivePart(av.book.ch)) && p % 8 == 0 && p > 0
    ensures LivePart(av.book.ch) == old(LivePart(av.book.ch))[p := k][p + k := size - k]
    ensures SamePayload(old(av.mem), av.mem, LivePart(av.book.ch))
  {
    hide Inv, MapOk, LivePart, FastPart, BinnedPart, Holes, Total, TopIs, FlagOk, SamePayload, CutStores, CutBook;
    hide CanSplit, Retag;
    ghost var m0, b0 := av.mem, av.book;
    var remainderSize := size - k;
    av.mem := av.mem[p + k + 4 := remainderSize + PREV_INUSE];
    if mark {
      av.mem := av.mem[p + size + 4 := At(av.mem, p + size + 4) - At(av.mem, p + size + 4) % 2 + PREV_INUSE];
    }
    av.mem := av.mem[p + 4 := At(av.mem, p + 4) % 2 + k];
    CutStored(m0, av.mem, av.fastbins, b0, p, k, mark);
    CutInv(m0, av.mem, av.fastbins, b0, p, k);
    CutTotals(b0, p, k, av.top);
    NotEmpty(b0.ch, p);
    av.book := CutBook(b0, p, k);
  }

  /** The block at q takes the place of nothing: it is new, aligned, and large enough. */
  ghost predicate AlignedBlock(live0: map<int, int>, live1: map<int, int>, q: int, nb: int) {
    && q !in live0 && q in live1 && live1 == live0[q := live1[q]]
    && nb <= live1[q] <= nb + MINSIZE
  }

  /** Give back the leading space, so that the block starts at an aligned spot. */
  method DropLeader(av: MallocState, p: int, size: int, lead: int, ghost live0: map<int, int>)
    requires av.Settled() && FlagOk(FastPart(av.book.ch), av.fastChunks) && CanCut(av.book.ch, p, lead)
      && size == av.book.ch[p].size
    requires p !in live0 && LivePart(av.book.ch) == live0[p := size]
    modifies av
    ensures av.answers == old(av.answers)
    ensures av.Valid() && p + lead !in live0 && LivePart(av.book.ch) == live0[p + lead := size - lead]
    ensures SamePayload(old(av.mem), av.mem, live0)
  {
    hide Inv, MallocState.Working, LivePart, FastPart, BinnedPart, Holes, FlagOk, SamePayload;
    ghost var m0 := av.mem;
    CutOff(av, p, size, lead, true);
    ghost var m1 := av.mem;
    LeaderGone(live0, p, size, lead);
    PayloadOfLess(m0, m1, live0, live0[p := lead][p + lead := size - lead]);
    av.Free(p + 8);
    PayloadOfLess(m1, av.mem, live0, live0[p + lead := size - lead]);
    KeepPayload(m0, m1, av.mem, live0);
  }

  lemma LeaderGone(live0: map<int, int>, p: int, size: int, lead: int)
    requires p !in live0 && lead > 0 && p + lead !in live0[p := size]
    ensures live0[p := size][p := lead][p + lead := size - lead] - {p} == live0[p + lead := size - lead]
    ensures live0[p := size][p := lead][p + lead := size - lead] == live0[p := lead][p + lead := size - lead]
  {
  }

  lemma PayloadOfLess(m: Mem, m': Mem, live: map<int, int>, live': map<int, int>)
    requires SamePayload(m, m', live') && forall q :: q in live ==> q in live' && live'[q] == live[q]
    ensures SamePayload(m, m', live)
  {
    PayloadOfSame(m, live);
    SamePayloadTransitive(m, m, m', live, live');
  }

  /** Give back the spare room at the end. */
  method DropTail(av: MallocState, p: int, size: int, nb: int, ghost live0: map<int, int>)
    requires av.Settled() && FlagOk(FastPart(av.book.ch), av.fastChunks) && CanCut(av.book.ch, p, nb)
      && size == av.book.ch[p].size
    requires p !in live0 && LivePart(av.book.ch) == live0[p := size]
    modifies av
    ensures av.answers == old(av.answers)
    ensures av.Valid() && LivePart(av.book.ch) == live0[p := nb]
    ensures SamePayload(old(av.mem), av.mem, live0)
  {
    hide Inv, MallocState.Working, LivePart, FastPart, BinnedPart, Holes, FlagOk, SamePayload;
    ghost var m0 := av.mem;
    CutOff(av, p, size, nb, false);
    ghost var m1 := av.mem;
    TailGone(live0, p, size, nb);
    PayloadOfLess(m0, m1, live0, live0[p := nb][p + nb := size - nb]);
    av.Free(p + nb + 8);
    PayloadOfLess(m1, av.mem, live0, live0[p := nb]);
    KeepPayload(m0, m1, av.mem, live0);
  }

  lemma TailGone(live0: map<int, int>, p: int, size: int, nb: int)
    requires p !in live0 && nb > 0 && p + nb !in live0[p := size]
    ensures live0[p := size][p := nb][p + nb := size - nb] - {p + nb} == live0[p := nb]
    ensures live0[p := size][p := nb][p + nb := size - nb] == live0[p := nb][p + nb := size - nb]
  {
  }

  /** The worst-case request is a word: it does not wrap around, and rounding the alignment up ends. */
  predicate InWords(alignment: int, bytes: int) {
    alignment <= MALLOC_ALIGNMENT
    || (alignment <= ADDRESS_LIMIT / 2
        && (bytes >= REQUEST_LIMIT
            || Request2Size(bytes) + UsedAlignment(alignment, MINSIZE) + MINSIZE < ADDRESS_LIMIT))
  }

  /** Just below 2 GB, at an alignment of 2 GB: the program asks malloc for 16 bytes. */
  lemma WrappingInput()
    ensures !InWords(0x8000_0000, 0x7fff_fff8)
    ensures (Request2Size(0x7fff_fff8) + UsedAlignment(0x8000_0000, MINSIZE) + MINSIZE) % ADDRESS_LIMIT == 16
  {
    hide Pow2;
    HalfWord31();
    assert Pow2(4) == 16 by {
      UsedIsLeast(0, 4);
    }
    UsedIfPower(4, 31);
  }

  /** The block at q is new. */
  ghost predicate NewBlockAt(live0: map<int, int>, live1: map<int, int>, q: int) {
    q !in live0 && q in live1 && live1 == live0[q := live1[q]]
  }

  /** Cut the aligned block out of the block at m0. ok is false if the leading space would not leave a chunk: the
      program then stores beyond the block. */
  method CarveAligned(av: MallocState, m0: nat, a: nat, nb: int, ghost live0: map<int, int>) returns (ok: bool, m: int)
    requires av.Valid() && m0 % 8 == 0 && m0 != 0 && NewBlockAt(live0, LivePart(av.book.ch), m0 - 8)
    requires IsPow2(a) && a % 16 == 0 && MINSIZE <= a && nb % 8 == 0 && MINSIZE <= nb
    requires var size := LivePart(av.book.ch)[m0 - 8]; size >= nb + a + MINSIZE || size < nb
    modifies av
    ensures old(LivePart(av.book.ch))[m0 - 8] >= nb ==> ok
    ensures ok ==> av.Valid() && SamePayload(old(av.mem), av.mem, live0) && m != 0 && Aligned(m, a)
    ensures ok ==> NewBlockAt(live0, LivePart(av.book.ch), m - 8)
    ensures ok ==>
              var size := LivePart(av.book.ch)[m - 8];
              if old(LivePart(av.book.ch))[m0 - 8] >= nb then nb <= size <= nb + MINSIZE else size < nb
    ensures av.answers == old(av.answers)
    ensures ok <==>
      Aligned(m0, a) || (m0 + a <= WORD && Leader(m0, a) + MINSIZE <= old(LivePart(av.book.ch))[m0 - 8])
    ensures ok ==>
              var lead := if Aligned(m0, a) then 0 else Leader(m0, a);
              var room := old(LivePart(av.book.ch))[m0 - 8] - lead;
              m == m0 + lead && LivePart(av.book.ch)[m - 8] == if room > nb + MINSIZE then nb else room
  {
    hide Inv, MallocState.Valid, MallocState.Working, LivePart, FastPart, BinnedPart, Holes, FlagOk, SamePayload;
    hide Aligned, Leader, IsPow2;
    ghost var mem0 := av.mem;
    PayloadOfSame(mem0, live0);
    var p := m0 - 8;
    InUseSettled(av, p);
    RoomFor(av.mem, av.fastbins, av.book, p);
    HeadBit(av.mem, av.fastbins, av.book, p);
    HeadRead(av.mem, av.fastbins, av.book, p);
    var size := ChunkSize(At(av.mem, p + 4));
    if !Aligned(m0, a) {
      if m0 + a > WORD {
        return false, 0;
      }
      var leadsize := Leader(m0, a);
      LeaderFits(m0, a);
      if leadsize + MINSIZE > size {
        return false, 0;
      }
      DropLeader(av, p, size, leadsize, live0);
      p := p + leadsize;
      InUseSettled(av, p);
      HeadBit(av.mem, av.fastbins, av.book, p);
      HeadRead(av.mem, av.fastbins, av.book, p);
    }
    size := ChunkSize(At(av.mem, p + 4));
    ok, m := true, p + 8;
    if size > nb + MINSIZE {
      ghost var m1 := av.mem;
      DropTail(av, p, size, nb, live0);
      KeepPayload(mem0, m1, av.mem, live0);
    }
  }

  /** How a call ends: by returning, with stores beyond the block it has got, or not at all. */
  datatype Ending = Returned | StoresBeyond | NeverEnds

  /** MINSIZE, doubled k times in words of 32 bits. */
  function DoubledWord(k: nat): int {
    if k == 0 then MINSIZE else 2 * DoubledWord(k - 1) % ADDRESS_LIMIT
  }

  lemma {:induction false} DoubledIs(k: nat)
    ensures DoubledWord(k) == if k <= 27 then Pow2(k + 4) else 0
  {
    hide Pow2;
    HalfWord31();
    if k == 0 {
      UsedIsLeast(0, 4);
    } else {
      DoubledIs(k - 1);
      NextPow2(k + 3);
      Pow2Monotone(if k <= 27 then k + 4 else 31, 31);
      DoubledWrap(DoubledWord(k - 1));
    }
  }

  lemma DoubledWrap(a: int)
    requires 0 <= a <= ADDRESS_LIMIT / 2
    ensures 2 * a % ADDRESS_LIMIT == if a < ADDRESS_LIMIT / 2 then 2 * a else 0
  {
  }

  lemma NextPow2(k: nat)
    ensures Pow2(k + 1) == 2 * Pow2(k)
  {
  }

  /** An alignment above 2^31 is no power of two, and no doubling in words reaches it. */
  lemma NeverReached(asked: int, k: nat)
    requires ADDRESS_LIMIT / 2 < asked < ADDRESS_LIMIT
    ensures BitAnd(asked, asked - 1) != 0 && 0 <= DoubledWord(k) < asked
  {
    hide Pow2, BitAnd;
    HalfWord31();
    PowerTest(asked);
    if IsPow2(asked) {
      var j: nat :| asked == Pow2(j);
      Pow2Monotone(if j <= 31 then j else 31, 31);
      Pow2Monotone(32, if j >= 32 then j else 32);
    }
    DoubledIs(k);
    Pow2Monotone(if k <= 27 then k + 4 else 31, 31);
  }

  /** What malloc is asked for. */
  function WorstRequest(alignment: int, bytes: int): int {
    if alignment <= MALLOC_ALIGNMENT then bytes
    else (Request2Size(bytes) + UsedAlignment(alignment, MINSIZE) + MINSIZE) % ADDRESS_LIMIT
  }

  /** The first spot of the block at whole that is aligned and leaves a chunk before it, or is the block itself. */
  function Placed(alignment: int, whole: int): int {
    var a := UsedAlignment(alignment, MINSIZE);
    if alignment <= MALLOC_ALIGNMENT || whole <= 0 || a > WORD || Aligned(whole, a) then whole
    else whole + Leader(whole, a)
  }

  /** mEMALIGn. whole, how and from are what malloc has returned. A block that is returned has room for the request
      exactly if the worst-case request is a word. The call does not return only if the request is no word. */
  method MemAlign(av: MallocState, alignment: int, bytes: int)
    returns (end: Ending, m: int, ghost whole: int, ghost how: Outcome, ghost from: Snapshot)
    requires av.Valid() && 0 <= bytes < ADDRESS_LIMIT && 0 <= alignment < ADDRESS_LIMIT
    modifies av
    ensures InWords(alignment, bytes) ==> end.Returned?
    ensures end.NeverEnds? <==> alignment > ADDRESS_LIMIT / 2
    ensures end.NeverEnds? ==> av.Valid() && av.mem == old(av.mem) && av.book == old(av.book)
    ensures !end.NeverEnds? ==>
              var asked := WorstRequest(alignment, bytes);
              if asked >= REQUEST_LIMIT || bytes >= REQUEST_LIMIT then whole == 0 && av.answers == old(av.answers)
              else
                MallocResult(old(av.Now()), old(av.fastChunks), old(av.ReadyHead(Request2Size(asked))), from,
                  Request2Size(asked), how, whole, old(av.answers), av.answers)
    ensures end.Returned? ==> m == Placed(alignment, whole)
    ensures end.Returned? ==> av.Valid() && SamePayload(old(av.mem), av.mem, old(LivePart(av.book.ch)))
    ensures end.Returned? && m == 0 ==> LivePart(av.book.ch) == old(LivePart(av.book.ch))
    ensures end.Returned? && m == 0 && bytes < REQUEST_LIMIT ==>
              var worst := WorstRequest(alignment, bytes);
              worst >= REQUEST_LIMIT || !TopServes(av.book.ch, av.top, Request2Size(worst))
    ensures end.Returned? && m != 0 ==>
      bytes < REQUEST_LIMIT && NewBlockAt(old(LivePart(av.book.ch)), LivePart(av.book.ch), m - 8)
    ensures end.Returned? && m != 0 ==>
      (InWords(alignment, bytes) <==> LivePart(av.book.ch)[m - 8] >= Request2Size(bytes))
    ensures end.Returned? && m != 0 && InWords(alignment, bytes) ==>
              AlignedBlock(old(LivePart(av.book.ch)), LivePart(av.book.ch), m - 8, Request2Size(bytes))
    ensures end.Returned? && m != 0 && alignment <= MALLOC_ALIGNMENT ==> Aligned(m, MALLOC_ALIGNMENT)
    ensures end.Returned? && m != 0 && MALLOC_ALIGNMENT < alignment ==> Aligned(m, UsedAlignment(alignment, MINSIZE))
  {
    hide Inv, MallocState.Valid, MallocState.Working, LivePart, FastPart, BinnedPart, Holes, FlagOk, SamePayload;
    hide Allocated, Explained, Consolidated, Request2Size, UsedAlignment, Aligned, TopServes, IsPow2, NoneFits;
    hide MallocResult, MallocState.FastServes, MallocState.ReadyHead, Leader;
    ghost var m0, live0 := av.mem, LivePart(av.book.ch);
    PayloadOfSame(m0, live0);
    end, whole, how, from := Returned, 0, Refused, av.Now();
    if alignment <= MALLOC_ALIGNMENT {
      m, how, from := av.MAlloc(bytes);
      whole := m;
      if m != 0 {
        PlainBlock(live0, LivePart(av.book.ch), m, Request2Size(bytes));
      }
      return;
    }
    if alignment > ADDRESS_LIMIT / 2 {
      return NeverEnds, 0, 0, how, from;
    }
    var a := RoundAlignment(alignment);
    if bytes >= REQUEST_LIMIT {
      return Returned, 0, 0, how, from;
    }
    UsedFacts(alignment);
    PaddedSize(bytes);
    var nb := Request2Size(bytes);
    var worst := (nb + a + MINSIZE) % ADDRESS_LIMIT;
    m, how, from := av.MAlloc(worst);
    whole := m;
    if m == 0 {
      return;
    }
    ghost var m1 := av.mem;
    WorstCase(live0, LivePart(av.book.ch), m, nb, a);
    WholeBlock(av, m);
    var ok;
    ok, m := CarveAligned(av, m, a, nb, live0);
    end := if ok then Returned else StoresBeyond;
    KeepPayload(m0, m1, if ok then av.mem else m1, live0);
  }

  lemma WholeBlock(av: MallocState, m: int)
    requires av.Valid() && m - 8 in LivePart(av.book.ch)
    ensures m > 0
  {
    InUseSettled(av, m - 8);
    AddressAbove(av.mem, av.fastbins, av.book, m - 8);
  }

  lemma AddressAbove(m: Mem, fb: seq<int>, b: Book, p: int)
    requires Inv(m, fb, b) && p in b.ch
    ensures HEAP_BASE <= p
  {
    assert TileOk(b.ch, p);
  }

  lemma PlainBlock(live0: map<int, int>, live1: map<int, int>, m: int, nb: int)
    requires Allocated(live0, live1, m, nb)
    ensures AlignedBlock(live0, live1, m - 8, nb) && Aligned(m, MALLOC_ALIGNMENT)
  {
  }

  /** The block that the worst-case request gets: large enough to cut from, unless the request has wrapped around;
      then it is smaller than the block asked for. */
  lemma WorstCase(live0: map<int, int>, live1: map<int, int>, m: int, nb: int, a: int)
    requires MINSIZE <= nb <= ADDRESS_LIMIT && MINSIZE <= a <= ADDRESS_LIMIT / 2
    requires Allocated(live0, live1, m, Request2Size((nb + a + MINSIZE) % ADDRESS_LIMIT))
    ensures m % 8 == 0 && m != 0 && NewBlockAt(live0, live1, m - 8)
    ensures if nb + a + MINSIZE < ADDRESS_LIMIT then live1[m - 8] >= nb + a + MINSIZE else live1[m - 8] < nb
  {
    PadsLittle((nb + a + MINSIZE) % ADDRESS_LIMIT);
    if nb + a + MINSIZE >= ADDRESS_LIMIT {
      assert (nb + a + MINSIZE) % ADDRESS_LIMIT == nb + a + MINSIZE - ADDRESS_LIMIT;
    }
  }

  lemma PadsLittle(bytes: int)
    requires 0 <= bytes
    ensures bytes <= Request2Size(bytes) <= bytes + MINSIZE
  {
  }

  /** The block ends within the address space. */
  lemma RoomFor(m: Mem, fb: seq<int>, b: Book, p: int)
    requires Inv(m, fb, b) && p in b.ch
    ensures 0 < p && p + b.ch[p].size <= WORD
  {
    assert TileOk(b.ch, p);
  }

  lemma UsedFacts(asked: int)
    ensures var a := UsedAlignment(asked, MINSIZE); a % 16 == 0 && a >= MINSIZE && IsPow2(a)
    ensures asked <= ADDRESS_LIMIT / 2 ==> UsedAlignment(asked, MINSIZE) <= ADDRESS_LIMIT / 2
  {
    UsedIsLeast(asked, 4);
    if asked <= ADDRESS_LIMIT / 2 {
      NotBeyond(asked);
    }
  }

  /** The least power of two that is at least a number up to 2^31 is itself at most 2^31. */
  lemma NotBeyond(asked: int)
    requires asked <= ADDRESS_LIMIT / 2
    ensures UsedAlignment(asked, MINSIZE) <= ADDRESS_LIMIT / 2
  {
    hide Pow2;
    UsedIsLeast(asked, 4);
    var used := UsedAlignment(asked, MINSIZE);
    var k: nat :| used == Pow2(k);
    HalfWord31();
    Pow2Monotone(32, if k >= 32 then k else 32);
    Pow2Monotone(if k < 32 then k else 31, 31);
  }

  lemma HalfWord31()
    ensures Pow2(31) == ADDRESS_LIMIT / 2 && Pow2(32) == ADDRESS_LIMIT
  {
    Pow2Word();
    assert Pow2(32) == 2 * Pow2(31);
  }
}
