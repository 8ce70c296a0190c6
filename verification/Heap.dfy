/** The allocator's invariant, over the words of memory and a catalogue of chunks.

    The catalogue is the view do_check_malloc_state tries to recover by walking memory:
    which chunks exist, how large each is, which one precedes it, and what it is used for. */
module Heap {
  import opened Memory
  import opened Ring
  import BinIndex

  const NBINS := 96
  const NFASTBINS := 10

  /** The bin headers are words of malloc_state, addressed so that a header's fd and bk
      fall on bins[2i] and bins[2i+1]. Chunks live above malloc_state. */
  const BINS := 0x400
  const HEAP_BASE := 0x1000

  function BinAt(i: int): int { BINS + 8 * i - 8 }

  const UNSORTED := 1

  datatype Kind =
    | Live                // handed to a client
    | Fast                // on a fastbin; still marked in use
    | Binned(bin: int)    // on the circular list of a bin
    | Top
    | Fence               // the two fenceposts that end an abandoned region
    | Slack               // 8 bytes lost in front of a fencepost
    | Hole                // off every list, between two steps of one operation

  /** prev is the address of the chunk physically before this one, or NONE at the start of a region. */
  datatype Chunk = Chunk(size: int, prev: int, kind: Kind)

  const NONE := -1

  type Chunks = map<int, Chunk>

  ghost function Succ(ch: Chunks, p: int): int
    requires p in ch
  {
    p + ch[p].size
  }

  ghost predicate EndsRegion(k: Kind) {
    k.Top? || k.Fence?
  }

  // ---------------------------------------------------------------- tiling

  ghost predicate ShapeOk(p: int, c: Chunk) {
    && HEAP_BASE <= p && p % 8 == 0 && c.size % 8 == 0 && p + c.size <= ADDRESS_LIMIT
    && (match c.kind
        case Slack => c.size == 8
        case Fence => c.size == 16
        case _ => MINSIZE <= c.size)
  }

  ghost predicate TileOk(ch: Chunks, p: int)
    requires p in ch
  {
    && ShapeOk(p, ch[p])
    && (!EndsRegion(ch[p].kind) ==> Succ(ch, p) in ch && ch[Succ(ch, p)].prev == p)
    && (ch[p].prev != NONE ==>
          ch[p].prev in ch && !EndsRegion(ch[ch[p].prev].kind) && Succ(ch, ch[p].prev) == p)
  }

  ghost predicate Before(ch: Chunks, p: int, q: int)
    requires p in ch && q in ch
  {
    Succ(ch, p) <= q
  }

  /** Chunks tile every region: neighbours meet exactly and no two chunks overlap. */
  ghost predicate Tiled(ch: Chunks) {
    && (forall p {:trigger TileOk(ch, p)} :: p in ch ==> TileOk(ch, p))
    && (forall p, q {:trigger Before(ch, p, q)} :: p in ch && q in ch && p < q ==> Before(ch, p, q))
  }

  // ---------------------------------------------------------------- boundary tags

  /** What the size word of a chunk says, without its PREV_INUSE bit. */
  ghost function HeadSize(c: Chunk): int {
    if c.kind.Fence? then SIZE_SZ else c.size
  }

  ghost predicate PrevFree(ch: Chunks, p: int)
    requires p in ch
  {
    ch[p].prev in ch && ch[ch[p].prev].kind.Binned?
  }

  ghost predicate PrevHole(ch: Chunks, p: int)
    requires p in ch
  {
    ch[p].prev in ch && ch[ch[p].prev].kind.Hole?
  }

  ghost predicate HeadOk(m: Mem, ch: Chunks, p: int)
    requires p in ch
  {
    var w := At(m, p + 4);
    var s := HeadSize(ch[p]);
    if ch[p].kind.Hole? then true
    else if PrevHole(ch, p) then w == s || w == s + PREV_INUSE
    else w == if PrevFree(ch, p) then s else s + PREV_INUSE
  }

  /** Size word, footer of a binned chunk, coalescing, and the second fencepost. */
  ghost predicate TagOk(m: Mem, ch: Chunks, p: int)
    requires p in ch
  {
    && HeadOk(m, ch, p)
    && (ch[p].kind.Binned? ==> At(m, Succ(ch, p)) == ch[p].size)
    && (ch[p].kind.Binned? || ch[p].kind.Top? ==> !PrevFree(ch, p))
    && (ch[p].kind.Fence? ==> At(m, p + 8) == SIZE_SZ + PREV_INUSE)
  }

  ghost predicate Tagged(m: Mem, ch: Chunks) {
    forall p {:trigger TagOk(m, ch, p)} :: p in ch ==> TagOk(m, ch, p)
  }

  // ---------------------------------------------------------------- the parts of the catalogue

  datatype Entry = Entry(size: int, bin: int)

  // Each part is a map with a value function that is constant outside its domain, so that
  // equal parts have equal value functions.

  ghost function LiveSize(ch: Chunks, p: int): int {
    if p in ch && ch[p].kind.Live? then ch[p].size else 0
  }

  ghost function LivePart(ch: Chunks): map<int, int> {
    map p | p in ch && ch[p].kind.Live? :: LiveSize(ch, p)
  }

  ghost function FastSize(ch: Chunks, p: int): int {
    if p in ch && ch[p].kind.Fast? then ch[p].size else 0
  }

  ghost function FastPart(ch: Chunks): map<int, int> {
    map p | p in ch && ch[p].kind.Fast? :: FastSize(ch, p)
  }

  ghost function BinnedEntry(ch: Chunks, p: int): Entry {
    if p in ch && ch[p].kind.Binned? then Entry(ch[p].size, ch[p].kind.bin) else Entry(0, 0)
  }

  ghost function BinnedPart(ch: Chunks): map<int, Entry> {
    map p | p in ch && ch[p].kind.Binned? :: BinnedEntry(ch, p)
  }

  // ---------------------------------------------------------------- bins

  ghost predicate NoDup(s: seq<int>) {
    forall j, k :: 0 <= j < k < |s| ==> s[j] != s[k]
  }

  ghost predicate Descending(bp: map<int, Entry>, s: seq<int>) {
    forall j, k {:trigger s[j], s[k]} :: 0 <= j < k < |s| ==> s[j] in bp && s[k] in bp && bp[s[j]].size >= bp[s[k]].size
  }

  /** One bin: its members, and for the indexed bins their index and descending order of size. */
  ghost predicate BinOk(bp: map<int, Entry>, s: seq<int>, i: int) {
    && NoDup(s)
    && (forall p :: p in s ==> p in bp && bp[p].bin == i)
    && (i != UNSORTED ==>
        && (forall p :: p in s ==> p in bp && BinIndex.BinIndex(bp[p].size) == i)
        && Descending(bp, s))
  }

  /** Every binned chunk is on exactly one list, the list of its own bin. */
  ghost predicate Listed(bp: map<int, Entry>, bins: seq<seq<int>>) {
    && |bins| == NBINS
    && (forall i {:trigger bins[i]} :: 1 <= i < NBINS ==> BinOk(bp, bins[i], i))
    && (forall p {:trigger bp[p]} :: p in bp ==> 1 <= bp[p].bin < NBINS && p in bins[bp[p].bin])
  }

  ghost predicate RingOk(m: Mem, s: seq<int>, i: int) {
    IsRing(m, BinAt(i), s)
  }

  ghost predicate Rings(m: Mem, bins: seq<seq<int>>) {
    |bins| == NBINS && forall i {:trigger bins[i]} :: 1 <= i < NBINS ==> RingOk(m, bins[i], i)
  }

  // ---------------------------------------------------------------- fastbins

  ghost function Link(s: seq<int>, k: int): int {
    if 0 <= k < |s| then s[k] else 0
  }

  /** A null-terminated chain through the fd words. */
  ghost predicate IsChain(m: Mem, head: int, s: seq<int>) {
    head == Link(s, 0) && forall k :: 0 <= k < |s| ==> Fd(m, s[k]) == Link(s, k + 1)
  }

  function FastIndex(size: int): int { size / 8 - 2 }

  ghost predicate FastOk(fp: map<int, int>, s: seq<int>, i: int) {
    && NoDup(s)
    && (forall p :: p in s ==> p in fp && FastIndex(fp[p]) == i)
  }

  ghost predicate FastListed(fp: map<int, int>, fast: seq<seq<int>>) {
    && |fast| == NFASTBINS
    && (forall i {:trigger fast[i]} :: 0 <= i < NFASTBINS ==> FastOk(fp, fast[i], i))
    && (forall p {:trigger fp[p]} :: p in fp ==> 0 <= FastIndex(fp[p]) < NFASTBINS && p in fast[FastIndex(fp[p])])
  }

  ghost predicate Chains(m: Mem, fb: seq<int>, fast: seq<seq<int>>) {
    |fb| == NFASTBINS && |fast| == NFASTBINS &&
    forall i {:trigger fast[i]} :: 0 <= i < NFASTBINS ==> IsChain(m, fb[i], fast[i])
  }

  // ---------------------------------------------------------------- the invariant

  /** The catalogue: chunks by address, the lists of the bins in fd order, and the fastbin chains. */
  datatype Book = Book(ch: Chunks, bins: seq<seq<int>>, fast: seq<seq<int>>)

  ghost predicate Inv(m: Mem, fb: seq<int>, b: Book) {
    && Tiled(b.ch)
    && Tagged(m, b.ch)
    && Listed(BinnedPart(b.ch), b.bins)
    && Rings(m, b.bins)
    && FastListed(FastPart(b.ch), b.fast)
    && Chains(m, fb, b.fast)
  }
}
