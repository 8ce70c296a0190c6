/** Copying words: MALLOC_COPY, and realloc's unrolled copy of small blocks. */
module Copying {
  import opened Memory

  /** n words copied one by one, lowest address first. */
  function Copied(m: Mem, d: int, s: int, n: nat): Mem {
    if n == 0 then m
    else
      var m1 := Copied(m, d, s, n - 1);
      m1[d + 4 * (n - 1) := At(m1, s + 4 * (n - 1))]
  }

  ghost predicate Disjoint(d: int, s: int, n: nat) {
    d + 4 * n <= s || s + 4 * n <= d
  }

  /** The word at offset o from s in m0 is the one at offset o from d in m1. */
  ghost predicate WordMoved(m0: Mem, s: int, m1: Mem, d: int, o: int) {
    At(m1, d + o) == At(m0, s + o)
  }

  /** Between disjoint blocks, the copy moves exactly those n words. */
  lemma {:induction false} CopiedIs(m: Mem, d: int, s: int, n: nat)
    requires Disjoint(d, s, n)
    ensures forall o {:trigger WordMoved(m, s, Copied(m, d, s, n), d, o)} :: 0 <= o < 4 * n && o % 4 == 0 ==>
      WordMoved(m, s, Copied(m, d, s, n), d, o)
    ensures forall a {:trigger At(Copied(m, d, s, n), a)} :: !(d <= a < d + 4 * n) ==>
      At(Copied(m, d, s, n), a) == At(m, a)
  {
    if n > 0 {
      CopiedIs(m, d, s, n - 1);
      var m1, m2 := Copied(m, d, s, n - 1), Copied(m, d, s, n);
      assert At(m1, s + 4 * (n - 1)) == At(m, s + 4 * (n - 1));
      forall o | 0 <= o < 4 * n && o % 4 == 0
        ensures WordMoved(m, s, m2, d, o)
      {
        assert o < 4 * (n - 1) ==> WordMoved(m, s, m1, d, o);
      }
      forall a | !(d <= a < d + 4 * n)
        ensures At(m2, a) == At(m, a)
      {
        assert At(m1, a) == At(m, a);
      }
    }
  }

  /** How many words the device below moves when asked for n: entering at case 0 costs a whole round. */
  function DuffWords(n: nat): nat { if n == 0 then 8 else n }

  /** The interleaved switch and loop: the switch enters the first round of eight at the remainder,
      and mcn full rounds follow. It moves exactly n words if and only if n >= 1. */
  method MallocCopy(m0: Mem, dest: int, src: int, nbytes: nat) returns (m: Mem)
    ensures m == Copied(m0, dest, src, DuffWords(nbytes / 4))
  {
    var mctmp := nbytes / 4;
    var mcn;
    if mctmp < 8 {
      mcn := 0;
    } else {
      mcn := (mctmp - 1) / 8;
      mctmp := mctmp % 8;
    }
    var todo := if mctmp == 0 then 8 else mctmp;
    var done: nat := 0;
    m := m0;
    while true
      invariant todo >= 0 && mcn >= 0 && m == Copied(m0, dest, src, done)
      invariant done + todo + 8 * mcn == DuffWords(nbytes / 4)
      decreases mcn
    {
      ghost var end := done + todo;
      while todo > 0
        invariant todo >= 0 && done + todo == end && m == Copied(m0, dest, src, done)
      {
        m := m[dest + 4 * done := At(m, src + 4 * done)];
        done := done + 1;
        todo := todo - 1;
      }
      if mcn <= 0 {
        break;
      }
      mcn := mcn - 1;
      todo := 8;
    }
  }

  /** realloc's own copy: unrolled for up to nine words, of which there is always an odd number. */
  method CopyPayload(m0: Mem, d: int, s: int, copysize: nat) returns (m: Mem)
    requires copysize % 8 == 4 && copysize >= 12
    ensures m == Copied(m0, d, s, copysize / 4)
  {
    var ncopies := copysize / 4;
    if ncopies > 9 {
      m := MallocCopy(m0, d, s, copysize);
    } else {
      m := CopyWord(m0, d, s, 0);
      m := CopyWord(m, d, s, 1);
      m := CopyWord(m, d, s, 2);
      ThreeCopied(m0, d, s);
      if ncopies > 4 {
        m := CopyWord(m, d, s, 3);
        m := CopyWord(m, d, s, 4);
        MoreCopied(m0, d, s, 3);
        if ncopies > 6 {
          m := CopyWord(m, d, s, 5);
          m := CopyWord(m, d, s, 6);
          MoreCopied(m0, d, s, 5);
          if ncopies > 8 {
            m := CopyWord(m, d, s, 7);
            m := CopyWord(m, d, s, 8);
            MoreCopied(m0, d, s, 7);
          }
        }
      }
    }
  }

  /** *(d + i) = *(s + i) */
  function CopyWord(m: Mem, d: int, s: int, i: nat): Mem {
    m[d + 4 * i := At(m, s + 4 * i)]
  }

  lemma MoreCopied(m: Mem, d: int, s: int, n: nat)
    ensures Copied(m, d, s, n + 2) == CopyWord(CopyWord(Copied(m, d, s, n), d, s, n), d, s, n + 1)
  {
    assert Copied(m, d, s, n + 2) == CopyWord(Copied(m, d, s, n + 1), d, s, n + 1);
  }

  lemma ThreeCopied(m: Mem, d: int, s: int)
    ensures Copied(m, d, s, 3) == CopyWord(CopyWord(CopyWord(m, d, s, 0), d, s, 1), d, s, 2)
  {
    assert Copied(m, d, s, 1) == CopyWord(m, d, s, 0);
    MoreCopied(m, d, s, 1);
  }
}
