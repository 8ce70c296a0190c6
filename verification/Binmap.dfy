/** The bitmap of bins that may be non-empty, as unsigned 32-bit words.

    idx2bit(i) is a power of two, so `map & bit`, `map | bit` and `map & ~bit` are
    Masked, Marked and Unmarked below. */
module Binmap {
  import opened BinIndex

  const BINMAPSIZE := 3

  function Idx2Block(i: nat): nat { i / 32 }
  function Idx2Bit(i: nat): nat { Pow2(i % 32) }

  function Marked(map_: nat, bit: nat): nat
    requires bit > 0
  {
    map_ + bit - Masked(map_, bit)
  }

  function Unmarked(map_: nat, bit: nat): nat
    requires bit > 0
  {
    MaskedAtMost(map_, bit);
    map_ - Masked(map_, bit)
  }

  lemma MaskedAtMost(w: nat, bit: nat)
    requires bit > 0
    ensures Masked(w, bit) <= w
  {
    assert w == bit * (w / bit) + w % bit;
    if w / bit > 0 {
      MulLe(1, w / bit, bit);
    }
  }

  // ---------------------------------------------------------------- bits of a word

  ghost predicate Bit(w: nat, j: nat) {
    if j == 0 then w % 2 == 1 else Bit(w / 2, j - 1)
  }

  lemma {:induction false} MaskedIsBit(w: nat, j: nat)
    ensures Masked(w, Pow2(j)) == if Bit(w, j) then Pow2(j) else 0
  {
    if j > 0 {
      MaskedIsBit(w / 2, j - 1);
      HalfDiv(w, Pow2(j - 1));
    }
  }

  lemma HalfDiv(w: nat, q: nat)
    requires q > 0
    ensures w / (2 * q) == w / 2 / q
  {
    var d := w / 2 / q;
    assert w / 2 == q * d + w / 2 % q;
    assert w == 2 * (w / 2) + w % 2;
    assert w == (2 * q) * d + (2 * (w / 2 % q) + w % 2);
    DivBounds(w, 2 * q, d);
  }

  lemma {:induction false} BitSet(w: nat, k: nat, j: nat)
    requires !Bit(w, k)
    ensures Bit(w + Pow2(k), j) <==> Bit(w, j) || j == k
  {
    if k > 0 && j > 0 {
      BitSet(w / 2, k - 1, j - 1);
      assert (w + Pow2(k)) / 2 == w / 2 + Pow2(k - 1);
    } else if k == 0 && j > 0 {
      assert (w + 1) / 2 == w / 2;
    }
  }

  lemma {:induction false} BitCleared(w: nat, k: nat, j: nat)
    requires Bit(w, k)
    ensures w >= Pow2(k) && (Bit(w - Pow2(k), j) <==> Bit(w, j) && j != k)
  {
    if k > 0 {
      BitCleared(w / 2, k - 1, if j > 0 then j - 1 else 0);
      assert j > 0 ==> (w - Pow2(k)) / 2 == w / 2 - Pow2(k - 1);
    } else if j > 0 {
      assert (w - 1) / 2 == w / 2;
    }
  }

  /** bit > map: nothing is set at or above the bit. */
  lemma {:induction false} NoneAbove(w: nat, k: nat, j: nat)
    requires w < Pow2(k) && k <= j
    ensures !Bit(w, j)
  {
    if j > 0 {
      NoneAbove(w / 2, if k > 0 then k - 1 else 0, j - 1);
    }
  }

  /** bit <= map: the search upwards from the bit meets a set one. */
  lemma {:induction false} SomeAbove(w: nat, k: nat, n: nat) returns (j: nat)
    requires Pow2(k) <= w < Pow2(n)
    ensures k <= j < n && Bit(w, j)
    decreases n
  {
    if w % 2 == 1 && k == 0 && w == 1 {
      j := 0;
    } else if k > 0 {
      j := SomeAbove(w / 2, k - 1, n - 1);
      j := j + 1;
    } else {
      j := SomeAbove(w / 2, 0, n - 1);
      j := j + 1;
    }
  }

  lemma Pow2Word()
    ensures Pow2(32) == WORD
  {
    Pow2Table(10);
    Pow2Six(16);
    Pow2Six(22);
    assert Pow2(32) == 16 * Pow2(28);
  }

  lemma {:induction false} SetBelow(w: nat, k: nat, n: nat)
    requires w < Pow2(n) && k < n && !Bit(w, k)
    ensures w + Pow2(k) < Pow2(n)
  {
    if k > 0 {
      SetBelow(w / 2, k - 1, n - 1);
    } else {
      assert Pow2(n) == 2 * Pow2(n - 1);
    }
  }

  lemma MarkedWord(w: nat, k: nat, j: nat)
    requires w < WORD && k < 32
    ensures Marked(w, Pow2(k)) < WORD
    ensures Bit(Marked(w, Pow2(k)), j) <==> Bit(w, j) || j == k
  {
    MaskedIsBit(w, k);
    Pow2Word();
    if !Bit(w, k) {
      BitSet(w, k, j);
      SetBelow(w, k, 32);
    }
  }

  lemma UnmarkedWord(w: nat, k: nat, j: nat)
    ensures 0 <= Unmarked(w, Pow2(k)) <= w
    ensures Bit(Unmarked(w, Pow2(k)), j) <==> Bit(w, j) && j != k
  {
    MaskedIsBit(w, k);
    if Bit(w, k) {
      BitCleared(w, k, j);
    }
  }

  // ---------------------------------------------------------------- marks

  ghost predicate IsMarked(binmap: seq<nat>, i: nat) {
    i / 32 < |binmap| && Bit(binmap[i / 32], i % 32)
  }

  ghost predicate WordsOk(binmap: seq<nat>) {
    |binmap| == BINMAPSIZE + 1 && (forall b :: 0 <= b < |binmap| ==> binmap[b] < WORD) && binmap[BINMAPSIZE] == 0
  }

  function MarkBin(binmap: seq<nat>, i: nat): seq<nat>
    requires i / 32 < |binmap|
  {
    binmap[i / 32 := Marked(binmap[i / 32], Idx2Bit(i))]
  }

  lemma MarkBinMarks(binmap: seq<nat>, i: nat)
    requires WordsOk(binmap) && i < 96
    ensures WordsOk(MarkBin(binmap, i))
    ensures forall j :: IsMarked(MarkBin(binmap, i), j) <==> IsMarked(binmap, j) || j == i
  {
    var w, k := binmap[i / 32], i % 32;
    MarkedWord(w, k, 0);
    forall j: nat
      ensures IsMarked(MarkBin(binmap, i), j) <==> IsMarked(binmap, j) || j == i
    {
      MarkedWord(w, k, j % 32);
      hide Bit, Marked;
    }
  }

  function UnmarkBin(binmap: seq<nat>, i: nat): seq<nat>
    requires i / 32 < |binmap|
  {
    binmap[i / 32 := Unmarked(binmap[i / 32], Idx2Bit(i))]
  }

  lemma UnmarkBinUnmarks(binmap: seq<nat>, i: nat)
    requires WordsOk(binmap) && i < 96
    ensures WordsOk(UnmarkBin(binmap, i))
    ensures forall j :: IsMarked(UnmarkBin(binmap, i), j) <==> IsMarked(binmap, j) && j != i
  {
    var w, k := binmap[i / 32], i % 32;
    UnmarkedWord(w, k, 0);
    forall j: nat
      ensures IsMarked(UnmarkBin(binmap, i), j) <==> IsMarked(binmap, j) && j != i
    {
      UnmarkedWord(w, k, j % 32);
      hide Bit, Unmarked;
    }
  }
}
