/** When the segment-wise checksum is the checksum of the flat bytes: exactly on the splits into pieces in which
    no lone byte meets a pending one. On every other split some contents are summed wrongly, and one byte that
    is not zero is enough to show it. */
module LoneBytes {
  import opened Segments
  import opened Checksum

  ghost predicate SameLengths(a: seq<seq<Byte>>, b: seq<seq<Byte>>) {
    |a| == |b| && forall i {:trigger a[i]} {:trigger b[i]} :: 0 <= i < |a| ==> |a[i]| == |b[i]|
  }

  lemma {:induction false} SameConcat(a: seq<seq<Byte>>, b: seq<seq<Byte>>, i: nat)
    requires SameLengths(a, b) && i <= |a|
    ensures |Concat(a[..i])| == |Concat(b[..i])|
  {
    if i > 0 {
      SameConcat(a, b, i - 1);
      ConcatNext(a, i - 1);
      ConcatNext(b, i - 1);
      assert |a[i - 1]| == |b[i - 1]|;
    }
  }

  lemma ConcatNext(a: seq<seq<Byte>>, i: nat)
    requires i < |a|
    ensures Concat(a[..i + 1]) == Concat(a[..i]) + a[i]
  {
    assert a[..i + 1][..i] == a[..i];
  }

  lemma StreamNext(a: seq<seq<Byte>>, i: nat)
    requires i < |a|
    ensures var s := Stream(a[..i]);
            Stream(a[..i + 1]) == if |a[i]| == 1 && Odd(s) then s + a[i] + [LastOf(s)] else s + a[i]
  {
    assert a[..i + 1][..i] == a[..i];
  }

  lemma LoneByLengths(a: seq<seq<Byte>>, b: seq<seq<Byte>>)
    requires SameLengths(a, b) && NoLoneByte(a)
    ensures NoLoneByte(b)
  {
    forall i {:trigger b[i]} | 0 <= i < |b| && |b[i]| == 1
      ensures !Odd(Concat(b[..i]))
    {
      SameConcat(a, b, i);
      assert |a[i]| == 1;
    }
  }

  // ---------------------------------------------------------------- all bytes zero but one

  /** n bytes, all zero except for a 1 at position pos, if there is one. */
  function Unit(n: nat, pos: int): (s: seq<Byte>)
    ensures |s| == n
  {
    seq(n, k => if k == pos then 1 else 0)
  }

  lemma {:induction false} ZeroPairs(value: int, n: nat)
    requires 0 <= value <= 0xffff
    ensures Pairs(value, Unit(n, -1)) == value
  {
    if n >= 2 {
      assert Unit(n, -1)[2..] == Unit(n - 2, -1);
      ZeroPairs(value, n - 2);
    }
  }

  lemma ZeroSum(value: int, n: nat)
    requires 0 <= value <= 0xffff
    ensures FlatSum(value, Unit(n, -1)) == value
  {
    ZeroPairs(value, n);
  }

  /** Leading zeros do not count, as long as they are whole words. */
  lemma SkipZeros(value: int, n: nat, rest: seq<Byte>)
    requires 0 <= value <= 0xffff && n % 2 == 0
    ensures FlatSum(value, Unit(n, -1) + rest) == FlatSum(value, rest)
  {
    var s := Unit(n, -1) + rest;
    PairsJoin(value, Unit(n, -1), rest);
    ZeroPairs(value, n);
    assert Odd(s) == Odd(rest);
    assert Odd(s) ==> LastOf(s) == LastOf(rest);
  }

  lemma WordThenZeros(value: int, hi: Byte, lo: Byte, n: nat)
    requires 0 <= value <= 0xffff
    ensures FlatSum(value, [hi, lo] + Unit(n, -1)) == Plus(value, Word(hi, lo))
  {
    var s := [hi, lo] + Unit(n, -1);
    assert s[2..] == Unit(n, -1);
    PlusMod(value, Word(hi, lo));
    ZeroSum(Plus(value, Word(hi, lo)), n);
    TailParity(s);
  }

  /** A single 1 counts as the high or the low byte of its word. */
  lemma UnitSum(value: int, n: nat, pos: nat)
    requires 0 <= value <= 0xffff && pos < n
    ensures FlatSum(value, Unit(n, pos)) == Plus(value, if pos % 2 == 0 then 0x100 else 1)
  {
    if pos % 2 == 1 {
      assert Unit(n, pos) == Unit(pos - 1, -1) + ([0, 1] + Unit(n - pos - 1, -1));
      SkipZeros(value, pos - 1, [0, 1] + Unit(n - pos - 1, -1));
      WordThenZeros(value, 0, 1, n - pos - 1);
    } else if pos + 1 < n {
      assert Unit(n, pos) == Unit(pos, -1) + ([1, 0] + Unit(n - pos - 2, -1));
      SkipZeros(value, pos, [1, 0] + Unit(n - pos - 2, -1));
      WordThenZeros(value, 1, 0, n - pos - 2);
    } else {
      assert Unit(n, pos) == Unit(pos, -1) + [1];
      SkipZeros(value, pos, [1]);
    }
  }

  /** The bytes of a flat sequence, cut into pieces as long as those given. */
  function Recut(pieces: seq<seq<Byte>>, flat: seq<Byte>): (other: seq<seq<Byte>>)
    requires |flat| == |Concat(pieces)|
    ensures |other| == |pieces|
  {
    if pieces == [] then []
    else
      var init := pieces[..|pieces| - 1];
      Recut(init, flat[..|Concat(init)|]) + [flat[|Concat(init)|..]]
  }

  lemma {:induction false} RecutIs(pieces: seq<seq<Byte>>, flat: seq<Byte>)
    requires |flat| == |Concat(pieces)|
    ensures SameLengths(pieces, Recut(pieces, flat)) && Concat(Recut(pieces, flat)) == flat
  {
    if pieces != [] {
      var n, init := |pieces| - 1, pieces[..|pieces| - 1];
      RecutIs(init, flat[..|Concat(init)|]);
      var a := Recut(init, flat[..|Concat(init)|]);
      assert (a + [flat[|Concat(init)|..]])[..n] == a;
      forall i {:trigger pieces[i]} | 0 <= i < n
        ensures |pieces[i]| == |a[i]|
      {
        assert init[i] == pieces[i];
      }
    }
  }

  // ---------------------------------------------------------------- the first lone byte

  /** Piece i is the first lone byte that meets a pending one. */
  ghost predicate FirstLone(pieces: seq<seq<Byte>>, i: nat) {
    i < |pieces| && |pieces[i]| == 1 && Odd(Concat(pieces[..i])) && NoLoneByte(pieces[..i])
  }

  lemma AtLone(pieces: seq<seq<Byte>>, i: nat)
    requires FirstLone(pieces, i)
    ensures i < |pieces| && |pieces[i]| == 1 && |Concat(pieces[..i])| % 2 == 1
  {
  }

  lemma {:induction false} HasFirstLone(pieces: seq<seq<Byte>>) returns (i: nat)
    requires !NoLoneByte(pieces)
    ensures FirstLone(pieces, i)
  {
    var init := pieces[..|pieces| - 1];
    NoLoneLast(pieces);
    if NoLoneByte(init) {
      i := |pieces| - 1;
    } else {
      i := HasFirstLone(init);
      assert init[..i] == pieces[..i];
    }
  }

  /** Up to the first lone byte the stream is flat; there the pending byte is repeated. */
  lemma StreamAtLone(pieces: seq<seq<Byte>>, i: nat)
    requires FirstLone(pieces, i)
    ensures var s := Concat(pieces[..i]);
            Stream(pieces[..i]) == s && Stream(pieces[..i + 1]) == s + pieces[i] + [LastOf(s)]
  {
    StreamIsFlat(pieces[..i]);
    StreamNext(pieces, i);
  }

  /** With the 1 right behind the lone byte, it is shifted by one place, from the high to the low byte of a word. */
  lemma {:induction false} ShiftedByOne(other: seq<seq<Byte>>, i: nat, j: nat)
    requires FirstLone(other, i) && i < j <= |other|
    requires var n := |Concat(other[..i])|; Concat(other) == Unit(|Concat(other)|, n + 1)
    ensures var n, s, c := |Concat(other[..i])|, Stream(other[..j]), |Concat(other[..j])|;
            && s == Unit(|s|, n + 2) && n + 1 <= c && n + 2 <= |s| && (n + 1 < c <==> n + 2 < |s|)
  {
    hide Stream, Concat, FirstLone, Unit, LastOf;
    var n := |Concat(other[..i])|;
    AtLone(other, i);
    if j == i + 1 {
      ShiftStart(other, i);
    } else {
      ShiftedByOne(other, i, j - 1);
      Behind(other, j - 1);
      ConcatNext(other, j - 1);
      StreamNext(other, j - 1);
      ShiftStep(Stream(other[..j - 1]), n, other[j - 1], |Concat(other[..j - 1])|, |Concat(other)|);
    }
  }

  lemma ShiftStart(other: seq<seq<Byte>>, i: nat)
    requires FirstLone(other, i)
    requires var n := |Concat(other[..i])|; Concat(other) == Unit(|Concat(other)|, n + 1)
    ensures var n := |Concat(other[..i])|;
      Stream(other[..i + 1]) == Unit(n + 2, n + 2) && |Concat(other[..i + 1])| == n + 1
  {
    hide Stream, Concat, FirstLone, Unit, LastOf;
    AtLone(other, i);
    ConcatNext(other, i);
    StreamAtLone(other, i);
    LeadingZeros(other, i, |Concat(other[..i])|);
  }

  /** Piece j is its part of the whole. */
  lemma {:induction false} Behind(other: seq<seq<Byte>>, j: nat)
    requires j < |other|
    ensures |Concat(other[..j])| + |other[j]| <= |Concat(other)|
    ensures Concat(other)[..|Concat(other[..j])|] == Concat(other[..j])
    ensures Concat(other)[|Concat(other[..j])|..|Concat(other[..j])| + |other[j]|] == other[j]
  {
    var m := |other| - 1;
    assert other[..m + 1] == other;
    ConcatNext(other, m);
    if j < m {
      var init := other[..m];
      assert init[..j] == other[..j] && init[j] == other[j];
      Behind(init, j);
      var a, c := |Concat(other[..j])|, |Concat(init)|;
      assert Concat(other)[..c] == Concat(init);
      assert Concat(other)[..a] == Concat(init)[..a];
      assert Concat(other)[a..a + |other[j]|] == Concat(init)[a..a + |other[j]|];
    }
  }

  lemma LeadingZeros(other: seq<seq<Byte>>, i: nat, n: nat)
    requires FirstLone(other, i) && n == |Concat(other[..i])| && Concat(other) == Unit(|Concat(other)|, n + 1)
    ensures var s := Concat(other[..i]); s + other[i] + [LastOf(s)] == Unit(n + 2, n + 2)
  {
    Behind(other, i);
    var s, all := Concat(other[..i]), Concat(other);
    forall k | 0 <= k < n
      ensures s[k] == 0
    {
      assert all[..n][k] == all[k];
    }
    assert all[n..n + 1][0] == all[n] == other[i][0];
  }

  lemma ShiftStep(s: seq<Byte>, n: nat, p: seq<Byte>, c: nat, size: nat)
    requires s == Unit(|s|, n + 2) && n % 2 == 1 && n + 1 <= c && n + 2 <= |s| && (n + 1 < c <==> n + 2 < |s|)
    requires c + |p| <= size && p == Unit(size, n + 1)[c..c + |p|]
    ensures var t := if |p| == 1 && Odd(s) then s + p + [LastOf(s)] else s + p;
            t == Unit(|t|, n + 2) && n + 2 <= |t| && (n + 1 < c + |p| <==> n + 2 < |t|)
  {
    assert forall k :: 0 <= k < |p| ==> p[k] == Unit(size, n + 1)[c + k];
    assert Odd(s) ==> LastOf(s) == 0;
  }

  /** If nothing follows the lone byte, the repeated byte is summed twice. */
  lemma {:induction false} RepeatedAtEnd(other: seq<seq<Byte>>, i: nat, j: nat)
    requires FirstLone(other, i) && i < j <= |other| && |Concat(other)| == |Concat(other[..i])| + 1
    ensures var s := Concat(other[..i]); Stream(other[..j]) == s + other[i] + [LastOf(s)]
  {
    hide Stream, Concat, FirstLone, LastOf;
    AtLone(other, i);
    if j == i + 1 {
      StreamAtLone(other, i);
    } else {
      RepeatedAtEnd(other, i, j - 1);
      Behind(other, j - 1);
      LaterLength(other, i + 1, j - 1);
      ConcatNext(other, i);
      StreamNext(other, j - 1);
      assert other[j - 1] == [];
    }
  }

  lemma {:induction false} LaterLength(a: seq<seq<Byte>>, i: nat, j: nat)
    requires i <= j <= |a|
    ensures |Concat(a[..i])| <= |Concat(a[..j])|
  {
    if i < j {
      LaterLength(a, i, j - 1);
      ConcatNext(a, j - 1);
    }
  }

  /** A split with a lone byte: contents that are summed wrongly. */
  lemma WrongContents(value: int, pieces: seq<seq<Byte>>) returns (other: seq<seq<Byte>>)
    requires 0 <= value <= 0xffff && !NoLoneByte(pieces)
    ensures SameLengths(pieces, other) && Finished(FedAll(State(value, []), other)) != FlatSum(value, Concat(other))
  {
    hide FlatSum, Stream, Concat, FedAll, NoLoneByte, Plus, Recut;
    var i := HasFirstLone(pieces);
    var n, size := |Concat(pieces[..i])|, |Concat(pieces)|;
    Behind(pieces, i);
    var pos := if size == n + 1 then n - 1 else n + 1;
    other := Recut(pieces, Unit(size, pos));
    RecutIs(pieces, Unit(size, pos));
    SameFirstLone(pieces, other, i);
    SumsTheStream(value, other);
    assert other[..|other|] == other;
    UnitSum(value, size, pos);
    if size == n + 1 {
      RepeatedAtEnd(other, i, |other|);
      SummedTwice(value, other, i);
    } else {
      ShiftedByOne(other, i, |other|);
      UnitSum(value, |Stream(other)|, n + 2);
    }
    PlusDiffers(value);
  }

  lemma PlusDiffers(value: int)
    requires 0 <= value <= 0xffff
    ensures Plus(value, 1) != Plus(value, 0x100) && Plus(Plus(value, 0x100), 0x100) != Plus(value, 0x100)
  {
  }

  lemma SameFirstLone(pieces: seq<seq<Byte>>, other: seq<seq<Byte>>, i: nat)
    requires SameLengths(pieces, other) && FirstLone(pieces, i)
    ensures FirstLone(other, i) && |Concat(other[..i])| == |Concat(pieces[..i])|
  {
    SameConcat(pieces, other, i);
    assert |pieces[i]| == |other[i]|;
    var a, b := pieces[..i], other[..i];
    forall k {:trigger a[k]} {:trigger b[k]} | 0 <= k < i
      ensures |a[k]| == |b[k]|
    {
      assert a[k] == pieces[k] && b[k] == other[k];
    }
    LoneByLengths(a, b);
  }

  lemma SummedTwice(value: int, other: seq<seq<Byte>>, i: nat)
    requires 0 <= value <= 0xffff && FirstLone(other, i)
    requires var n := |Concat(other[..i])|; Concat(other) == Unit(n + 1, n - 1)
    ensures var s := Concat(other[..i]); FlatSum(value, s + other[i] + [LastOf(s)]) == Plus(Plus(value, 0x100), 0x100)
  {
    var s, n, all := Concat(other[..i]), |Concat(other[..i])|, Concat(other);
    Behind(other, i);
    forall k | 0 <= k < n
      ensures s[k] == Unit(n + 1, n - 1)[k]
    {
      assert all[..n][k] == all[k];
    }
    assert all[n..n + 1][0] == all[n] == other[i][0];
    assert s + other[i] + [LastOf(s)] == Unit(n - 1, -1) + [1, 0, 1];
    SkipZeros(value, n - 1, [1, 0, 1]);
    ThreeAtEnd(value);
  }

  lemma ThreeAtEnd(value: int)
    ensures FlatSum(value, [1, 0, 1]) == Plus(Plus(value, 0x100), 0x100)
  {
    var s: seq<Byte> := [1, 0, 1];
    assert s[2..] == [1] && LastOf(s) == 1;
    assert Pairs(value, s) == Pairs(Plus(value, Word(1, 0)), [1]) == Plus(value, 0x100);
  }

  /** The segment-wise checksum is the flat one for all contents of a split exactly if the split has no lone byte. */
  lemma FlatForAllContents(value: int, pieces: seq<seq<Byte>>)
    requires 0 <= value <= 0xffff
    ensures NoLoneByte(pieces) <==> forall other: seq<seq<Byte>> :: SameLengths(pieces, other) ==>
              Finished(FedAll(State(value, []), other)) == FlatSum(value, Concat(other))
  {
    hide FlatSum, Stream, Concat, FedAll, NoLoneByte, Finished, SameLengths;
    if NoLoneByte(pieces) {
      forall other: seq<seq<Byte>> | SameLengths(pieces, other)
        ensures Finished(FedAll(State(value, []), other)) == FlatSum(value, Concat(other))
      {
        LoneByLengths(pieces, other);
        ChecksumIsFlat(value, other);
      }
    } else {
      var other := WrongContents(value, pieces);
    }
  }
}
