/** Circular doubly linked lists threaded through the words of memory.

    A list is a header h and the sequence s of its chunks in fd order;
    the links are the words at offsets 8 (fd) and 12 (bk) of each node. */
module Ring {
  import opened Memory

  ghost function Node(h: int, s: seq<int>, k: int): int {
    if 0 <= k < |s| then s[k] else h
  }

  ghost predicate Linked(m: Mem, x: int, y: int) {
    Fd(m, x) == y && Bk(m, y) == x
  }

  /** fd and bk are inverse walks over h, s[0], ..., s[|s|-1], h. */
  ghost predicate IsRing(m: Mem, h: int, s: seq<int>) {
    forall k {:trigger Node(h, s, k)} :: -1 <= k < |s| ==> Linked(m, Node(h, s, k), Node(h, s, k + 1))
  }

  /** Nodes that do not share words: distinct, and at least one chunk apart. */
  ghost predicate Spaced(h: int, s: seq<int>) {
    && (forall k :: 0 <= k < |s| ==> h + 16 <= s[k])
    && (forall j, k :: 0 <= j < k < |s| ==> s[j] + 16 <= s[k] || s[k] + 16 <= s[j])
  }

  ghost function Without(s: seq<int>, k: int): (t: seq<int>)
    requires 0 <= k < |s|
    ensures |t| == |s| - 1
  {
    s[..k] + s[k + 1..]
  }

  ghost function With(s: seq<int>, k: int, p: int): (t: seq<int>)
    requires 0 <= k <= |s|
    ensures |t| == |s| + 1
  {
    s[..k] + [p] + s[k..]
  }

  /** The two stores of the unlink macro. */
  function Unlinked(m: Mem, bck: int, fwd: int): Mem {
    m[fwd + 12 := bck][bck + 8 := fwd]
  }

  ghost predicate Apart(x: int, y: int) {
    x == y || x + 16 <= y || y + 16 <= x
  }

  lemma NodesApart(h: int, s: seq<int>, i: int, j: int)
    requires Spaced(h, s)
    ensures Apart(Node(h, s, i), Node(h, s, j))
    ensures 0 <= i < |s| && i != j ==> Node(h, s, i) != Node(h, s, j)
  {
  }

  lemma WithoutNode(h: int, s: seq<int>, k: int, j: int)
    requires 0 <= k < |s|
    ensures Node(h, Without(s, k), j) == Node(h, s, if j < k then j else j + 1)
  {
  }

  lemma EdgeKept(m: Mem, bck: int, fwd: int, x: int, y: int)
    requires Linked(m, x, y) && x != bck && y != fwd
    requires Apart(x, bck) && Apart(x, fwd) && Apart(y, bck) && Apart(y, fwd)
    ensures Linked(Unlinked(m, bck, fwd), x, y)
  {
  }

  lemma UnlinkEdge(m: Mem, h: int, s: seq<int>, k: int, i: int)
    requires Spaced(h, s) && 0 <= k < |s| && -1 <= i < |s| && i != k && i != k - 1
    requires Linked(m, Node(h, s, i), Node(h, s, i + 1))
    ensures Linked(Unlinked(m, Node(h, s, k - 1), Node(h, s, k + 1)), Node(h, s, i), Node(h, s, i + 1))
  {
    hide Spaced;
    NodesApart(h, s, i, k - 1);
    NodesApart(h, s, i, k + 1);
    NodesApart(h, s, i + 1, k - 1);
    NodesApart(h, s, i + 1, k + 1);
    NodesApart(h, s, k - 1, i);
    NodesApart(h, s, k + 1, i + 1);
    EdgeKept(m, Node(h, s, k - 1), Node(h, s, k + 1), Node(h, s, i), Node(h, s, i + 1));
  }

  lemma RingAt(m: Mem, h: int, s: seq<int>, k: int)
    requires IsRing(m, h, s) && 0 <= k < |s|
    ensures Fd(m, s[k]) == Node(h, s, k + 1) && Bk(m, s[k]) == Node(h, s, k - 1)
  {
    assert Linked(m, Node(h, s, k - 1), Node(h, s, k));
    assert Linked(m, Node(h, s, k), Node(h, s, k + 1));
  }

  lemma UnlinkRing(m: Mem, h: int, s: seq<int>, k: int)
    requires IsRing(m, h, s) && Spaced(h, s) && 0 <= k < |s|
    ensures Fd(m, s[k]) == Node(h, s, k + 1) && Bk(m, s[k]) == Node(h, s, k - 1)
    ensures IsRing(Unlinked(m, Bk(m, s[k]), Fd(m, s[k])), h, Without(s, k))
  {
    hide Spaced, Without, Unlinked, Linked, Node;
    RingAt(m, h, s, k);
    var bck, fwd := Node(h, s, k - 1), Node(h, s, k + 1);
    var m', t := Unlinked(m, bck, fwd), Without(s, k);
    forall j | -1 <= j < |t|
      ensures Linked(m', Node(h, t, j), Node(h, t, j + 1))
    {
      WithoutNode(h, s, k, j);
      WithoutNode(h, s, k, j + 1);
      if j == k - 1 {
        NodesApart(h, s, k - 1, k + 1);
        NewEdge(m, bck, fwd);
      } else {
        var i := if j < k then j else j + 1;
        assert Linked(m, Node(h, s, i), Node(h, s, i + 1));
        UnlinkEdge(m, h, s, k, i);
      }
    }
  }

  lemma NewEdge(m: Mem, bck: int, fwd: int)
    requires Apart(bck, fwd)
    ensures Linked(Unlinked(m, bck, fwd), bck, fwd)
  {
  }

  /** The four stores that put p between bck and fwd. */
  function Inserted(m: Mem, p: int, bck: int, fwd: int): Mem {
    m[p + 12 := bck][p + 8 := fwd][bck + 8 := p][fwd + 12 := p]
  }

  lemma WithNode(h: int, s: seq<int>, k: int, p: int, j: int)
    requires 0 <= k <= |s|
    ensures Node(h, With(s, k, p), k) == p
    ensures j != k ==> Node(h, With(s, k, p), j) == Node(h, s, if j < k then j else j - 1)
  {
  }

  lemma EdgeKeptByInsert(m: Mem, p: int, bck: int, fwd: int, x: int, y: int)
    requires Linked(m, x, y) && x != bck && y != fwd && x != p && y != p
    requires Apart(x, bck) && Apart(x, fwd) && Apart(y, bck) && Apart(y, fwd) && Apart(x, p) && Apart(y, p)
    ensures Linked(Inserted(m, p, bck, fwd), x, y)
  {
  }

  lemma NewEdges(m: Mem, p: int, bck: int, fwd: int)
    requires p != bck && p != fwd && Apart(p, bck) && Apart(p, fwd) && Apart(bck, fwd)
    ensures Linked(Inserted(m, p, bck, fwd), bck, p) && Linked(Inserted(m, p, bck, fwd), p, fwd)
  {
  }

  lemma InsertEdge(m: Mem, h: int, s: seq<int>, k: int, p: int, i: int)
    requires Spaced(h, s) && 0 <= k <= |s| && -1 <= i < |s| && i != k - 1
    requires forall j :: -1 <= j <= |s| ==> Apart(p, Node(h, s, j)) && p != Node(h, s, j)
    requires Linked(m, Node(h, s, i), Node(h, s, i + 1))
    ensures Linked(Inserted(m, p, Node(h, s, k - 1), Node(h, s, k)), Node(h, s, i), Node(h, s, i + 1))
  {
    hide Spaced, Inserted;
    NodesApart(h, s, i, k - 1);
    NodesApart(h, s, i, k);
    NodesApart(h, s, i + 1, k - 1);
    NodesApart(h, s, i + 1, k);
    NodesApart(h, s, k - 1, i);
    NodesApart(h, s, k, i + 1);
    assert Apart(p, Node(h, s, i)) && Apart(p, Node(h, s, i + 1));
    EdgeKeptByInsert(m, p, Node(h, s, k - 1), Node(h, s, k), Node(h, s, i), Node(h, s, i + 1));
  }

  lemma InsertRing(m: Mem, h: int, s: seq<int>, k: int, p: int)
    requires IsRing(m, h, s) && Spaced(h, s) && 0 <= k <= |s|
    requires forall j :: -1 <= j <= |s| ==> Apart(p, Node(h, s, j)) && p != Node(h, s, j)
    ensures IsRing(Inserted(m, p, Node(h, s, k - 1), Node(h, s, k)), h, With(s, k, p))
  {
    hide Spaced, With, Inserted, Linked, Node, Apart;
    var bck, fwd := Node(h, s, k - 1), Node(h, s, k);
    var m', t := Inserted(m, p, bck, fwd), With(s, k, p);
    assert Apart(p, bck) && Apart(p, fwd) && p != bck && p != fwd;
    NodesApart(h, s, k - 1, k);
    NewEdges(m, p, bck, fwd);
    forall j | -1 <= j < |t|
      ensures Linked(m', Node(h, t, j), Node(h, t, j + 1))
    {
      WithNode(h, s, k, p, j);
      WithNode(h, s, k, p, j + 1);
      if j != k - 1 && j != k {
        var i := if j < k then j else j - 1;
        assert Linked(m, Node(h, s, i), Node(h, s, i + 1));
        InsertEdge(m, h, s, k, p, i);
      }
    }
  }

  lemma FrameRing(m: Mem, m': Mem, h: int, s: seq<int>)
    requires IsRing(m, h, s)
    requires Fd(m', h) == Fd(m, h) && Bk(m', h) == Bk(m, h)
    requires forall k :: 0 <= k < |s| ==> Fd(m', s[k]) == Fd(m, s[k]) && Bk(m', s[k]) == Bk(m, s[k])
    ensures IsRing(m', h, s)
  {
    forall k | -1 <= k < |s|
      ensures Linked(m', Node(h, s, k), Node(h, s, k + 1))
    {
      assert Linked(m, Node(h, s, k), Node(h, s, k + 1));
    }
  }

  lemma {:induction false} SameNodes(m: Mem, h: int, s: seq<int>, t: seq<int>, k: int)
    requires IsRing(m, h, s) && IsRing(m, h, t) && -1 <= k <= |s| && k <= |t|
    ensures Node(h, s, k) == Node(h, t, k)
    decreases k
  {
    if k >= 0 {
      SameNodes(m, h, s, t, k - 1);
      assert Linked(m, Node(h, s, k - 1), Node(h, s, k)) && Linked(m, Node(h, t, k - 1), Node(h, t, k));
    }
  }

  /** Memory decides the list of a header. */
  lemma RingUnique(m: Mem, h: int, s: seq<int>, t: seq<int>)
    requires IsRing(m, h, s) && IsRing(m, h, t) && h !in s && h !in t
    ensures s == t
  {
    var n := if |s| < |t| then |s| else |t|;
    forall k | 0 <= k <= n
      ensures Node(h, s, k) == Node(h, t, k)
    {
      SameNodes(m, h, s, t, k);
    }
    assert Node(h, s, n) == Node(h, t, n);
    forall k | 0 <= k < n
      ensures s[k] == t[k]
    {
      assert Node(h, s, k) == Node(h, t, k);
    }
  }
}
