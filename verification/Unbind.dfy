/** Unbinding a device tree: an explicit chain of contexts, driven by acknowledgements, does what a
    recursive post-order walk would do; and every context is freed once, after its last use. */
module Unbind {
  /** What the management agent and the drivers see. */
  datatype Event =
    | SendUnbind(node: int)
    | SendCleanup(node: int)
    | DestroyRegion(node: int, region: int)
    | RemoveNode(node: int)
    | RunCallback

  /** A device node: its child list, its region list, and whether a driver is bound to it. */
  datatype Node = Node(children: seq<int>, regions: seq<int>, bound: bool)

  /** The tree that the nodes form. */
  datatype Tree = Tree(id: int, regions: seq<int>, bound: bool, kids: Forest)
  datatype Forest = Nil | Cons(head: Tree, tail: Forest)

  // ---------------------------------------------------------------- the recursive walk

  function Destroys(n: int, regions: seq<int>, after: seq<Event>): seq<Event> {
    if regions == [] then after else [DestroyRegion(n, regions[0])] + Destroys(n, regions[1..], after)
  }

  /** What a node's own driver goes through, and what comes after. */
  function Own(t: Tree, after: seq<Event>): seq<Event> {
    if t.bound then [SendUnbind(t.id)] + ([SendCleanup(t.id)] + Destroys(t.id, t.regions, after)) else after
  }

  /** All children first, each unbound and then removed; then the node itself. */
  function Walk(t: Tree, after: seq<Event>): seq<Event>
    decreases t
  {
    WalkAll(t.kids, Own(t, after))
  }

  function WalkAll(f: Forest, after: seq<Event>): seq<Event>
    decreases f
  {
    match f
    case Nil => after
    case Cons(t, rest) => Walk(t, [RemoveNode(t.id)] + WalkAll(rest, after))
  }

  /** The root is removed too if it has no parent; then the caller is told. */
  function End(id: int, orphan: bool): seq<Event> {
    (if orphan then [RemoveNode(id)] else []) + [RunCallback]
  }

  function WholeWalk(t: Tree, orphan: bool): seq<Event> {
    Walk(t, End(t.id, orphan))
  }

  // ---------------------------------------------------------------- the leftmost path

  /** The contexts stand for the path of first children, d long. */
  ghost predicate Deep(t: Tree, d: nat) {
    d == 0 || (t.kids.Cons? && Deep(t.kids.head, d - 1))
  }

  ghost function LeftDepth(t: Tree): nat {
    if t.kids.Cons? then 1 + LeftDepth(t.kids.head) else 0
  }

  lemma {:induction false} DeepBound(t: Tree, d: nat)
    requires Deep(t, d)
    ensures d <= LeftDepth(t)
  {
    if d > 0 {
      DeepBound(t.kids.head, d - 1);
    }
  }

  ghost function Top(t: Tree, d: nat): Tree
    requires Deep(t, d)
  {
    if d == 0 then t else Top(t.kids.head, d - 1)
  }

  ghost function WithTop(t: Tree, d: nat, s: Tree): Tree
    requires Deep(t, d)
  {
    if d == 0 then s else t.(kids := t.kids.(head := WithTop(t.kids.head, d - 1, s)))
  }

  /** What happens in t once the node at the end of the path is done. */
  ghost function Rest(t: Tree, d: nat, after: seq<Event>): seq<Event>
    requires Deep(t, d)
  {
    if d == 0 then after
    else Rest(t.kids.head, d - 1, [RemoveNode(t.kids.head.id)] + WalkAll(t.kids.tail, Own(t, after)))
  }

  lemma {:induction false} TopDeeper(t: Tree, d: nat, after: seq<Event>)
    requires Deep(t, d) && Top(t, d).kids.Cons?
    ensures var p := Top(t, d);
            && Deep(t, d + 1) && Top(t, d + 1) == p.kids.head
            && Rest(t, d + 1, after) == [RemoveNode(p.kids.head.id)] + WalkAll(p.kids.tail, Own(p, Rest(t, d, after)))
  {
    if d > 0 {
      TopDeeper(t.kids.head, d - 1, [RemoveNode(t.kids.head.id)] + WalkAll(t.kids.tail, Own(t, after)));
    }
  }

  lemma {:induction false} DeepPrefix(t: Tree, d: nat)
    requires Deep(t, d + 1)
    ensures Deep(t, d) && Top(t, d).kids.Cons? && Top(t, d + 1) == Top(t, d).kids.head
  {
    if d > 0 {
      DeepPrefix(t.kids.head, d - 1);
    }
  }

  lemma {:induction false} WithTopIs(t: Tree, d: nat, s: Tree, after: seq<Event>)
    requires Deep(t, d) && s.id == Top(t, d).id
    ensures Deep(WithTop(t, d, s), d) && Top(WithTop(t, d, s), d) == s && WithTop(t, d, s).id == t.id
    ensures Rest(WithTop(t, d, s), d, after) == Rest(t, d, after)
  {
    if d > 0 {
      WithTopIs(t.kids.head, d - 1, s, [RemoveNode(t.kids.head.id)] + WalkAll(t.kids.tail, Own(t, after)));
    }
  }

  // ---------------------------------------------------------------- nodes and trees

  function KidIds(f: Forest): seq<int> {
    match f
    case Nil => []
    case Cons(t, rest) => [t.id] + KidIds(rest)
  }

  ghost function Ids(t: Tree): set<int> { {t.id} + IdsOf(t.kids) }

  ghost function IdsOf(f: Forest): set<int> {
    match f
    case Nil => {}
    case Cons(t, rest) => Ids(t) + IdsOf(rest)
  }

  ghost predicate Unique(t: Tree) { t.id !in IdsOf(t.kids) && UniqueAll(t.kids) }

  ghost predicate UniqueAll(f: Forest) {
    match f
    case Nil => true
    case Cons(t, rest) => Unique(t) && UniqueAll(rest) && Ids(t) !! IdsOf(rest)
  }

  /** The nodes in memory form this tree. */
  ghost predicate Shape(nodes: map<int, Node>, t: Tree) {
    t.id in nodes && nodes[t.id] == Node(KidIds(t.kids), t.regions, t.bound) && ShapeAll(nodes, t.kids)
  }

  ghost predicate ShapeAll(nodes: map<int, Node>, f: Forest) {
    match f
    case Nil => true
    case Cons(t, rest) => Shape(nodes, t) && ShapeAll(nodes, rest)
  }

  ghost predicate SameOn(nodes: map<int, Node>, nodes': map<int, Node>, ids: set<int>) {
    forall n :: n in ids && n in nodes ==> n in nodes' && nodes'[n] == nodes[n]
  }

  lemma {:induction false} ShapeKept(nodes: map<int, Node>, nodes': map<int, Node>, t: Tree)
    requires Shape(nodes, t) && SameOn(nodes, nodes', Ids(t))
    ensures Shape(nodes', t)
    decreases t
  {
    ShapeAllKept(nodes, nodes', t.kids);
  }

  lemma {:induction false} ShapeAllKept(nodes: map<int, Node>, nodes': map<int, Node>, f: Forest)
    requires ShapeAll(nodes, f) && SameOn(nodes, nodes', IdsOf(f))
    ensures ShapeAll(nodes', f)
    decreases f
  {
    match f
    case Nil =>
    case Cons(t, rest) =>
      ShapeKept(nodes, nodes', t);
      ShapeAllKept(nodes, nodes', rest);
  }

  lemma {:induction false} TopFacts(nodes: map<int, Node>, t: Tree, d: nat)
    requires Deep(t, d) && Unique(t) && Shape(nodes, t)
    ensures Unique(Top(t, d)) && Shape(nodes, Top(t, d)) && Ids(Top(t, d)) <= Ids(t)
    ensures d > 0 ==> t.id !in Ids(Top(t, d))
  {
    if d > 0 {
      TopFacts(nodes, t.kids.head, d - 1);
    }
  }

  /** Changing the node at the end of the path, and nothing outside its subtree, changes the tree there. */
  lemma {:induction false} ShapeWithTop(nodes: map<int, Node>, nodes': map<int, Node>, t: Tree, d: nat, s: Tree)
    requires Deep(t, d) && Unique(t) && Shape(nodes, t)
    requires var p := Top(t, d);
             s.id == p.id && Unique(s) && Ids(s) <= Ids(p) && Shape(nodes', s) && SameOn(nodes, nodes', Ids(t) - Ids(p))
    ensures var t' := WithTop(t, d, s); Unique(t') && Shape(nodes', t') && Ids(t') <= Ids(t)
  {
    if d > 0 {
      var k := t.kids.head;
      TopFacts(nodes, k, d - 1);
      ShapeWithTop(nodes, nodes', k, d - 1, s);
      WithTopIs(k, d - 1, s, []);
      ShapeAllKept(nodes, nodes', t.kids.tail);
    }
  }

  /** The node ids along the path. */
  ghost function Path(t: Tree, d: nat): seq<int>
    requires Deep(t, d)
  {
    [t.id] + if d == 0 then [] else Path(t.kids.head, d - 1)
  }

  lemma {:induction false} PathFacts(t: Tree, d: nat)
    requires Deep(t, d)
    ensures |Path(t, d)| == d + 1 && Path(t, d)[d] == Top(t, d).id && Path(t, d)[0] == t.id
  {
    if d > 0 {
      PathFacts(t.kids.head, d - 1);
    }
  }

  lemma {:induction false} PathDeeper(t: Tree, d: nat)
    requires Deep(t, d + 1)
    ensures Deep(t, d) && Path(t, d + 1) == Path(t, d) + [Top(t, d + 1).id]
  {
    if d > 0 {
      PathDeeper(t.kids.head, d - 1);
    }
  }

  lemma {:induction false} PathWithTop(t: Tree, d: nat, s: Tree)
    requires Deep(t, d) && s.id == Top(t, d).id
    ensures Deep(WithTop(t, d, s), d) && Path(WithTop(t, d, s), d) == Path(t, d)
  {
    if d > 0 {
      PathWithTop(t.kids.head, d - 1, s);
    }
  }

  lemma {:induction false} IdsWithTop(t: Tree, d: nat, s: Tree)
    requires Deep(t, d) && Unique(t) && s.id == Top(t, d).id && Ids(s) <= Ids(Top(t, d))
    ensures Ids(WithTop(t, d, s)) == Ids(t) - (Ids(Top(t, d)) - Ids(s))
  {
    if d > 0 {
      IdsWithTop(t.kids.head, d - 1, s);
      TopIn(t.kids.head, d - 1);
    }
  }

  lemma {:induction false} TopIn(t: Tree, d: nat)
    requires Deep(t, d)
    ensures Ids(Top(t, d)) <= Ids(t) && t.id in Ids(t)
  {
    if d > 0 {
      TopIn(t.kids.head, d - 1);
    }
  }

  // ---------------------------------------------------------------- the memory of contexts

  /** What is done with a context; contexts are numbered in the order of their allocation. */
  datatype Access = Alloc(c: int) | Use(c: int) | Free(c: int)

  datatype Life = Unknown | Held | Freed | Misused

  /** Misused: allocated again, or used or freed before it is allocated or after it is freed. */
  function LifeOf(trace: seq<Access>, c: int): Life {
    if trace == [] then Unknown
    else
      var life, a := LifeOf(trace[..|trace| - 1], c), trace[|trace| - 1];
      if a.c != c then life
      else match a
        case Alloc(_) => if life == Unknown then Held else Misused
        case Use(_) => if life == Held then Held else Misused
        case Free(_) => if life == Held then Freed else Misused
  }

  /** Of the contexts 0 to made - 1 exactly those in held are still to be freed; none has been misused. */
  ghost predicate Accounted(held: multiset<int>, made: int, trace: seq<Access>) {
    && (forall c :: c in held ==> 0 <= c < made && held[c] == 1)
    && forall c :: LifeOf(trace, c) == if c in held then Held else if 0 <= c < made then Freed else Unknown
  }

  lemma OneMore(trace: seq<Access>, a: Access, c: int)
    ensures c != a.c ==> LifeOf(trace + [a], c) == LifeOf(trace, c)
    ensures a.Alloc? && LifeOf(trace, a.c) == Unknown ==> LifeOf(trace + [a], a.c) == Held
    ensures a.Use? && LifeOf(trace, a.c) == Held ==> LifeOf(trace + [a], a.c) == Held
    ensures a.Free? && LifeOf(trace, a.c) == Held ==> LifeOf(trace + [a], a.c) == Freed
  {
    assert (trace + [a])[..|trace|] == trace;
  }

  lemma Allocates(held: multiset<int>, made: int, trace: seq<Access>)
    requires Accounted(held, made, trace) && 0 <= made
    ensures Accounted(held + multiset{made}, made + 1, trace + [Alloc(made)])
  {
    hide LifeOf;
    forall c
      ensures LifeOf(trace + [Alloc(made)], c) == if c == made then Held else LifeOf(trace, c)
    {
      OneMore(trace, Alloc(made), c);
    }
  }

  lemma Uses(held: multiset<int>, made: int, trace: seq<Access>, c: int)
    requires Accounted(held, made, trace) && c in held
    ensures Accounted(held, made, trace + [Use(c)])
  {
    hide LifeOf;
    forall x
      ensures LifeOf(trace + [Use(c)], x) == LifeOf(trace, x)
    {
      OneMore(trace, Use(c), x);
    }
  }

  lemma Frees(held: multiset<int>, made: int, trace: seq<Access>, c: int)
    requires Accounted(held, made, trace) && c in held
    ensures Accounted(held - multiset{c}, made, trace + [Free(c)])
  {
    hide LifeOf;
    forall x
      ensures LifeOf(trace + [Free(c)], x) == if x == c then Freed else LifeOf(trace, x)
    {
      OneMore(trace, Free(c), x);
    }
  }

  lemma FirstContext()
    ensures Accounted(multiset([0] + []), 1, [Alloc(0)])
  {
    var one, none: seq<int> := [0], [];
    assert one + none == [0];
    assert multiset([0]) == multiset{0};
    assert [Alloc(0)][..0] == [];
    assert LifeOf([], 0) == Unknown && LifeOf([Alloc(0)], 0) == Held;
  }

  /** A context that was held and never misused: one allocation, and every later access is a use. */
  lemma {:induction false} HeldSince(trace: seq<Access>, c: int) returns (i: int)
    requires LifeOf(trace, c) == Held
    ensures 0 <= i < |trace| && trace[i] == Alloc(c)
    ensures forall k :: 0 <= k < |trace| && k != i && trace[k].c == c ==> i < k && trace[k].Use?
  {
    var n := |trace| - 1;
    if trace[n] == Alloc(c) {
      NeverSeen(trace[..n], c);
      i := n;
    } else {
      i := HeldSince(trace[..n], c);
    }
    assert forall k :: 0 <= k < n ==> trace[..n][k] == trace[k];
  }

  lemma {:induction false} NeverSeen(trace: seq<Access>, c: int)
    requires LifeOf(trace, c) == Unknown
    ensures forall k :: 0 <= k < |trace| ==> trace[k].c != c
  {
    if trace != [] {
      var n := |trace| - 1;
      NeverSeen(trace[..n], c);
      assert forall k :: 0 <= k < n ==> trace[..n][k] == trace[k];
    }
  }

  /** A context whose life is over was allocated once, freed once, and not touched before or after. */
  lemma {:induction false} FreedOnce(trace: seq<Access>, c: int) returns (i: int, j: int)
    requires LifeOf(trace, c) == Freed
    ensures 0 <= i < j < |trace| && trace[i] == Alloc(c) && trace[j] == Free(c)
    ensures forall k :: 0 <= k < |trace| && k != i && k != j && trace[k].c == c ==> i < k < j && trace[k].Use?
  {
    var n := |trace| - 1;
    if trace[n] == Free(c) {
      i := HeldSince(trace[..n], c);
      j := n;
    } else {
      i, j := FreedOnce(trace[..n], c);
    }
    assert forall k :: 0 <= k < n ==> trace[..n][k] == trace[k];
  }

  // ---------------------------------------------------------------- the machine

  /** Which of the functions _udi_unbind1 to 6 runs next, or which acknowledgement is awaited. */
  datatype Pc = P1 | P2 | AwaitUnbindAck | AwaitCleanupAck | P5 | P6 | Done

  /** The events of the active node from here on, and what comes after. */
  ghost function Now(t: Tree, pc: Pc, after: seq<Event>): seq<Event> {
    match pc
    case P1 => Walk(t, after)
    case P2 => Own(t, after)
    case AwaitUnbindAck => [SendCleanup(t.id)] + Destroys(t.id, t.regions, after)
    case AwaitCleanupAck => Destroys(t.id, t.regions, after)
    case P5 => Destroys(t.id, t.regions, after)
    case P6 => after
    case Done => []
  }

  ghost function Future(t: Tree, d: nat, pc: Pc, orphan: bool): seq<Event>
    requires Deep(t, d)
  {
    Now(Top(t, d), pc, Rest(t, d, End(t.id, orphan)))
  }

  ghost function Rank(pc: Pc): nat {
    match pc
    case P1 => 6
    case P2 => 5
    case AwaitUnbindAck => 4
    case AwaitCleanupAck => 3
    case P5 => 2
    case P6 => 1
    case Done => 0
  }

  /** Nodes past their first step are off the list of unbound nodes. */
  ghost predicate Delisted(contexts: seq<int>, pc: Pc, unbound: set<int>) {
    forall i {:trigger contexts[i]} :: 0 <= i < |contexts| - (if pc == P1 then 1 else 0) ==> contexts[i] !in unbound
  }

  /** The nodes form the tree, and the contexts stand for the path to its active node. */
  ghost predicate Standing(nodes: map<int, Node>, unbound: set<int>, contexts: seq<int>, pc: Pc, t: Tree) {
    pc != Done ==>
      && contexts != [] && Deep(t, |contexts| - 1) && Unique(t) && Shape(nodes, t)
      && contexts == Path(t, |contexts| - 1) && Delisted(contexts, pc, unbound)
      && (pc != P1 ==> Top(t, |contexts| - 1).kids == Nil)
      && (pc == AwaitUnbindAck ==> Top(t, |contexts| - 1).bound)
  }

  ghost function Remaining(contexts: seq<int>, pc: Pc, t: Tree, orphan: bool): seq<Event> {
    if pc == Done || contexts == [] || !Deep(t, |contexts| - 1) then [] else Future(t, |contexts| - 1, pc, orphan)
  }

  lemma StepsDown(nodes: map<int, Node>, unbound: set<int>, contexts: seq<int>, t: Tree, orphan: bool)
    requires Standing(nodes, unbound, contexts, P1, t)
    ensures contexts != [] && contexts[0] == t.id && contexts[|contexts| - 1] in nodes
      && contexts[|contexts| - 1] in Ids(t)
    ensures var n := contexts[|contexts| - 1];
            if nodes[n].children == [] then
              Standing(nodes, unbound - {n}, contexts, P2, t)
                && Remaining(contexts, P2, t, orphan) == Remaining(contexts, P1, t, orphan)
            else
              var deeper := contexts + [nodes[n].children[0]];
              && Standing(nodes, unbound - {n}, deeper, P1, t) && |contexts| <= LeftDepth(t)
              && Remaining(deeper, P1, t, orphan) == Remaining(contexts, P1, t, orphan)
  {
    hide Standing, Remaining, Ids, LeftDepth;
    ActiveNode(nodes, unbound, contexts, t);
    if nodes[contexts[|contexts| - 1]].children == [] {
      AtLeaf(nodes, unbound, contexts, t, orphan);
    } else {
      ToChild(nodes, unbound, contexts, t, orphan);
    }
  }

  lemma ActiveNode(nodes: map<int, Node>, unbound: set<int>, contexts: seq<int>, t: Tree)
    requires Standing(nodes, unbound, contexts, P1, t)
    ensures contexts != [] && contexts[0] == t.id && contexts[|contexts| - 1] in nodes
      && contexts[|contexts| - 1] in Ids(t)
    ensures Deep(t, |contexts| - 1) && contexts[|contexts| - 1] == Top(t, |contexts| - 1).id
    ensures nodes[contexts[|contexts| - 1]].children == KidIds(Top(t, |contexts| - 1).kids)
  {
    hide Unique, ShapeAll, Path, Delisted;
    PathFacts(t, |contexts| - 1);
    TopFacts(nodes, t, |contexts| - 1);
  }

  lemma AtLeaf(nodes: map<int, Node>, unbound: set<int>, contexts: seq<int>, t: Tree, orphan: bool)
    requires Standing(nodes, unbound, contexts, P1, t) && contexts != [] && Deep(t, |contexts| - 1)
    requires KidIds(Top(t, |contexts| - 1).kids) == []
    ensures Standing(nodes, unbound - {contexts[|contexts| - 1]}, contexts, P2, t)
    ensures Remaining(contexts, P2, t, orphan) == Remaining(contexts, P1, t, orphan)
  {
    hide Unique, Shape, Rest, Path, End, Own, Deep, Top;
    var p := Top(t, |contexts| - 1);
    NoKids(p.kids);
    WalkNil(Own(p, Rest(t, |contexts| - 1, End(t.id, orphan))));
  }

  lemma ToChild(nodes: map<int, Node>, unbound: set<int>, contexts: seq<int>, t: Tree, orphan: bool)
    requires Standing(nodes, unbound, contexts, P1, t) && contexts != [] && Deep(t, |contexts| - 1)
    requires KidIds(Top(t, |contexts| - 1).kids) != []
    ensures var deeper := contexts + [KidIds(Top(t, |contexts| - 1).kids)[0]];
            && Standing(nodes, unbound - {contexts[|contexts| - 1]}, deeper, P1, t) && |contexts| <= LeftDepth(t)
            && Remaining(deeper, P1, t, orphan) == Remaining(contexts, P1, t, orphan)
  {
    hide Unique, Shape, Rest, Path, End, Own, Deep, Top, LeftDepth, WalkAll;
    var d, p := |contexts| - 1, Top(t, |contexts| - 1);
    HasKids(p.kids);
    TopDeeper(t, d, End(t.id, orphan));
    PathDeeper(t, d);
    DeepBound(t, d + 1);
    WalkKids(p.kids, Own(p, Rest(t, d, End(t.id, orphan))));
  }

  lemma Asked(nodes: map<int, Node>, unbound: set<int>, contexts: seq<int>, t: Tree, orphan: bool)
    requires Standing(nodes, unbound, contexts, P2, t)
    ensures contexts != [] && contexts[|contexts| - 1] in nodes
    ensures var n := contexts[|contexts| - 1];
            if nodes[n].bound then
              && Standing(nodes, unbound, contexts, AwaitUnbindAck, t)
              && Remaining(contexts, P2, t, orphan) == [SendUnbind(n)] + Remaining(contexts, AwaitUnbindAck, t, orphan)
            else
              && Standing(nodes, unbound, contexts, P6, t)
              && Remaining(contexts, P6, t, orphan) == Remaining(contexts, P2, t, orphan)
  {
    hide Unique, ShapeAll, Rest, Path, End;
    PathFacts(t, |contexts| - 1);
    TopFacts(nodes, t, |contexts| - 1);
  }

  lemma Acknowledged(nodes: map<int, Node>, unbound: set<int>, contexts: seq<int>, t: Tree, orphan: bool)
    ensures Standing(nodes, unbound, contexts, AwaitUnbindAck, t) ==>
              && contexts != [] && Standing(nodes, unbound, contexts, AwaitCleanupAck, t)
              && Remaining(contexts, AwaitUnbindAck, t, orphan) ==
                   [SendCleanup(contexts[|contexts| - 1])] + Remaining(contexts, AwaitCleanupAck, t, orphan)
    ensures Standing(nodes, unbound, contexts, AwaitCleanupAck, t) ==>
              Standing(nodes, unbound, contexts, P5, t)
                && Remaining(contexts, P5, t, orphan) == Remaining(contexts, AwaitCleanupAck, t, orphan)
  {
    hide Unique, Shape, Rest, Path, End;
    if contexts != [] && Deep(t, |contexts| - 1) {
      PathFacts(t, |contexts| - 1);
    }
  }

  /** The active node loses its first region. */
  ghost function WithoutRegion(contexts: seq<int>, t: Tree): Tree {
    if contexts == [] || !Deep(t, |contexts| - 1) || Top(t, |contexts| - 1).regions == [] then t
    else WithTop(t, |contexts| - 1, Top(t, |contexts| - 1).(regions := Top(t, |contexts| - 1).regions[1..]))
  }

  lemma Destroyed(nodes: map<int, Node>, unbound: set<int>, contexts: seq<int>, t: Tree, orphan: bool)
    requires Standing(nodes, unbound, contexts, P5, t)
    ensures contexts != [] && contexts[|contexts| - 1] in nodes
    ensures var n := contexts[|contexts| - 1];
            if nodes[n].regions == [] then
              Standing(nodes, unbound, contexts, P6, t)
                && Remaining(contexts, P6, t, orphan) == Remaining(contexts, P5, t, orphan)
            else
              var regions, t' := nodes[n].regions, WithoutRegion(contexts, t);
              var nodes' := nodes[n := nodes[n].(regions := regions[1..])];
              && Standing(nodes', unbound, contexts, P5, t') && Within(nodes, nodes', Ids(t)) && Ids(t') == Ids(t)
                 && t'.id == t.id
              && Remaining(contexts, P5, t, orphan) ==
                 [DestroyRegion(n, regions[0])] + Remaining(contexts, P5, t', orphan)
  {
    hide Unique, ShapeAll, Rest, Path, Ids, WithTop, End;
    var d, e := |contexts| - 1, End(t.id, orphan);
    PathFacts(t, d);
    TopFacts(nodes, t, d);
    var n, p := contexts[d], Top(t, d);
    if p.regions != [] {
      var s := p.(regions := p.regions[1..]);
      LeafRetop(nodes, nodes[n := nodes[n].(regions := s.regions)], t, d, s, e);
    }
  }

  /** The active node, a child, leaves the tree. */
  ghost function WithoutChild(contexts: seq<int>, t: Tree): Tree {
    var d := |contexts| - 2;
    if d < 0 || !Deep(t, d) || Top(t, d).kids == Nil then t else WithTop(t, d, Top(t, d).(kids := Top(t, d).kids.tail))
  }

  lemma ChildDone(nodes: map<int, Node>, unbound: set<int>, contexts: seq<int>, t: Tree, orphan: bool)
    requires Standing(nodes, unbound, contexts, P6, t) && |contexts| > 1
    ensures contexts[|contexts| - 2] in nodes && nodes[contexts[|contexts| - 2]].children != []
    ensures var m := |contexts| - 1;
            var n, parent, t' := contexts[m], contexts[m - 1], WithoutChild(contexts, t);
            var siblings := nodes[parent].children[1..];
            var nodes' := nodes[parent := nodes[parent].(children := siblings)] - {n};
            var contexts', pc' := if siblings == [] then contexts[..m] else contexts[m := siblings[0]],
              if siblings == [] then P2 else P1;
            && Standing(nodes', unbound, contexts', pc', t') && Within(nodes, nodes', Ids(t))
            && Remaining(contexts, P6, t, orphan) == [RemoveNode(n)] + Remaining(contexts', pc', t', orphan)
            && Ids(t') == Ids(t) - {n} && n !in nodes' && n !in unbound && t'.id == t.id
  {
    hide Unique, Rest, Path, WithTop, WalkAll, Walk, Own, Shape, Ids, End, KidIds, Within;
    var d := |contexts| - 2;
    NextSibling(nodes, t, d, contexts, End(t.id, orphan));
    assert contexts[d + 1] !in unbound;
    if KidIds(Top(t, d).kids.tail) == [] {
      NoKids(Top(t, d).kids.tail);
    }
  }

  lemma RootLast(nodes: map<int, Node>, unbound: set<int>, contexts: seq<int>, t: Tree, orphan: bool)
    requires Standing(nodes, unbound, contexts, P6, t) && |contexts| == 1
    ensures contexts[0] == t.id && t.id in nodes && Ids(t) == {t.id} && t.id !in unbound
    ensures Remaining(contexts, P6, t, orphan) == End(t.id, orphan)
  {
    hide Unique, ShapeAll, Path, End;
    PathFacts(t, 0);
    RootDone(nodes, t, End(t.id, orphan));
  }

  class Unbinder {
    var nodes: map<int, Node>
    var unbound: set<int>      // _udi_MA_unbound_node_list
    var contexts: seq<int>     // the node of each context, from the root's to the active one
    var ids: seq<int>          // which context it is
    var dying: seq<int>        // contexts that are freed when a call returns, the innermost call's first
    var made: int
    var pc: Pc
    var log: seq<Event>
    const orphan: bool         // the root of the unbind has no parent node
    ghost var tree: Tree       // what is left of the tree
    ghost var trace: seq<Access>

    ghost predicate TreeOk()
      reads `nodes, `unbound, `contexts, `pc, `tree
    {
      Standing(nodes, unbound, contexts, pc, tree)
    }

    ghost predicate ContextsOk()
      reads `ids, `dying, `made, `trace
    {
      0 < made && Accounted(multiset(ids + dying), made, trace)
    }

    ghost predicate Valid()
      reads this
    {
      TreeOk() && ContextsOk() && |ids| == if pc == Done then 0 else |contexts|
    }

    ghost function ToCome(): seq<Event>
      reads `contexts, `pc, `tree
    {
      Remaining(contexts, pc, tree, orphan)
    }

    /** How far the contexts can still descend. */
    ghost function Below(): nat
      reads `contexts, `pc, `tree
    {
      if pc == Done || LeftDepth(tree) + 1 < |contexts| then 0 else LeftDepth(tree) + 1 - |contexts|
    }

    /** A function starts to work with context k. */
    ghost method Touch(k: int)
      requires ContextsOk() && 0 <= k < |ids|
      modifies this`trace
      ensures ContextsOk()
    {
      assert ids[k] in ids + dying;
      Uses(multiset(ids + dying), made, trace, ids[k]);
      trace := trace + [Use(ids[k])];
    }

    /** _udi_unbind6 works with the active context and the one of its parent. */
    ghost method TouchLastTwo()
      requires ContextsOk() && 1 < |ids|
      modifies this`trace
      ensures ContextsOk()
    {
      hide ContextsOk;
      Touch(|ids| - 1);
      Touch(|ids| - 2);
    }

    /** One more context, for a child. */
    method NewContext()
      requires ContextsOk()
      modifies this`ids, this`made, this`trace
      ensures ContextsOk() && |ids| == |old(ids)| + 1
    {
      Allocates(multiset(ids + dying), made, trace);
      assert multiset(ids + [made] + dying) == multiset(ids + dying) + multiset{made};
      trace := trace + [Alloc(made)];
      ids := ids + [made];
      made := made + 1;
    }

    /** The last child's context is done with; it is freed when the call that goes on with the parent returns. */
    method LeaveContext()
      requires ContextsOk() && ids != []
      modifies this`ids, this`dying
      ensures ContextsOk() && |ids| == |old(ids)| - 1
    {
      var n := |ids| - 1;
      assert ids == ids[..n] + [ids[n]];
      assert ids[..n] + ([ids[n]] + dying) == ids + dying;
      dying := [ids[n]] + dying;
      ids := ids[..n];
    }

    /** That call returns. */
    method Unwind()
      requires ContextsOk() && dying != []
      modifies this`dying, this`trace
      ensures ContextsOk() && |dying| < |old(dying)|
    {
      var c := dying[0];
      assert dying == [c] + dying[1..];
      Frees(multiset(ids + dying), made, trace, c);
      assert multiset(ids + dying) - multiset{c} == multiset(ids + dying[1..]);
      trace := trace + [Free(c)];
      dying := dying[1..];
    }

    method FreeRootContext()
      requires ContextsOk() && |ids| == 1
      modifies this`ids, this`trace
      ensures ContextsOk() && ids == []
    {
      var c := ids[0];
      assert ids == [c];
      Frees(multiset(ids + dying), made, trace, c);
      assert multiset(ids + dying) - multiset{c} == multiset([] + dying);
      trace := trace + [Free(c)];
      ids := [];
    }

    /** _udi_MA_unbind: a context for the root. */
    constructor (ns: map<int, Node>, list: set<int>, root: int, noParent: bool, ghost t: Tree)
      requires Unique(t) && Shape(ns, t) && t.id == root
      ensures Valid() && tree == t && nodes == ns && unbound == list && orphan == noParent && pc != Done
      ensures log + ToCome() == WholeWalk(t, noParent)
    {
      nodes, unbound, contexts, pc, log, orphan := ns, list, [root], P1, [], noParent;
      ids, dying, made := [0], [], 1;
      tree := t;
      trace := [Alloc(0)];
      new;
      FirstContext();
    }

    /** _udi_unbind1: off the unbound list, then down to the first child, if any. */
    method Step1()
      requires Valid() && pc == P1
      modifies this
      ensures pc != Done
      ensures Valid() && log == old(log) && ToCome() == old(ToCome())
      ensures Below() < old(Below()) || (Below() == old(Below()) && Rank(pc) < old(Rank(pc)))
      ensures tree == old(tree) && nodes == old(nodes) && contexts != [] && contexts[0] == tree.id
      ensures forall x :: x !in Ids(tree) ==> (x in unbound <==> x in old(unbound))
      ensures unbound <= old(unbound)
    {
      hide Standing, Remaining, Ids, ContextsOk;
      StepsDown(nodes, unbound, contexts, tree, orphan);
      Touch(|ids| - 1);
      var n := contexts[|contexts| - 1];
      unbound := unbound - {n};
      if nodes[n].children == [] {
        pc := P2;
      } else {
        NewContext();
        contexts := contexts + [nodes[n].children[0]];
      }
    }

    /** _udi_unbind2: a node with a driver is asked to unbind, any other is done. */
    method Step2()
      requires Valid() && pc == P2
      modifies this`log, this`pc, this`trace
      ensures pc != Done
      ensures Valid() && log + ToCome() == old(log + ToCome())
      ensures |ToCome()| < old(|ToCome()|) || (|ToCome()| == old(|ToCome()|) && Below() == old(Below())
        && Rank(pc) < old(Rank(pc)))
    {
      hide Standing, Remaining, ContextsOk;
      Asked(nodes, unbound, contexts, tree, orphan);
      Touch(|ids| - 1);
      var n := contexts[|contexts| - 1];
      if nodes[n].bound {
        log := log + [SendUnbind(n)];
        pc := AwaitUnbindAck;
      } else {
        pc := P6;
      }
    }

    /** _udi_unbind3: the driver has acknowledged UNBIND; final cleanup is requested. */
    method Step3()
      requires Valid() && pc == AwaitUnbindAck
      modifies this`log, this`pc, this`trace
      ensures pc != Done
      ensures Valid() && log + ToCome() == old(log + ToCome()) && |ToCome()| < old(|ToCome()|)
    {
      hide Standing, Remaining, ContextsOk;
      Acknowledged(nodes, unbound, contexts, tree, orphan);
      Touch(|ids| - 1);
      log := log + [SendCleanup(contexts[|contexts| - 1])];
      pc := AwaitCleanupAck;
    }

    /** _udi_unbind4: final cleanup is acknowledged. */
    method Step4()
      requires Valid() && pc == AwaitCleanupAck
      modifies this`pc, this`trace
      ensures pc != Done
      ensures Valid() && ToCome() == old(ToCome()) && Below() == old(Below()) && Rank(pc) < old(Rank(pc))
    {
      hide Standing, Remaining, ContextsOk;
      Acknowledged(nodes, unbound, contexts, tree, orphan);
      StillThere(this);
      Touch(|ids| - 1);
      pc := P5;
    }

    /** _udi_unbind5: destroy the regions, one per call-back. */
    method Step5()
      requires Valid() && pc == P5
      modifies this`log, this`pc, this`nodes, this`tree, this`trace
      ensures pc != Done
      ensures Valid() && log + ToCome() == old(log + ToCome())
      ensures |ToCome()| < old(|ToCome()|) || (|ToCome()| == old(|ToCome()|) && Below() == old(Below())
        && Rank(pc) < old(Rank(pc)))
      ensures Ids(tree) == old(Ids(tree)) && tree.id == old(tree).id && Within(old(nodes), nodes, Ids(tree))
    {
      hide Standing, Remaining, ContextsOk, Ids, WithoutRegion, Within;
      Destroyed(nodes, unbound, contexts, tree, orphan);
      WithinSame(nodes, Ids(tree));
      Touch(|ids| - 1);
      var n := contexts[|contexts| - 1];
      if nodes[n].regions != [] {
        var regions := nodes[n].regions;
        log := log + [DestroyRegion(n, regions[0])];
        nodes := nodes[n := nodes[n].(regions := regions[1..])];
        tree := WithoutRegion(contexts, tree);
      } else {
        pc := P6;
      }
    }

    /** _udi_unbind6: the node is done; go on with the next sibling, with the parent, or tell the caller. */
    method Step6()
      requires Valid() && pc == P6
      modifies this
      ensures Valid() && log + ToCome() == old(log + ToCome()) && |ToCome()| < old(|ToCome()|)
      ensures Within(old(nodes), nodes, old(Ids(tree))) && unbound == old(unbound)
      ensures pc != Done ==> Ids(tree) <= old(Ids(tree)) && tree.id == old(tree).id
      ensures pc != Done ==> forall x :: x in old(Ids(tree)) && x !in Ids(tree) ==> x !in nodes && x !in unbound
      ensures pc == Done ==> old(Ids(tree)) == {old(tree).id} && old(tree).id !in unbound
      ensures pc == Done ==>
        if orphan then old(tree).id !in nodes else old(tree).id in nodes && nodes[old(tree).id] == Node([], [], false)
    {
      hide Standing, Remaining, ContextsOk, Ids, Within;
      StillThere(this);
      if |contexts| == 1 {
        FinishRoot();
      } else {
        FinishChild();
      }
    }

    method FinishRoot()
      requires Valid() && pc == P6 && |contexts| == 1
      modifies this
      ensures pc == Done && Valid() && log + ToCome() == old(log + ToCome()) && |ToCome()| < old(|ToCome()|)
      ensures old(Ids(tree)) == {old(tree).id} && old(tree).id !in unbound
      ensures Within(old(nodes), nodes, {old(tree).id}) && unbound == old(unbound)
      ensures if orphan then old(tree).id !in nodes
              else old(tree).id in nodes && nodes[old(tree).id] == Node([], [], false)
    {
      hide Standing, Remaining, ContextsOk, Ids, Within, End;
      RootLast(nodes, unbound, contexts, tree, orphan);
      NothingRemains(unbound, tree, orphan);
      LoggedEnd(log, tree.id, orphan);
      OnlyOne(nodes, tree.id);
      Touch(0);
      var n := contexts[|contexts| - 1];
      nodes := nodes[n := Node([], [], false)];
      if orphan {
        nodes := nodes - {n};
        log := log + [RemoveNode(n)];
      }
      log := log + [RunCallback];
      FreeRootContext();
      contexts := [];
      pc := Done;
    }

    method FinishChild()
      requires Valid() && pc == P6 && |contexts| > 1
      modifies this
      ensures pc != Done && Valid() && log + ToCome() == old(log + ToCome()) && |ToCome()| < old(|ToCome()|)
      ensures Within(old(nodes), nodes, old(Ids(tree))) && unbound == old(unbound)
      ensures Ids(tree) <= old(Ids(tree)) && tree.id == old(tree).id
      ensures forall x :: x in old(Ids(tree)) && x !in Ids(tree) ==> x !in nodes && x !in unbound
    {
      hide Standing, Remaining, ContextsOk, Ids, Within, WithoutChild;
      ChildDone(nodes, unbound, contexts, tree, orphan);
      TouchLastTwo();
      var n, parent := contexts[|contexts| - 1], contexts[|contexts| - 2];
      var siblings := nodes[parent].children[1..];
      tree := WithoutChild(contexts, tree);
      nodes := nodes[parent := nodes[parent].(children := siblings)];
      nodes := nodes - {n};
      log := log + [RemoveNode(n)];
      if siblings == [] {
        LeaveContext();
        contexts := contexts[..|contexts| - 1];
        pc := P2;
      } else {
        contexts := contexts[|contexts| - 1 := siblings[0]];
        pc := P1;
      }
      Logged(old(log), RemoveNode(n), ToCome());
    }
  }

  lemma Logged(log: seq<Event>, e: Event, rest: seq<Event>)
    ensures log + [e] + rest == log + ([e] + rest) && |[e] + rest| == 1 + |rest|
  {
  }

  lemma StillThere(u: Unbinder)
    requires u.TreeOk() && u.pc != Done
    ensures u.contexts != []
  {
  }

  lemma NothingRemains(unbound: set<int>, t: Tree, orphan: bool)
    ensures Remaining([], Done, t, orphan) == [] && forall nodes :: Standing(nodes, unbound, [], Done, t)
  {
  }

  lemma LoggedEnd(log: seq<Event>, id: int, orphan: bool)
    ensures log + End(id, orphan) == (if orphan then log + [RemoveNode(id)] else log) + [RunCallback] + []
      && |End(id, orphan)| > 0
  {
  }

  lemma OnlyOne(nodes: map<int, Node>, n: int)
    ensures forall v {:trigger nodes[n := v]} ::
              Within(nodes, nodes[n := v], {n}) && Within(nodes, nodes[n := v] - {n}, {n})
  {
  }

  lemma WalkNil(after: seq<Event>)
    ensures WalkAll(Nil, after) == after
  {
  }

  /** Nothing outside these ids has changed. */
  ghost predicate Within(nodes: map<int, Node>, nodes': map<int, Node>, ids: set<int>) {
    forall x :: x !in ids ==> (x in nodes' <==> x in nodes) && (x in nodes && x in nodes' ==> nodes'[x] == nodes[x])
  }

  /** The active node, which has no children left, changes its own fields. */
  lemma LeafRetop(nodes: map<int, Node>, nodes': map<int, Node>, t: Tree, d: nat, s: Tree, e: seq<Event>)
    requires Deep(t, d) && Unique(t) && Shape(nodes, t) && Top(t, d).kids == Nil && s.kids == Nil
      && s.id == Top(t, d).id
    requires nodes' == nodes[s.id := Node([], s.regions, s.bound)]
    ensures var t' := WithTop(t, d, s);
            && Deep(t', d) && Top(t', d) == s && t'.id == t.id && Unique(t') && Shape(nodes', t')
               && Path(t', d) == Path(t, d)
            && Rest(t', d, e) == Rest(t, d, e) && Ids(t') == Ids(t)
    ensures Within(nodes, nodes', Ids(t))
  {
    TopFacts(nodes, t, d);
    WithTopIs(t, d, s, e);
    PathWithTop(t, d, s);
    TopIn(t, d);
    ShapeWithTop(nodes, nodes', t, d, s);
    IdsWithTop(t, d, s);
  }

  lemma RootDone(nodes: map<int, Node>, t: Tree, e: seq<Event>)
    requires Deep(t, 0) && Shape(nodes, t) && Top(t, 0).kids == Nil
    ensures t.id in nodes && Ids(t) == {t.id} && Rest(t, 0, e) == e && Top(t, 0) == t
  {
  }

  lemma OneLess(p: Tree)
    requires p.kids.Cons? && p.kids.head.kids == Nil
    ensures var n := p.kids.head.id; Ids(p.kids.head) == {n} && Ids(p) == {p.id} + ({n} + IdsOf(p.kids.tail))
  {
    assert IdsOf(Nil) == {};
    assert IdsOf(p.kids) == Ids(p.kids.head) + IdsOf(p.kids.tail);
  }

  /** The finished node n, a first child d + 1 levels down, leaves its parent's child list and memory. */
  lemma LeaveParent(nodes: map<int, Node>, t: Tree, d: nat)
    requires Deep(t, d + 1) && Unique(t) && Shape(nodes, t) && Top(t, d + 1).kids == Nil
    ensures Deep(t, d) && Top(t, d).kids.Cons? && Top(t, d + 1) == Top(t, d).kids.head
    ensures var p := Top(t, d);
            var n, s := p.kids.head.id, p.(kids := p.kids.tail);
            && p.id in nodes && nodes[p.id].children == [n] + KidIds(s.kids) && n != p.id
            && var nodes' := nodes[p.id := nodes[p.id].(children := KidIds(s.kids))] - {n};
               && Unique(WithTop(t, d, s)) && Shape(nodes', WithTop(t, d, s)) && Ids(WithTop(t, d, s)) == Ids(t) - {n}
               && Within(nodes, nodes', Ids(t))
  {
    DeepPrefix(t, d);
    TopFacts(nodes, t, d);
    TopIn(t, d);
    var p := Top(t, d);
    var k := p.kids.head;
    var n, s := k.id, p.(kids := p.kids.tail);
    var nodes' := nodes[p.id := nodes[p.id].(children := KidIds(s.kids))] - {n};
    OneLess(p);
    ShapeAllKept(nodes, nodes', s.kids);
    ShapeWithTop(nodes, nodes', t, d, s);
    IdsWithTop(t, d, s);
  }

  /** Where the walk stands after that. */
  lemma NextSibling(nodes: map<int, Node>, t: Tree, d: nat, contexts: seq<int>, e: seq<Event>)
    requires Deep(t, d + 1) && Unique(t) && Shape(nodes, t) && Top(t, d + 1).kids == Nil && contexts == Path(t, d + 1)
    ensures Deep(t, d) && Top(t, d).kids.Cons? && Top(t, d + 1) == Top(t, d).kids.head && |contexts| == d + 2
    ensures var p := Top(t, d);
            var n, s, rest := p.kids.head.id, p.(kids := p.kids.tail), p.kids.tail;
            var t' := WithTop(t, d, s);
            && contexts[d + 1] == n && contexts[d] == p.id && p.id in nodes && nodes[p.id].children != []
               && nodes[p.id].children[1..] == KidIds(rest)
            && var nodes' := nodes[p.id := nodes[p.id].(children := KidIds(rest))] - {n};
               && Unique(t') && Shape(nodes', t') && Ids(t') == Ids(t) - {n} && n !in nodes'
                  && Within(nodes, nodes', Ids(t))
               && Deep(t', d) && Top(t', d) == s && t'.id == t.id && Path(t', d) == contexts[..d + 1]
               && Rest(t, d + 1, e) == [RemoveNode(n)] + WalkAll(rest, Own(p, Rest(t', d, e)))
    ensures var p := Top(t, d);
            var rest, t' := p.kids.tail, WithTop(t, d, p.(kids := p.kids.tail));
            if rest == Nil then KidIds(rest) == []
              && WalkAll(rest, Own(p, Rest(t', d, e))) == Own(Top(t', d), Rest(t', d, e))
            else && KidIds(rest) != [] && KidIds(rest)[0] == rest.head.id
                 && Deep(t', d + 1) && Top(t', d + 1) == rest.head && Path(t', d + 1) == contexts[d + 1 := rest.head.id]
                 && WalkAll(rest, Own(p, Rest(t', d, e))) == Walk(rest.head, Rest(t', d + 1, e))
  {
    hide Unique, Shape, Within, Ids, Path, Own, Walk, WithTop;
    LeaveParent(nodes, t, d);
    var p := Top(t, d);
    var s, rest := p.(kids := p.kids.tail), p.kids.tail;
    var t' := WithTop(t, d, s);
    PathDeeper(t, d);
    PathFacts(t, d);
    TopDeeper(t, d, e);
    WithTopIs(t, d, s, e);
    PathWithTop(t, d, s);
    OwnSame(p, s, Rest(t', d, e));
    if rest.Cons? {
      TopDeeper(t', d, e);
      PathDeeper(t', d);
      PathFacts(t', d);
    }
  }

  lemma OwnSame(p: Tree, s: Tree, after: seq<Event>)
    requires s.id == p.id && s.bound == p.bound && s.regions == p.regions
    ensures Own(s, after) == Own(p, after)
  {
  }

  lemma NoKids(f: Forest)
    requires KidIds(f) == []
    ensures f == Nil
  {
  }

  lemma HasKids(f: Forest)
    requires KidIds(f) != []
    ensures f.Cons? && f.head.id == KidIds(f)[0] && KidIds(f.tail) == KidIds(f)[1..]
  {
  }

  lemma WalkKids(f: Forest, after: seq<Event>)
    requires f.Cons?
    ensures WalkAll(f, after) == Walk(f.head, [RemoveNode(f.head.id)] + WalkAll(f.tail, after))
  {
  }

  lemma WithinTransitive(n0: map<int, Node>, n1: map<int, Node>, n2: map<int, Node>, ids: set<int>, some: set<int>)
    requires Within(n0, n1, ids) && Within(n1, n2, some) && some <= ids
    ensures Within(n0, n2, ids)
  {
  }

  /** The whole unbind: it terminates, and what happens is the recursive post-order walk. Below the root every
      node is gone; the root is left without a driver, or is gone too if it had no parent. However late the frees
      come that wait for a call to return, each context made is freed once and not touched afterwards. */
  method UnbindTree(ns: map<int, Node>, list: set<int>, root: int, noParent: bool, ghost t: Tree) returns (u: Unbinder)
    requires Unique(t) && Shape(ns, t) && t.id == root
    ensures u.pc == Done && u.log == WholeWalk(t, noParent)
    ensures Within(ns, u.nodes, Ids(t))
    ensures forall x :: x in Ids(t) ==> x !in u.unbound && (x != root ==> x !in u.nodes)
    ensures forall x :: x !in Ids(t) ==> (x in u.unbound <==> x in list)
    ensures if noParent then root !in u.nodes else root in u.nodes && u.nodes[root] == Node([], [], false)
    ensures 0 < u.made && forall c :: LifeOf(u.trace, c) == if 0 <= c < u.made then Freed else Unknown
  {
    hide Unique, Shape, Walk, End, Within, Unbinder.TreeOk, Unbinder.ContextsOk, Unbinder.ToCome, Ids, WholeWalk;
    hide Unbinder.Below;
    u := new Unbinder(ns, list, root, noParent, t);
    ghost var ids, whole := Ids(t), WholeWalk(t, noParent);
    WithinSame(ns, ids);
    while u.pc != Done || u.dying != []
      invariant fresh(u) && u.Valid() && u.orphan == noParent && u.log + u.ToCome() == whole
      invariant Within(ns, u.nodes, ids)
      invariant u.pc != Done ==> Ids(u.tree) <= ids && u.tree.id == root
      invariant u.pc != Done ==> forall x :: x in ids && x !in Ids(u.tree) ==> x !in u.nodes && x !in u.unbound
      invariant forall x :: x !in ids ==> (x in u.unbound <==> x in list)
      invariant u.pc == Done ==> forall x :: x in ids ==> x !in u.unbound && (x != root ==> x !in u.nodes)
      invariant u.pc == Done ==>
        if noParent then root !in u.nodes else root in u.nodes && u.nodes[root] == Node([], [], false)
      decreases |u.ToCome()|, u.Below(), Rank(u.pc), |u.dying|
    {
      var returning: bool := *;
      if u.dying != [] && (returning || u.pc == Done) {
        u.Unwind();
        continue;
      }
      ghost var some, nodes0 := Ids(u.tree), u.nodes;
      match u.pc
      case P1 => u.Step1();
      case P2 => u.Step2();
      case AwaitUnbindAck => u.Step3();
      case AwaitCleanupAck => u.Step4();
      case P5 =>
        u.Step5();
        WithinTransitive(ns, nodes0, u.nodes, ids, some);
        StillGone(nodes0, u.nodes, some);
      case P6 =>
        u.Step6();
        WithinTransitive(ns, nodes0, u.nodes, ids, some);
        StillGone(nodes0, u.nodes, some);
    }
    NothingToCome(u);
    AllFreed(u);
  }

  lemma AllFreed(u: Unbinder)
    requires u.Valid() && u.pc == Done && u.dying == []
    ensures 0 < u.made && forall c :: LifeOf(u.trace, c) == if 0 <= c < u.made then Freed else Unknown
  {
    assert u.ids + u.dying == [];
    assert multiset(u.ids + u.dying) == multiset{};
  }

  lemma WithinSame(nodes: map<int, Node>, ids: set<int>)
    ensures Within(nodes, nodes, ids)
  {
  }

  lemma StillGone(n0: map<int, Node>, n1: map<int, Node>, some: set<int>)
    requires Within(n0, n1, some)
    ensures forall x :: x !in some && x !in n0 ==> x !in n1
  {
  }

  lemma NothingToCome(u: Unbinder)
    requires u.Valid() && u.pc == Done
    ensures u.ToCome() == []
  {
  }

  // ---------------------------------------------------------------- what the walk does

  function Count(es: seq<Event>, ev: Event): nat {
    if es == [] then 0 else (if es[0] == ev then 1 else 0) + Count(es[1..], ev)
  }

  function One(ev: Event, ev': Event): nat { if ev == ev' then 1 else 0 }

  function OwnTimes(t: Tree, ev: Event): nat {
    if t.bound then One(ev, SendUnbind(t.id)) + One(ev, SendCleanup(t.id)) + Count(Destroys(t.id, t.regions, []),
      ev) else 0
  }

  function Times(t: Tree, ev: Event): nat
    decreases t
  {
    TimesAll(t.kids, ev) + OwnTimes(t, ev)
  }

  function TimesAll(f: Forest, ev: Event): nat
    decreases f
  {
    match f
    case Nil => 0
    case Cons(t, rest) => Times(t, ev) + One(ev, RemoveNode(t.id)) + TimesAll(rest, ev)
  }

  lemma {:induction false} CountDestroys(n: int, regions: seq<int>, after: seq<Event>, ev: Event)
    ensures Count(Destroys(n, regions, after), ev) == Count(Destroys(n, regions, []), ev) + Count(after, ev)
  {
    if regions != [] {
      CountDestroys(n, regions[1..], after, ev);
      CountCons(DestroyRegion(n, regions[0]), Destroys(n, regions[1..], after), ev);
      CountCons(DestroyRegion(n, regions[0]), Destroys(n, regions[1..], []), ev);
    }
  }

  lemma CountCons(e: Event, es: seq<Event>, ev: Event)
    ensures Count([e] + es, ev) == One(ev, e) + Count(es, ev)
  {
    assert ([e] + es)[1..] == es;
  }

  lemma CountOwn(t: Tree, after: seq<Event>, ev: Event)
    ensures Count(Own(t, after), ev) == OwnTimes(t, ev) + Count(after, ev)
  {
    var ds := Destroys(t.id, t.regions, after);
    CountDestroys(t.id, t.regions, after, ev);
    CountCons(SendCleanup(t.id), ds, ev);
    CountCons(SendUnbind(t.id), [SendCleanup(t.id)] + ds, ev);
  }

  lemma {:induction false} CountWalk(t: Tree, after: seq<Event>, ev: Event)
    ensures Count(Walk(t, after), ev) == Times(t, ev) + Count(after, ev)
    decreases t
  {
    hide Count, WalkAll, TimesAll, Own, OwnTimes;
    CountOwn(t, after, ev);
    CountWalkAll(t.kids, Own(t, after), ev);
  }

  lemma {:induction false} CountWalkAll(f: Forest, after: seq<Event>, ev: Event)
    ensures Count(WalkAll(f, after), ev) == TimesAll(f, ev) + Count(after, ev)
    decreases f
  {
    hide Count, Walk, Times;
    match f
    case Nil =>
    case Cons(t, rest) =>
      CountWalkAll(rest, after, ev);
      CountWalk(t, [RemoveNode(t.id)] + WalkAll(rest, after), ev);
      CountCons(RemoveNode(t.id), WalkAll(rest, after), ev);
  }

  ghost function BoundIds(t: Tree): set<int> { (if t.bound then {t.id} else {}) + BoundIdsOf(t.kids) }

  ghost function BoundIdsOf(f: Forest): set<int> {
    match f
    case Nil => {}
    case Cons(t, rest) => BoundIds(t) + BoundIdsOf(rest)
  }

  /** How often each kind of event happens. */
  ghost predicate Expected(ev: Event, n: nat, bound: set<int>, removed: set<int>) {
    match ev
    case SendUnbind(x) => n == if x in bound then 1 else 0
    case SendCleanup(x) => n == if x in bound then 1 else 0
    case RemoveNode(x) => n == if x in removed then 1 else 0
    case RunCallback => n == 0
    case _ => true
  }

  lemma {:induction false} TimesExpected(t: Tree, ev: Event)
    requires Unique(t)
    ensures Expected(ev, Times(t, ev), BoundIds(t), IdsOf(t.kids)) && BoundIds(t) <= Ids(t)
    decreases t
  {
    hide TimesAll, UniqueAll, Destroys, Count;
    TimesAllExpected(t.kids, ev);
    if !ev.DestroyRegion? {
      DestroysOnly(t.id, t.regions, ev);
    }
  }

  lemma {:induction false} TimesAllExpected(f: Forest, ev: Event)
    requires UniqueAll(f)
    ensures Expected(ev, TimesAll(f, ev), BoundIdsOf(f), IdsOf(f)) && BoundIdsOf(f) <= IdsOf(f)
    decreases f
  {
    match f
    case Nil =>
    case Cons(t, rest) =>
      TimesExpected(t, ev);
      TimesAllExpected(rest, ev);
  }

  lemma {:induction false} DestroysOnly(n: int, regions: seq<int>, ev: Event)
    requires !ev.DestroyRegion?
    ensures Count(Destroys(n, regions, []), ev) == 0
  {
    if regions != [] {
      DestroysOnly(n, regions[1..], ev);
      CountCons(DestroyRegion(n, regions[0]), Destroys(n, regions[1..], []), ev);
    }
  }

  lemma CountEnd(id: int, orphan: bool, ev: Event)
    ensures Count(End(id, orphan), ev) == (if orphan then One(ev, RemoveNode(id)) else 0) + One(ev, RunCallback)
  {
    CountCons(RunCallback, [], ev);
    assert [RunCallback] + [] == [RunCallback];
    if orphan {
      CountCons(RemoveNode(id), [RunCallback], ev);
    } else {
      assert [] + [RunCallback] == [RunCallback];
    }
  }

  /** Over a whole unbind: one UNBIND and one final cleanup per bound node and none for others, one removal
      per node below the root, and one call of the root's callback. */
  lemma EachOnce(t: Tree, orphan: bool, x: int)
    requires Unique(t)
    ensures var es := WholeWalk(t, orphan);
            && Count(es, SendUnbind(x)) == Count(es, SendCleanup(x)) == (if x in BoundIds(t) then 1 else 0)
            && Count(es, RemoveNode(x)) == (if x in IdsOf(t.kids) || (orphan && x == t.id) then 1 else 0)
            && Count(es, RunCallback) == 1
  {
    hide Count, WholeWalk, Times, BoundIds, IdsOf, UniqueAll;
    CountWhole(t, orphan, SendUnbind(x));
    CountWhole(t, orphan, SendCleanup(x));
    CountWhole(t, orphan, RemoveNode(x));
    CountWhole(t, orphan, RunCallback);
    TimesExpected(t, SendUnbind(x));
    TimesExpected(t, SendCleanup(x));
    TimesExpected(t, RemoveNode(x));
    TimesExpected(t, RunCallback);
  }

  lemma CountWhole(t: Tree, orphan: bool, ev: Event)
    ensures Count(WholeWalk(t, orphan), ev) ==
      Times(t, ev) + (if orphan then One(ev, RemoveNode(t.id)) else 0) + One(ev, RunCallback)
  {
    CountWalk(t, End(t.id, orphan), ev);
    CountEnd(t.id, orphan, ev);
  }

  // ---------------------------------------------------------------- children before parents

  ghost predicate InOrder(es: seq<Event>, u: Event, v: Event) {
    exists i, j {:trigger es[i], es[j]} :: 0 <= i < j < |es| && es[i] == u && es[j] == v
  }

  lemma OrderKept(before: seq<Event>, es: seq<Event>, after: seq<Event>, u: Event, v: Event)
    requires InOrder(es, u, v)
    ensures InOrder(before + es + after, u, v)
  {
    var i, j :| 0 <= i < j < |es| && es[i] == u && es[j] == v;
    var all, n := before + es + after, |before|;
    assert all[n + i] == u && all[n + j] == v;
  }

  lemma OrderOf(before: seq<Event>, u: Event, mid: seq<Event>, v: Event, after: seq<Event>)
    ensures InOrder(before + [u] + mid + [v] + after, u, v)
  {
    var all, i, j := before + [u] + mid + [v] + after, |before|, |before| + 1 + |mid|;
    assert all[i] == u && all[j] == v;
  }

  /** Node x is removed; before that, if it is bound, it is asked to unbind and then to clean up. */
  ghost predicate Retired(es: seq<Event>, x: int, bound: bool) {
    && RemoveNode(x) in es
    && (bound ==> InOrder(es, SendUnbind(x), SendCleanup(x)) && InOrder(es, SendCleanup(x), RemoveNode(x)))
  }

  ghost predicate RetiresAll(es: seq<Event>, f: Forest) {
    forall x {:trigger Retired(es, x, x in BoundIdsOf(f))} :: x in IdsOf(f) ==> Retired(es, x, x in BoundIdsOf(f))
  }

  lemma RetiredKept(before: seq<Event>, es: seq<Event>, after: seq<Event>, x: int, bound: bool)
    requires Retired(es, x, bound)
    ensures Retired(before + es + after, x, bound)
  {
    hide InOrder;
    if bound {
      OrderKept(before, es, after, SendUnbind(x), SendCleanup(x));
      OrderKept(before, es, after, SendCleanup(x), RemoveNode(x));
    }
  }

  lemma RetiresKept(before: seq<Event>, es: seq<Event>, after: seq<Event>, f: Forest)
    requires RetiresAll(es, f)
    ensures RetiresAll(before + es + after, f)
  {
    hide Retired;
    forall x | x in IdsOf(f)
      ensures Retired(before + es + after, x, x in BoundIdsOf(f))
    {
      assert Retired(es, x, x in BoundIdsOf(f));
      RetiredKept(before, es, after, x, x in BoundIdsOf(f));
    }
  }

  lemma RetiresJoin(es: seq<Event>, t: Tree, rest: Forest)
    requires RetiresAll(es, t.kids) && RetiresAll(es, rest) && Retired(es, t.id, t.bound) && UniqueAll(Cons(t, rest))
    ensures RetiresAll(es, Cons(t, rest))
  {
    hide Retired, Unique;
    var f := Cons(t, rest);
    TopUnique(t, rest);
    forall x | x in IdsOf(f)
      ensures Retired(es, x, x in BoundIdsOf(f))
    {
      assert x in IdsOf(t.kids) ==> Retired(es, x, x in BoundIdsOf(t.kids));
      assert x in IdsOf(rest) ==> Retired(es, x, x in BoundIdsOf(rest));
    }
  }

  lemma TopUnique(t: Tree, rest: Forest)
    requires UniqueAll(Cons(t, rest))
    ensures Unique(t) && UniqueAll(t.kids) && UniqueAll(rest) && t.id !in IdsOf(t.kids) && Ids(t) !! IdsOf(rest)
    ensures BoundIdsOf(t.kids) <= IdsOf(t.kids) && BoundIdsOf(rest) <= IdsOf(rest)
  {
    TimesAllExpected(t.kids, RunCallback);
    TimesAllExpected(rest, RunCallback);
  }

  /** The walk of a tree is a prefix of events, which retires all nodes below it, before what comes after. */
  lemma {:induction false} WalkPrefix(t: Tree, after: seq<Event>) returns (a: seq<Event>)
    requires Unique(t)
    ensures Walk(t, after) == a + after && RetiresAll(a, t.kids)
    ensures t.bound ==> InOrder(a, SendUnbind(t.id), SendCleanup(t.id)) && SendCleanup(t.id) in a
    decreases t
  {
    hide WalkAll, Own, InOrder, RetiresAll, UniqueAll, IdsOf;
    var own := OwnPrefix(t, after);
    var kids := WalkAllPrefix(t.kids, Own(t, after));
    a := kids + own;
    assert kids + (own + after) == a + after;
    assert [] + kids + own == a && kids + own + [] == a;
    RetiresKept([], kids, own, t.kids);
    if t.bound {
      OrderKept(kids, own, [], SendUnbind(t.id), SendCleanup(t.id));
    }
  }

  lemma {:induction false} WalkAllPrefix(f: Forest, after: seq<Event>) returns (a: seq<Event>)
    requires UniqueAll(f)
    ensures WalkAll(f, after) == a + after && RetiresAll(a, f)
    decreases f
  {
    hide Walk, InOrder, RetiresAll, UniqueAll, Retired;
    match f
    case Nil =>
      a := [];
      RetiresNone(a);
    case Cons(t, rest) =>
      TopUnique(t, rest);
      var last := WalkAllPrefix(rest, after);
      var first := WalkPrefix(t, [RemoveNode(t.id)] + WalkAll(rest, after));
      a := first + [RemoveNode(t.id)] + last;
      assert first + ([RemoveNode(t.id)] + (last + after)) == a + after;
      assert [] + first + ([RemoveNode(t.id)] + last) == a && first + [RemoveNode(t.id)] + last + [] == a;
      RetiresKept([], first, [RemoveNode(t.id)] + last, t.kids);
      RetiresKept(first + [RemoveNode(t.id)], last, [], rest);
      ThenRemoved(first, t.id, t.bound, last);
      RetiresJoin(a, t, rest);
  }

  lemma RetiresNone(es: seq<Event>)
    ensures RetiresAll(es, Nil)
  {
  }

  lemma ThenRemoved(first: seq<Event>, x: int, bound: bool, last: seq<Event>)
    requires bound ==> InOrder(first, SendUnbind(x), SendCleanup(x)) && SendCleanup(x) in first
    ensures Retired(first + [RemoveNode(x)] + last, x, bound)
  {
    hide InOrder;
    var a := first + [RemoveNode(x)] + last;
    assert a[|first|] == RemoveNode(x);
    if bound {
      assert [] + first + ([RemoveNode(x)] + last) == a;
      OrderKept([], first, [RemoveNode(x)] + last, SendUnbind(x), SendCleanup(x));
      var i :| 0 <= i < |first| && first[i] == SendCleanup(x);
      OrderOf(first[..i], SendCleanup(x), first[i + 1..], RemoveNode(x), last);
      assert first[..i] + [SendCleanup(x)] + first[i + 1..] + [RemoveNode(x)] + last == a;
    }
  }

  lemma OwnPrefix(t: Tree, after: seq<Event>) returns (a: seq<Event>)
    ensures Own(t, after) == a + after
    ensures t.bound ==> InOrder(a, SendUnbind(t.id), SendCleanup(t.id)) && SendCleanup(t.id) in a
  {
    if t.bound {
      var ds := DestroysPrefix(t.id, t.regions, after);
      a := [SendUnbind(t.id)] + ([SendCleanup(t.id)] + ds);
      assert a[0] == SendUnbind(t.id) && a[1] == SendCleanup(t.id);
    } else {
      a := [];
    }
  }

  lemma {:induction false} DestroysPrefix(n: int, regions: seq<int>, after: seq<Event>) returns (a: seq<Event>)
    ensures Destroys(n, regions, after) == a + after
  {
    if regions == [] {
      a := [];
    } else {
      a := DestroysPrefix(n, regions[1..], after);
      a := [DestroyRegion(n, regions[0])] + a;
    }
  }

  /** s is a node of t, with the subtree below it. */
  ghost predicate IsIn(s: Tree, t: Tree) { s == t || IsInAll(s, t.kids) }

  ghost predicate IsInAll(s: Tree, f: Forest) {
    match f
    case Nil => false
    case Cons(t, rest) => IsIn(s, t) || IsInAll(s, rest)
  }

  /** When a node's own driver is asked to unbind, every node below it has been removed, and before that, if it
      was bound, asked to unbind and to clean up. */
  lemma {:induction false} ChildrenFirst(s: Tree, t: Tree, after: seq<Event>) returns (a: seq<Event>, b: seq<Event>)
    requires Unique(t) && IsIn(s, t)
    ensures Walk(t, after) == a + Own(s, b) && RetiresAll(a, s.kids)
    decreases t
  {
    if s == t {
      b := after;
      a := WalkAllPrefix(t.kids, Own(t, after));
    } else {
      a, b := ChildrenFirstAll(s, t.kids, Own(t, after));
    }
  }

  lemma {:induction false} ChildrenFirstAll(s: Tree, f: Forest, after: seq<Event>)
      returns (a: seq<Event>, b: seq<Event>)
    requires UniqueAll(f) && IsInAll(s, f)
    ensures WalkAll(f, after) == a + Own(s, b) && RetiresAll(a, s.kids)
    decreases f
  {
    hide RetiresAll, Own, Walk;
    var t, rest := f.head, f.tail;
    if IsIn(s, t) {
      a, b := ChildrenFirst(s, t, [RemoveNode(t.id)] + WalkAll(rest, after));
    } else {
      var first := WalkPrefix(t, [RemoveNode(t.id)] + WalkAll(rest, after));
      var last;
      last, b := ChildrenFirstAll(s, rest, after);
      assert first + ([RemoveNode(t.id)] + (last + Own(s, b))) == (first + [RemoveNode(t.id)] + last) + Own(s, b);
      a := first + [RemoveNode(t.id)] + last;
      assert a + [] == a;
      RetiresKept(first + [RemoveNode(t.id)], last, [], s.kids);
    }
  }
}
