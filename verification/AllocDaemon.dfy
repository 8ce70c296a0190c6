/** Deferred allocations: who owns a control block, in every interleaving of drivers, the allocation
    daemon, cancellation, and the regions that run call-backs. One step per lock section. */
module AllocDaemon {
  /** alloc_state, as far as deferred allocations use it. */
  datatype AllocState = Idle | Pending | Busy | Done

  /** What has become of one request. */
  datatype Stage = Waiting | Working | Completed | Delivered | Cancelled

  ghost predicate Distinct(s: seq<int>) {
    forall i, j {:trigger s[i], s[j]} :: 0 <= i < j < |s| ==> s[i] != s[j]
  }

  function Without(s: seq<int>, k: int): seq<int>
    requires 0 <= k < |s|
  {
    s[..k] + s[k + 1..]
  }

  lemma WithoutIs(s: seq<int>, k: int)
    requires 0 <= k < |s| && Distinct(s)
    ensures Distinct(Without(s, k)) && forall x :: x in Without(s, k) <==> x in s && x != s[k]
  {
    var t := Without(s, k);
    forall x | x in s && x != s[k]
      ensures x in t
    {
      var i :| 0 <= i < |s| && s[i] == x;
      assert t[if i < k then i else i - 1] == x;
    }
    forall i, j | 0 <= i < j < |t|
      ensures t[i] != t[j]
    {
      assert t[i] == s[if i < k then i else i + 1] && t[j] == s[if j < k then j else j + 1];
    }
  }

  lemma AddedIs(s: seq<int>, x: int)
    requires Distinct(s) && x !in s
    ensures Distinct(s + [x]) && forall y :: y in s + [x] <==> y in s || y == x
  {
    assert (s + [x])[|s|] == x;
    forall y | y in s
      ensures y in s + [x]
    {
      var i :| 0 <= i < |s| && s[i] == y;
      assert (s + [x])[i] == y;
    }
  }

  /** The state of all control blocks and queues. */
  datatype World = World(
    state: map<int, AllocState>,  // every control block
    list: seq<int>,               // _udi_alloc_list
    transit: set<int>,            // blocks between the two lock sections of _udi_alloc_queue or udi_cancel
    regionQ: seq<int>,            // call-backs queued to regions
    holds: map<int, int>,         // the request each block carries
    owner: map<int, int>,         // the block of each request, past ones included
    stage: map<int, Stage>,       // every request ever made
    completed: seq<int>,          // requests in the order of completion
    delivered: seq<int>)          // and of their call-backs

  /** A control block is in exactly one place, the one its state says. */
  ghost predicate BlockOk(w: World, cb: int) {
    cb in w.state && match w.state[cb]
      case Idle => cb !in w.list && cb !in w.transit && cb !in w.regionQ && cb !in w.holds
      case Pending =>
        && (cb in w.list <==> cb !in w.transit) && cb !in w.regionQ && Carries(w, cb)
        && (w.stage[w.holds[cb]] == Waiting || (cb in w.transit && w.stage[w.holds[cb]] == Cancelled))
      case Busy =>
        cb !in w.list && cb !in w.transit && cb !in w.regionQ && Carries(w, cb) && w.stage[w.holds[cb]] == Working
      case Done =>
        cb !in w.list && cb !in w.transit && cb in w.regionQ && Carries(w, cb) && w.stage[w.holds[cb]] == Completed
  }

  ghost predicate Carries(w: World, cb: int) {
    cb in w.holds && w.holds[cb] in w.stage && w.holds[cb] in w.owner && w.owner[w.holds[cb]] == cb
  }

  /** A request is completed once if at all, and its call-back runs once if at all; never after it was cancelled.
      One that is still open is carried by its control block. */
  ghost predicate RequestOk(w: World, r: int) {
    r in w.stage && r in w.owner && match w.stage[r]
      case Waiting => r !in w.completed && r !in w.delivered && w.owner[r] in w.holds && w.holds[w.owner[r]] == r
      case Working => r !in w.completed && r !in w.delivered && w.owner[r] in w.holds && w.holds[w.owner[r]] == r
      case Completed => r in w.completed && r !in w.delivered && w.owner[r] in w.holds && w.holds[w.owner[r]] == r
      case Delivered => r in w.completed && r in w.delivered
      case Cancelled => r !in w.completed && r !in w.delivered
  }

  ghost predicate Valid(w: World) {
    && (forall cb {:trigger BlockOk(w, cb)} :: cb in w.state ==> BlockOk(w, cb))
    && (forall r {:trigger RequestOk(w, r)} :: r in w.stage ==> RequestOk(w, r))
    && (forall cb :: cb in w.list ==> cb in w.state) && (forall cb :: cb in w.regionQ ==> cb in w.state)
    && (forall cb :: cb in w.transit ==> cb in w.state) && (forall cb :: cb in w.holds ==> cb in w.state)
    && (forall r :: r in w.completed ==> r in w.stage) && (forall r :: r in w.delivered ==> r in w.stage)
    && Distinct(w.list) && Distinct(w.regionQ) && Distinct(w.completed) && Distinct(w.delivered)
  }

  // ---------------------------------------------------------------- the steps

  /** _udi_alloc_queue, before the lock: the driver gives up its idle block with request r. */
  function Requested(w: World, cb: int, r: int): World {
    w.(state := w.state[cb := Pending], transit := w.transit + {cb},
      holds := w.holds[cb := r], owner := w.owner[r := cb], stage := w.stage[r := Waiting])
  }

  /** Under the lock: to the tail of the list. */
  function Enqueued(w: World, cb: int): World {
    w.(list := w.list + [cb], transit := w.transit - {cb})
  }

  /** The daemon takes the head of the list. */
  function Dequeued(w: World): World
    requires w.list != []
  {
    var cb := w.list[0];
    var stage := if cb in w.holds then w.stage[w.holds[cb] := Working] else w.stage;
    w.(list := Without(w.list, 0), state := w.state[cb := Busy], stage := stage)
  }

  /** No memory even after waiting: back to the tail. */
  function Requeued(w: World, cb: int): World {
    var stage := if cb in w.holds then w.stage[w.holds[cb] := Waiting] else w.stage;
    w.(list := w.list + [cb], state := w.state[cb := Pending], stage := stage)
  }

  /** The request is completed and its call-back queued to the region. */
  function Finished(w: World, cb: int): World
    requires cb in w.holds
  {
    var r := w.holds[cb];
    w.(regionQ := w.regionQ + [cb], state := w.state[cb := Done], stage := w.stage[r := Completed],
      completed := w.completed + [r])
  }

  /** A region runs one of its queued call-backs: the driver has its block again. */
  function CalledBack(w: World, k: int): World
    requires 0 <= k < |w.regionQ| && w.regionQ[k] in w.holds
  {
    var cb := w.regionQ[k];
    var r := w.holds[cb];
    w.(regionQ := Without(w.regionQ, k), state := w.state[cb := Idle], holds := w.holds - {cb},
      stage := w.stage[r := Delivered], delivered := w.delivered + [r])
  }

  /** udi_cancel of a pending request: off the list, whatever its position. */
  function Unlisted(w: World, k: int): World
    requires 0 <= k < |w.list| && w.list[k] in w.holds
  {
    var cb := w.list[k];
    w.(list := Without(w.list, k), transit := w.transit + {cb}, stage := w.stage[w.holds[cb] := Cancelled])
  }

  /** Its incoming objects are discarded and the block is idle again. */
  function CancelDone(w: World, cb: int): World {
    w.(transit := w.transit - {cb}, state := w.state[cb := Idle], holds := w.holds - {cb})
  }

  datatype Step =
    | DoRequest(cb: int, r: int)
    | DoEnqueue(cb: int)
    | DoDequeue
    | DoRequeue(cb: int)
    | DoFinish(cb: int)
    | DoCallBack(k: int)
    | DoUnlist(k: int)
    | DoCancelDone(cb: int)

  /** When the program could take a step. Cancellation is of pending requests only, and a request is new. */
  predicate Enabled(w: World, s: Step) {
    match s
    case DoRequest(cb, r) => cb in w.state && w.state[cb] == Idle && r !in w.stage
    case DoEnqueue(cb) => cb in w.transit && cb in w.holds && w.holds[cb] in w.stage && w.stage[w.holds[cb]] == Waiting
    case DoDequeue => w.list != []
    case DoRequeue(cb) => cb in w.state && w.state[cb] == Busy
    case DoFinish(cb) => cb in w.state && w.state[cb] == Busy && cb in w.holds
    case DoCallBack(k) => 0 <= k < |w.regionQ| && w.regionQ[k] in w.holds
    case DoUnlist(k) => 0 <= k < |w.list| && w.list[k] in w.holds
    case DoCancelDone(cb) =>
      cb in w.transit && cb in w.holds && w.holds[cb] in w.stage && w.stage[w.holds[cb]] == Cancelled
  }

  function Next(w: World, s: Step): World
    requires Enabled(w, s)
  {
    match s
    case DoRequest(cb, r) => Requested(w, cb, r)
    case DoEnqueue(cb) => Enqueued(w, cb)
    case DoDequeue => Dequeued(w)
    case DoRequeue(cb) => Requeued(w, cb)
    case DoFinish(cb) => Finished(w, cb)
    case DoCallBack(k) => CalledBack(w, k)
    case DoUnlist(k) => Unlisted(w, k)
    case DoCancelDone(cb) => CancelDone(w, cb)
  }

  lemma BlockIs(w: World, cb: int)
    requires Valid(w) && cb in w.state
    ensures BlockOk(w, cb) && (cb in w.holds ==> w.holds[cb] in w.stage && RequestOk(w, w.holds[cb]))
  {
    assert BlockOk(w, cb);
    if cb in w.holds {
      assert RequestOk(w, w.holds[cb]);
    }
  }

  /** Blocks and requests a step does not touch stay as they were. */
  lemma OthersKept(w: World, w': World, cb: int, r: int)
    requires Valid(w)
    requires w'.state.Keys == w.state.Keys
             && forall x :: x in w.state && x != cb ==>
                  && w'.state[x] == w.state[x] && (x in w'.list <==> x in w.list)
                     && (x in w'.transit <==> x in w.transit)
                  && (x in w'.regionQ <==> x in w.regionQ) && (x in w'.holds <==> x in w.holds)
                  && (x in w.holds && x in w'.holds ==> w'.holds[x] == w.holds[x] && w.holds[x] != r)
    requires forall q :: q in w.stage && q != r ==>
               && q in w'.stage && w'.stage[q] == w.stage[q]
               && (q in w'.completed <==> q in w.completed) && (q in w'.delivered <==> q in w.delivered)
    requires forall q :: q in w.owner && q != r ==> q in w'.owner && w'.owner[q] == w.owner[q]
    requires forall q :: q in w.stage && q != r && q in w.owner && w.owner[q] == cb ==>
      w.stage[q] == Delivered || w.stage[q] == Cancelled
    ensures forall x :: x in w'.state && x != cb ==> BlockOk(w', x)
    ensures forall q :: q in w.stage && q != r ==> RequestOk(w', q)
  {
    forall x | x in w'.state && x != cb
      ensures BlockOk(w', x)
    {
      assert BlockOk(w, x);
    }
    forall q | q in w.stage && q != r
      ensures RequestOk(w', q)
    {
      assert RequestOk(w, q);
      if w.owner[q] in w.state {
        assert BlockOk(w, w.owner[q]);
      }
    }
  }

  /** Past requests of a block are closed, unless it carries them. */
  lemma ClosedOthers(w: World, cb: int, r: int)
    requires Valid(w) && (cb in w.holds ==> w.holds[cb] == r)
    ensures forall q :: q in w.stage && q != r && q in w.owner && w.owner[q] == cb ==>
      w.stage[q] == Delivered || w.stage[q] == Cancelled
    ensures forall x :: x in w.holds && x != cb && cb in w.holds ==> w.holds[x] != r
  {
    forall q | q in w.stage && q != r && q in w.owner && w.owner[q] == cb
      ensures w.stage[q] == Delivered || w.stage[q] == Cancelled
    {
      assert RequestOk(w, q);
    }
    forall x | x in w.holds && x != cb && cb in w.holds
      ensures w.holds[x] != r
    {
      assert BlockOk(w, x) && BlockOk(w, cb);
    }
  }

  lemma RequestedValid(w: World, cb: int, r: int)
    requires Valid(w) && Enabled(w, DoRequest(cb, r))
    ensures Valid(Requested(w, cb, r))
  {
    var w' := Requested(w, cb, r);
    BlockIs(w, cb);
    ClosedOthers(w, cb, r);
    forall x | x in w.holds
      ensures w.holds[x] != r
    {
      assert BlockOk(w, x);
    }
    OthersKept(w, w', cb, r);
    assert BlockOk(w', cb) && RequestOk(w', r);
  }

  lemma EnqueuedValid(w: World, cb: int)
    requires Valid(w) && Enabled(w, DoEnqueue(cb))
    ensures Valid(Enqueued(w, cb))
  {
    var w', r := Enqueued(w, cb), w.holds[cb];
    BlockIs(w, cb);
    ClosedOthers(w, cb, r);
    AddedIs(w.list, cb);
    OthersKept(w, w', cb, r);
    assert BlockOk(w', cb) && RequestOk(w', r);
  }

  lemma DequeuedValid(w: World)
    requires Valid(w) && w.list != []
    ensures Valid(Dequeued(w))
  {
    var w', cb := Dequeued(w), w.list[0];
    BlockIs(w, cb);
    var r := w.holds[cb];
    ClosedOthers(w, cb, r);
    WithoutIs(w.list, 0);
    OthersKept(w, w', cb, r);
    assert BlockOk(w', cb) && RequestOk(w', r);
  }

  lemma RequeuedValid(w: World, cb: int)
    requires Valid(w) && Enabled(w, DoRequeue(cb))
    ensures Valid(Requeued(w, cb))
  {
    var w' := Requeued(w, cb);
    BlockIs(w, cb);
    var r := w.holds[cb];
    ClosedOthers(w, cb, r);
    AddedIs(w.list, cb);
    OthersKept(w, w', cb, r);
    assert BlockOk(w', cb) && RequestOk(w', r);
  }

  lemma FinishedValid(w: World, cb: int)
    requires Valid(w) && Enabled(w, DoFinish(cb))
    ensures Valid(Finished(w, cb))
  {
    var w', r := Finished(w, cb), w.holds[cb];
    BlockIs(w, cb);
    ClosedOthers(w, cb, r);
    AddedIs(w.regionQ, cb);
    AddedIs(w.completed, r);
    OthersKept(w, w', cb, r);
    assert BlockOk(w', cb) && RequestOk(w', r);
  }

  lemma CalledBackValid(w: World, k: int)
    requires Valid(w) && Enabled(w, DoCallBack(k))
    ensures Valid(CalledBack(w, k))
  {
    var w', cb := CalledBack(w, k), w.regionQ[k];
    var r := w.holds[cb];
    BlockIs(w, cb);
    ClosedOthers(w, cb, r);
    WithoutIs(w.regionQ, k);
    AddedIs(w.delivered, r);
    OthersKept(w, w', cb, r);
    assert BlockOk(w', cb) && RequestOk(w', r);
  }

  lemma UnlistedValid(w: World, k: int)
    requires Valid(w) && Enabled(w, DoUnlist(k))
    ensures Valid(Unlisted(w, k))
  {
    var w', cb := Unlisted(w, k), w.list[k];
    var r := w.holds[cb];
    BlockIs(w, cb);
    ClosedOthers(w, cb, r);
    WithoutIs(w.list, k);
    OthersKept(w, w', cb, r);
    assert BlockOk(w', cb) && RequestOk(w', r);
  }

  lemma CancelDoneValid(w: World, cb: int)
    requires Valid(w) && Enabled(w, DoCancelDone(cb))
    ensures Valid(CancelDone(w, cb))
  {
    var w', r := CancelDone(w, cb), w.holds[cb];
    BlockIs(w, cb);
    ClosedOthers(w, cb, r);
    OthersKept(w, w', cb, r);
    assert BlockOk(w', cb) && RequestOk(w', r);
  }

  /** Every step keeps the ownership discipline. */
  lemma NextValid(w: World, s: Step)
    requires Valid(w) && Enabled(w, s)
    ensures Valid(Next(w, s))
  {
    hide Valid;
    match s
    case DoRequest(cb, r) => RequestedValid(w, cb, r);
    case DoEnqueue(cb) => EnqueuedValid(w, cb);
    case DoDequeue => DequeuedValid(w);
    case DoRequeue(cb) => RequeuedValid(w, cb);
    case DoFinish(cb) => FinishedValid(w, cb);
    case DoCallBack(k) => CalledBackValid(w, k);
    case DoUnlist(k) => UnlistedValid(w, k);
    case DoCancelDone(cb) => CancelDoneValid(w, cb);
  }

  // ---------------------------------------------------------------- runs

  /** All idle, nothing requested. */
  function Initial(blocks: set<int>): World {
    World(map cb | cb in blocks :: Idle, [], {}, [], map[], map[], map[], [], [])
  }

  /** Any schedule: steps that the program could not take are skipped. */
  function Run(w: World, schedule: seq<Step>): World {
    if schedule == [] then w
    else
      var w1 := Run(w, schedule[..|schedule| - 1]);
      var s := schedule[|schedule| - 1];
      if Enabled(w1, s) then Next(w1, s) else w1
  }

  lemma {:induction false} RunValid(w: World, schedule: seq<Step>)
    requires Valid(w)
    ensures Valid(Run(w, schedule))
    decreases |schedule|
  {
    hide Valid;
    if schedule != [] {
      RunValid(w, schedule[..|schedule| - 1]);
      var w1, s := Run(w, schedule[..|schedule| - 1]), schedule[|schedule| - 1];
      if Enabled(w1, s) {
        NextValid(w1, s);
      }
    }
  }

  /** In every interleaving, a request is completed at most once and its call-back runs at most once, and one that
      was cancelled while pending is never completed. */
  lemma AtMostOnce(blocks: set<int>, schedule: seq<Step>, r: int)
    ensures var w := Run(Initial(blocks), schedule);
            && Valid(w) && (forall i,
               j {:trigger w.completed[i], w.completed[j]} :: 0 <= i < j < |w.completed| ==>
                 w.completed[i] != w.completed[j])
            && (r in w.stage && w.stage[r] == Cancelled ==> r !in w.completed && r !in w.delivered)
            && (r in w.delivered ==> r in w.completed)
  {
    var w := Run(Initial(blocks), schedule);
    InitialValid(blocks);
    RunValid(Initial(blocks), schedule);
    assert r in w.stage ==> RequestOk(w, r);
  }

  lemma InitialValid(blocks: set<int>)
    ensures Valid(Initial(blocks)) && Initial(blocks).list == []
  {
  }

  /** Cancellation is final: no later step touches a cancelled request. */
  lemma {:induction false} CancelledForGood(w: World, schedule: seq<Step>, r: int)
    requires Valid(w) && r in w.stage && w.stage[r] == Cancelled
    ensures r in Run(w, schedule).stage && Run(w, schedule).stage[r] == Cancelled && r !in Run(w, schedule).completed
    decreases |schedule|
  {
    RunValid(w, schedule);
    var w' := Run(w, schedule);
    if schedule != [] {
      CancelledForGood(w, schedule[..|schedule| - 1], r);
      RunValid(w, schedule[..|schedule| - 1]);
      var w1, s := Run(w, schedule[..|schedule| - 1]), schedule[|schedule| - 1];
      if Enabled(w1, s) {
        CancelledStep(w1, s, r);
      }
    }
    assert r in w'.stage ==> RequestOk(w', r);
  }

  lemma CancelledStep(w: World, s: Step, r: int)
    requires Valid(w) && Enabled(w, s) && r in w.stage && w.stage[r] == Cancelled
    ensures r in Next(w, s).stage && Next(w, s).stage[r] == Cancelled
  {
    match s
    case DoDequeue => BlockIs(w, w.list[0]);
    case DoRequeue(cb) => BlockIs(w, cb);
    case DoFinish(cb) => BlockIs(w, cb);
    case DoCallBack(k) => BlockIs(w, w.regionQ[k]);
    case _ =>
  }

  // ---------------------------------------------------------------- first come, first served

  /** The requests that these blocks carry. */
  ghost function Carried(w: World, s: seq<int>): seq<int> {
    if s == [] then [] else [if s[0] in w.holds then w.holds[s[0]] else 0] + Carried(w, s[1..])
  }

  /** The daemon has begun to work on r. */
  ghost predicate Begun(w: World, w': World, r: int) {
    r in w.stage && r in w'.stage && w.stage[r] == Waiting && w'.stage[r] == Working
  }

  /** The requests in the order in which they were put on the list, one that was put back once more. */
  ghost function Queued(w: World, schedule: seq<Step>): seq<int> {
    if schedule == [] then []
    else
      var rest, s := schedule[..|schedule| - 1], schedule[|schedule| - 1];
      Queued(w, rest) + PutBy(Run(w, rest), s)
  }

  ghost function PutBy(w: World, s: Step): seq<int> {
    if Enabled(w, s) && (s.DoEnqueue? || s.DoRequeue?) && s.cb in w.holds then [w.holds[s.cb]] else []
  }

  /** The requests in the order in which the daemon began to work on them. */
  ghost function Served(w: World, schedule: seq<Step>): seq<int> {
    if schedule == [] then []
    else
      var rest := schedule[..|schedule| - 1];
      Served(w, rest) + BegunBy(Run(w, rest), Run(w, schedule))
  }

  ghost function BegunBy(w: World, w': World): seq<int> {
    if r :| Begun(w, w', r) then [r] else []
  }

  ghost function Gone(w: World): set<int> {
    set r | r in w.stage && w.stage[r] == Cancelled
  }

  /** s without the last occurrence of each request that was cancelled. */
  ghost function Line(s: seq<int>, gone: set<int>): seq<int> {
    if s == [] then []
    else if s[0] in gone && s[0] !in s[1..] then Line(s[1..], gone)
    else [s[0]] + Line(s[1..], gone)
  }

  /** s without the last occurrence of r. */
  ghost function DropLast(s: seq<int>, r: int): seq<int> {
    if s == [] then []
    else if s[0] == r && r !in s[1..] then s[1..]
    else [s[0]] + DropLast(s[1..], r)
  }

  lemma {:induction false} LineAppend(s: seq<int>, gone: set<int>, r: int)
    requires r !in gone
    ensures Line(s + [r], gone) == Line(s, gone) + [r]
  {
    if s == [] {
      assert [] + [r] == [r];
    } else {
      assert (s + [r])[1..] == s[1..] + [r];
      LineAppend(s[1..], gone, r);
    }
  }

  lemma {:induction false} LineOf(s: seq<int>, gone: set<int>, r: int)
    requires r !in gone
    ensures r in Line(s, gone) <==> r in s
    ensures r !in s ==> Line(s, gone + {r}) == Line(s, gone)
  {
    if s != [] {
      LineOf(s[1..], gone, r);
    }
  }

  /** Cancelling r takes its last occurrence out of the line. */
  lemma {:induction false} LineMore(s: seq<int>, gone: set<int>, r: int)
    requires r !in gone
    ensures Line(s, gone + {r}) == DropLast(Line(s, gone), r)
  {
    if s != [] {
      LineMore(s[1..], gone, r);
      LineOf(s[1..], gone, r);
      var rest := Line(s[1..], gone);
      assert ([s[0]] + rest)[1..] == rest;
    }
  }

  lemma {:induction false} DropLastHead(b: seq<int>, r: int, c: seq<int>)
    requires r !in c
    ensures DropLast(b + [r] + c, r) == b + c
  {
    if b == [] {
      assert [] + [r] + c == [r] + c && ([r] + c)[1..] == c && [] + c == c;
    } else {
      DropLastHead(b[1..], r, c);
      assert (b + [r] + c)[1..] == b[1..] + [r] + c;
      assert b + c == [b[0]] + (b[1..] + c);
    }
  }

  lemma DropLastAt(a: seq<int>, b: seq<int>, r: int, c: seq<int>)
    requires r !in c
    ensures DropLast(a + (b + [r] + c), r) == a + (b + c)
  {
    assert a + (b + [r] + c) == (a + b) + [r] + c;
    assert a + (b + c) == (a + b) + c;
    DropLastHead(a + b, r, c);
  }

  lemma {:induction false} CarriedAppend(w: World, s: seq<int>, s': seq<int>)
    ensures Carried(w, s + s') == Carried(w, s) + Carried(w, s')
  {
    if s == [] {
      assert [] + s' == s' && [] + Carried(w, s') == Carried(w, s');
    } else {
      assert (s + s')[1..] == s[1..] + s';
      CarriedAppend(w, s[1..], s');
    }
  }

  lemma {:induction false} CarriedSame(w: World, w': World, s: seq<int>)
    requires forall cb :: cb in s ==> (cb in w.holds <==> cb in w'.holds)
    requires forall cb :: cb in s && cb in w.holds && cb in w'.holds ==> w'.holds[cb] == w.holds[cb]
    ensures Carried(w', s) == Carried(w, s)
  {
    if s != [] {
      var cb := s[0];
      assert cb in s && forall x :: x in s[1..] ==> x in s;
      assert (cb in w.holds <==> cb in w'.holds) && (cb in w.holds ==> w'.holds[cb] == w.holds[cb]);
      CarriedSame(w, w', s[1..]);
    }
  }

  /** No two blocks carry the same request. */
  lemma {:induction false} NotCarried(w: World, s: seq<int>, cb: int)
    requires Valid(w) && cb in w.state && cb in w.holds && cb !in s && forall x :: x in s ==> x in w.list
    requires w.state[cb] == Pending
    ensures w.holds[cb] !in Carried(w, s)
  {
    if s != [] {
      assert s[0] in s && forall x :: x in s[1..] ==> x in s;
      NotCarried(w, s[1..], cb);
      ListedIs(w, s[0]);
      assert BlockOk(w, cb);
    }
  }

  lemma ListedIs(w: World, cb: int)
    requires Valid(w) && cb in w.list
    ensures cb in w.state && w.state[cb] == Pending && cb in w.holds && Carries(w, cb) && cb !in w.transit
      && w.stage[w.holds[cb]] == Waiting
  {
    assert BlockOk(w, cb);
  }

  /** Every list member keeps its request in this step. */
  lemma ListKept(w: World, s: Step)
    requires Valid(w) && Enabled(w, s)
    ensures Carried(Next(w, s), w.list) == Carried(w, w.list)
  {
    var w' := Next(w, s);
    forall cb | cb in w.list
      ensures cb in w.holds && cb in w'.holds && w'.holds[cb] == w.holds[cb]
    {
      ListedIs(w, cb);
      if s.DoCallBack? {
        BlockIs(w, w.regionQ[s.k]);
        assert w.regionQ[s.k] in w.regionQ;
      }
    }
    CarriedSame(w, w', w.list);
  }

  lemma QueueDequeue(w: World)
    requires Valid(w) && w.list != []
    ensures var w' := Next(w, DoDequeue);
            && Carried(w, w.list) == BegunBy(w, w') + Carried(w', w'.list) && Gone(w') == Gone(w)
            && PutBy(w, DoDequeue) == []
  {
    var w', cb := Next(w, DoDequeue), w.list[0];
    ListedIs(w, cb);
    ListKept(w, DoDequeue);
    assert w'.list == w.list[1..];
    assert Begun(w, w', w.holds[cb]);
    assert BegunBy(w, w') == [w.holds[cb]];
  }

  lemma QueueUnlist(w: World, k: int)
    requires Valid(w) && Enabled(w, DoUnlist(k))
    ensures var w', r := Next(w, DoUnlist(k)), w.holds[w.list[k]];
            && BegunBy(w, w') == [] && PutBy(w, DoUnlist(k)) == [] && r !in Gone(w) && Gone(w') == Gone(w) + {r}
            && Carried(w, w.list) == Carried(w, w.list[..k]) + [r] + Carried(w, w.list[k + 1..])
            && Carried(w', w'.list) == Carried(w, w.list[..k]) + Carried(w, w.list[k + 1..])
            && r !in Carried(w, w.list[k + 1..])
  {
    hide Valid, Carried;
    var w', cb := Next(w, DoUnlist(k)), w.list[k];
    var a, c := w.list[..k], w.list[k + 1..];
    ListedIs(w, cb);
    ListNoDup(w, k);
    CarriedAppend(w, a, [cb]);
    CarriedAppend(w, a + [cb], c);
    CarriedAppend(w, a, c);
    assert w.list == a + [cb] + c && w'.list == a + c;
    CarriedSame(w, w', w'.list);
    NotCarried(w, c, cb);
    CarriedOne(w, cb);
  }

  lemma ListNoDup(w: World, k: int)
    requires Valid(w) && 0 <= k < |w.list|
    ensures w.list[k] !in w.list[k + 1..]
  {
  }

  lemma CarriedOne(w: World, cb: int)
    requires cb in w.holds
    ensures Carried(w, [cb]) == [w.holds[cb]]
  {
  }

  /** A step that neither takes a block from the list nor cancels one begins and cancels no request. */
  lemma NoneBegun(w: World, s: Step)
    requires Valid(w) && Enabled(w, s) && !s.DoDequeue? && !s.DoUnlist?
    ensures BegunBy(w, Next(w, s)) == [] && Gone(Next(w, s)) == Gone(w)
  {
    match s
    case DoRequeue(cb) => BlockIs(w, cb);
    case DoFinish(cb) => BlockIs(w, cb);
    case DoCallBack(k) => BlockIs(w, w.regionQ[k]);
    case _ =>
  }

  /** It appends to the list what it puts there, and that is not cancelled. */
  lemma QueueOther(w: World, s: Step)
    requires Valid(w) && Enabled(w, s) && !s.DoDequeue? && !s.DoUnlist?
    ensures var w' := Next(w, s);
            && Carried(w', w'.list) == Carried(w, w.list) + PutBy(w, s)
            && (forall r :: r in PutBy(w, s) ==> r !in Gone(w))
  {
    hide Carried;
    var w' := Next(w, s);
    ListKept(w, s);
    assert Carried(w, w.list) + [] == Carried(w, w.list);
    if s.DoEnqueue? || s.DoRequeue? {
      CarriedAppend(w', w.list, [s.cb]);
      if s.DoRequeue? {
        BlockIs(w, s.cb);
      }
      CarriedOne(w', s.cb);
    }
  }

  /** First come, first served: in every run, the requests begun so far and then those on the list are the requests
      put on the list, in that order, less those cancelled there. */
  lemma {:induction false} QueueLaw(w0: World, schedule: seq<Step>)
    requires Valid(w0) && w0.list == []
    ensures var w := Run(w0, schedule);
            Served(w0, schedule) + Carried(w, w.list) == Line(Queued(w0, schedule), Gone(w))
    decreases |schedule|
  {
    hide Valid, Line, Carried, BegunBy, PutBy, Gone, DropLast, Next, Enabled;
    if schedule == [] {
      NoneQueued(w0);
    } else {
      var rest, s := schedule[..|schedule| - 1], schedule[|schedule| - 1];
      var w := Run(w0, rest);
      QueueLaw(w0, rest);
      RunValid(w0, rest);
      QueueStep(w, s, Served(w0, rest), Queued(w0, rest));
    }
  }

  lemma NoneQueued(w: World)
    requires w.list == []
    ensures Carried(w, w.list) == [] == Line([], Gone(w)) && [] + Carried(w, w.list) == []
  {
  }

  lemma QueueStep(w: World, s: Step, served: seq<int>, queued: seq<int>)
    requires Valid(w) && served + Carried(w, w.list) == Line(queued, Gone(w))
    ensures var w' := if Enabled(w, s) then Next(w, s) else w;
            (served + BegunBy(w, w')) + Carried(w', w'.list) == Line(queued + PutBy(w, s), Gone(w'))
  {
    hide Valid, Line, Carried, DropLast;
    assert queued + [] == queued && served + [] == served;
    if !Enabled(w, s) {
    } else if s.DoDequeue? {
      QueueDequeue(w);
      var w' := Next(w, s);
      assert served + (BegunBy(w, w') + Carried(w', w'.list)) == (served + BegunBy(w, w')) + Carried(w', w'.list);
    } else if s.DoUnlist? {
      QueueUnlist(w, s.k);
      var r, a, c := w.holds[w.list[s.k]], Carried(w, w.list[..s.k]), Carried(w, w.list[s.k + 1..]);
      LineMore(queued, Gone(w), r);
      DropLastAt(served, a, r, c);
    } else {
      NoneBegun(w, s);
      QueueOther(w, s);
      var put := PutBy(w, s);
      if put != [] {
        assert put[0] in put && put == [put[0]];
        LineAppend(queued, Gone(w), put[0]);
      }
      assert served + Carried(w, w.list) + put == served + (Carried(w, w.list) + put);
    }
  }

  // ---------------------------------------------------------------- the program

  /** The control blocks and queues in place. Each method is the code of one lock section, or of what comes before
      or behind it; what it does is the step it is specified by. */
  class Environment {
    var state: map<int, AllocState>
    var list: seq<int>
    var transit: set<int>
    var regionQ: seq<int>
    var holds: map<int, int>
    ghost var owner: map<int, int>
    var stage: map<int, Stage>
    ghost var completed: seq<int>
    ghost var delivered: seq<int>

    ghost function W(): World
      reads this
    {
      World(state, list, transit, regionQ, holds, owner, stage, completed, delivered)
    }

    constructor (blocks: set<int>)
      ensures W() == Initial(blocks) && Valid(W())
    {
      state, list, transit, regionQ, holds := map cb | cb in blocks :: Idle, [], {}, [], map[];
      owner, stage, completed, delivered := map[], map[], [], [];
      new;
      InitialValid(blocks);
    }

    /** _udi_alloc_queue up to the lock. */
    method Mark(cb: int, r: int)
      requires Valid(W()) && Enabled(W(), DoRequest(cb, r))
      modifies this
      ensures W() == Next(old(W()), DoRequest(cb, r)) && Valid(W())
    {
      hide Valid;
      NextValid(W(), DoRequest(cb, r));
      state := state[cb := Pending];
      transit := transit + {cb};
      holds := holds[cb := r];
      owner := owner[r := cb];
      stage := stage[r := Waiting];
    }

    /** _udi_alloc_queue under the lock. */
    method Link(cb: int)
      requires Valid(W()) && Enabled(W(), DoEnqueue(cb))
      modifies this
      ensures W() == Next(old(W()), DoEnqueue(cb)) && Valid(W())
    {
      hide Valid;
      NextValid(W(), DoEnqueue(cb));
      list := list + [cb];
      transit := transit - {cb};
    }

    /** _udi_alloc_daemon_work, first lock section: take the head of the list, if there is one. */
    method TakeHead() returns (found: bool, cb: int)
      requires Valid(W())
      modifies this
      ensures Valid(W()) && (found <==> old(list) != [])
      ensures !found ==> W() == old(W())
      ensures found ==> cb == old(list)[0] && W() == Next(old(W()), DoDequeue) && Enabled(W(), DoFinish(cb))
    {
      if list == [] {
        return false, 0;
      }
      found, cb := true, list[0];
      BlockIs(W(), cb);
      DequeuedValid(W());
      hide Valid;
      list := Without(list, 0);
      state := state[cb := Busy];
      stage := stage[holds[cb] := Working];
    }

    /** What the daemon does after the blocking allocation, for the block it has taken: complete the request, or
        put it back at the tail if memory was short. */
    method EndWork(cb: int, memory: bool) returns (more: bool)
      requires Valid(W()) && Enabled(W(), DoFinish(cb))
      modifies this
      ensures Valid(W())
      ensures memory ==> more && W() == Next(old(W()), DoFinish(cb))
      ensures !memory ==>
        more == (old(list) != []) && Enabled(old(W()), DoRequeue(cb)) && W() == Next(old(W()), DoRequeue(cb))
    {
      hide Valid;
      if memory {
        NextValid(W(), DoFinish(cb));
        state := state[cb := Done];
        stage := stage[holds[cb] := Completed];
        completed := completed + [holds[cb]];
        regionQ := regionQ + [cb];
        more := true;
      } else {
        NextValid(W(), DoRequeue(cb));
        more := list != [];
        list := list + [cb];
        state := state[cb := Pending];
        stage := stage[holds[cb] := Waiting];
      }
    }

    /** The region runs the k-th queued call-back. */
    method CallBack(k: int)
      requires Valid(W()) && Enabled(W(), DoCallBack(k))
      modifies this
      ensures W() == Next(old(W()), DoCallBack(k)) && Valid(W())
    {
      hide Valid;
      NextValid(W(), DoCallBack(k));
      var cb := regionQ[k];
      regionQ := Without(regionQ, k);
      state := state[cb := Idle];
      stage := stage[holds[cb] := Delivered];
      delivered := delivered + [holds[cb]];
      holds := holds - {cb};
    }

    /** udi_cancel of a pending request, under the locks. */
    method Unlink(k: int)
      requires Valid(W()) && Enabled(W(), DoUnlist(k))
      modifies this
      ensures W() == Next(old(W()), DoUnlist(k)) && Valid(W())
    {
      hide Valid;
      NextValid(W(), DoUnlist(k));
      var cb := list[k];
      list := Without(list, k);
      transit := transit + {cb};
      stage := stage[holds[cb] := Cancelled];
    }

    /** udi_cancel after the locks: the block is the driver's again. */
    method Reclaim(cb: int)
      requires Valid(W()) && Enabled(W(), DoCancelDone(cb))
      modifies this
      ensures W() == Next(old(W()), DoCancelDone(cb)) && Valid(W())
    {
      hide Valid;
      NextValid(W(), DoCancelDone(cb));
      transit := transit - {cb};
      state := state[cb := Idle];
      holds := holds - {cb};
    }
  }

  // ---------------------------------------------------------------- runs of the program

  /** Whose turn it is, and what it does. */
  datatype Turn =
    | Asks(cb: int, r: int)
    | Queues(cb: int)
    | Takes
    | Ends(cb: int, memory: bool)
    | Answers(k: int)
    | Cancels(k: int)
    | TakesBack(cb: int)

  function StepOf(turn: Turn): Step {
    match turn
    case Asks(cb, r) => DoRequest(cb, r)
    case Queues(cb) => DoEnqueue(cb)
    case Takes => DoDequeue
    case Ends(cb, memory) => if memory then DoFinish(cb) else DoRequeue(cb)
    case Answers(k) => DoCallBack(k)
    case Cancels(k) => DoUnlist(k)
    case TakesBack(cb) => DoCancelDone(cb)
  }

  function Steps(turns: seq<Turn>): seq<Step> {
    seq(|turns|, i requires 0 <= i < |turns| => StepOf(turns[i]))
  }

  lemma RunNext(w: World, schedule: seq<Step>, s: Step)
    ensures var w1 := Run(w, schedule); Run(w, schedule + [s]) == if Enabled(w1, s) then Next(w1, s) else w1
  {
    assert (schedule + [s])[..|schedule|] == schedule;
  }

  /** Let one of them do its part, if it can. */
  method TakeTurn(env: Environment, turn: Turn)
    requires Valid(env.W())
    modifies env
    ensures Valid(env.W())
    ensures env.W() == if old(Enabled(env.W(), StepOf(turn))) then Next(old(env.W()), StepOf(turn)) else old(env.W())
  {
    hide Valid, Next;
    match turn
    case Asks(cb, r) =>
      if cb in env.state && env.state[cb] == Idle && r !in env.stage {
        env.Mark(cb, r);
      }
    case Queues(cb) =>
      if cb in env.transit && cb in env.holds && env.holds[cb] in env.stage && env.stage[env.holds[cb]] == Waiting {
        env.Link(cb);
      }
    case Takes =>
      if env.list != [] {
        var found, cb := env.TakeHead();
      }
    case Ends(cb, memory) =>
      if cb in env.state && env.state[cb] == Busy {
        BusyCarries(env.W(), cb);
        var more := env.EndWork(cb, memory);
      }
    case Answers(k) =>
      if 0 <= k < |env.regionQ| && env.regionQ[k] in env.holds {
        env.CallBack(k);
      }
    case Cancels(k) =>
      if 0 <= k < |env.list| && env.list[k] in env.holds {
        env.Unlink(k);
      }
    case TakesBack(cb) =>
      if cb in env.transit && cb in env.holds && env.holds[cb] in env.stage && env.stage[env.holds[cb]] == Cancelled {
        env.Reclaim(cb);
      }
  }

  lemma BusyCarries(w: World, cb: int)
    requires Valid(w) && cb in w.state && w.state[cb] == Busy
    ensures cb in w.holds
  {
    BlockIs(w, cb);
  }

  /** However drivers, the daemon, regions and cancellers take turns, what the program has done is the run of their
      steps: every request was completed once at most, none that was cancelled, and the daemon began them in the
      order in which they were queued. */
  method Play(blocks: set<int>, turns: seq<Turn>) returns (env: Environment)
    ensures Valid(env.W()) && env.W() == Run(Initial(blocks), Steps(turns)) && Distinct(env.completed)
      && Distinct(env.delivered)
    ensures forall r :: r in env.stage && env.stage[r] == Cancelled ==> r !in env.completed && r !in env.delivered
    ensures forall r :: r in env.delivered ==> r in env.completed
    ensures Served(Initial(blocks), Steps(turns)) + Carried(env.W(), env.list) ==
      Line(Queued(Initial(blocks), Steps(turns)), Gone(env.W()))
  {
    hide Valid, Run, Served, Queued, Carried, Line, Gone, Enabled, Next, StepOf;
    env := new Environment(blocks);
    NoSteps(Initial(blocks));
    InitialValid(blocks);
    assert Steps(turns[..0]) == [];
    for i := 0 to |turns|
      invariant fresh(env) && Valid(env.W()) && env.W() == Run(Initial(blocks), Steps(turns[..i]))
    {
      RunNext(Initial(blocks), Steps(turns[..i]), StepOf(turns[i]));
      assert Steps(turns[..i + 1]) == Steps(turns[..i]) + [StepOf(turns[i])];
      TakeTurn(env, turns[i]);
    }
    assert turns[..|turns|] == turns;
    QueueLaw(Initial(blocks), Steps(turns));
    Outcome(env.W());
  }

  lemma NoSteps(w: World)
    ensures Run(w, []) == w
  {
  }

  lemma Outcome(w: World)
    requires Valid(w)
    ensures Distinct(w.completed) && Distinct(w.delivered)
    ensures forall r :: r in w.stage && w.stage[r] == Cancelled ==> r !in w.completed && r !in w.delivered
    ensures forall r :: r in w.delivered ==> r in w.completed
  {
    forall r | r in w.stage
      ensures RequestOk(w, r)
    {
    }
  }
}
