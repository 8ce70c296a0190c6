/** The management agent's pool of control blocks and its queue of deferred operations, as one
    atomic step per lock section, under any interleaving of senders and returners. */
module CbPool {
  datatype Option<T> = None | Some(value: T)

  /** Where a call of _udi_MA_send_op stands between its lock sections. */
  datatype Phase =
    | Started      // not yet looked at the pool
    | FoundEmpty   // saw an empty pool, will try to allocate a control block
    | Replenished  // put a new control block into the pool
    | Ready        // saw a block, or could not get one; in both cases about to take

  ghost predicate Distinct(s: seq<int>) {
    forall i, j {:trigger s[i], s[j]} :: 0 <= i < j < |s| ==> s[i] != s[j]
  }

  ghost function Elements(s: seq<int>): set<int> {
    set x | x in s
  }

  /** Senders that have put a block into the pool and have not taken one since. */
  ghost function Owed(calls: map<int, Phase>): set<int> {
    set op | op in calls && calls[op] == Replenished
  }

  lemma TailOf(s: seq<int>)
    requires s != [] && Distinct(s)
    ensures Distinct(s[1..]) && s[0] !in s[1..] && Elements(s[1..]) == Elements(s) - {s[0]}
  {
    forall x | x in s && x != s[0]
      ensures x in s[1..]
    {
      var i :| 0 <= i < |s| && s[i] == x;
      assert s[1..][i - 1] == x;
    }
  }

  lemma AddedTo(s: seq<int>, x: int)
    requires Distinct(s) && x !in s
    ensures Distinct(s + [x]) && Elements(s + [x]) == Elements(s) + {x}
    ensures Distinct([x] + s) && Elements([x] + s) == Elements(s) + {x}
  {
    assert (s + [x])[|s|] == x && ([x] + s)[0] == x;
    forall y | y in s
      ensures y in s + [x] && y in [x] + s
    {
      var i :| 0 <= i < |s| && s[i] == y;
      assert (s + [x])[i] == y && ([x] + s)[i + 1] == y;
    }
  }

  lemma OwedChange(calls: map<int, Phase>, op: int, ph: Phase)
    ensures Owed(calls[op := ph]) == if ph == Replenished then Owed(calls) + {op} else Owed(calls) - {op}
    ensures Owed(calls - {op}) == Owed(calls) - {op}
  {
  }

  /** Control blocks are conserved: each pooled one is either idle or in use. */
  ghost predicate BlocksOk(cbQ: seq<int>, inUse: set<int>, pooled: set<int>) {
    Distinct(cbQ) && Elements(cbQ) + inUse == pooled && Elements(cbQ) !! inUse
  }

  /** Each operation sent is still being sent, deferred, or executed: one of the three, and once. */
  ghost predicate OpsOk(calls: set<int>, opQ: seq<int>, executed: seq<int>, sent: set<int>) {
    && Distinct(opQ) && Distinct(executed) && calls + Elements(opQ) + Elements(executed) == sent
    && calls !! Elements(opQ) && calls !! Elements(executed) && Elements(opQ) !! Elements(executed)
  }

  /** While operations wait, an idle block is one that some sender in mid-call has put there. */
  ghost predicate NoneIdles(opQ: seq<int>, cbQ: seq<int>, owed: set<int>) {
    opQ != [] ==> |cbQ| <= |owed|
  }

  /** A block in use carries an operation that has been executed with it, and no two carry the same one. */
  ghost predicate AllCarry(inUse: map<int, int>, executed: seq<int>) {
    && (forall cb {:trigger inUse[cb]} :: cb in inUse ==> inUse[cb] in executed)
    && (forall a, b {:trigger inUse[a], inUse[b]} :: a in inUse && b in inUse && a != b ==> inUse[a] != inUse[b])
  }

  lemma CarryMore(inUse: map<int, int>, executed: seq<int>, mcb: int, op: int)
    requires AllCarry(inUse, executed) && op !in executed
    ensures AllCarry(inUse[mcb := op], executed + [op])
  {
    assert (executed + [op])[|executed|] == op;
    forall cb | cb in inUse
      ensures inUse[cb] in executed + [op]
    {
      var i :| 0 <= i < |executed| && executed[i] == inUse[cb];
      assert (executed + [op])[i] == inUse[cb];
    }
  }

  lemma CarryLess(inUse: map<int, int>, executed: seq<int>, mcb: int)
    requires AllCarry(inUse, executed)
    ensures AllCarry(inUse - {mcb}, executed)
  {
  }

  lemma BlockAdded(cbQ: seq<int>, inUse: set<int>, pooled: set<int>, cb: int)
    requires BlocksOk(cbQ, inUse, pooled) && cb !in pooled
    ensures BlocksOk([cb] + cbQ, inUse, pooled + {cb})
  {
    assert cb in cbQ ==> cb in Elements(cbQ);
    AddedTo(cbQ, cb);
  }

  lemma BlockTaken(cbQ: seq<int>, inUse: set<int>, pooled: set<int>)
    requires BlocksOk(cbQ, inUse, pooled) && cbQ != []
    ensures cbQ[0] !in inUse && BlocksOk(cbQ[1..], inUse + {cbQ[0]}, pooled)
  {
    assert cbQ[0] in Elements(cbQ);
    TailOf(cbQ);
  }

  lemma BlockReturned(cbQ: seq<int>, inUse: set<int>, pooled: set<int>, cb: int)
    requires BlocksOk(cbQ, inUse, pooled) && cb in inUse
    ensures BlocksOk(cbQ + [cb], inUse - {cb}, pooled)
  {
    assert cb in cbQ ==> cb in Elements(cbQ);
    AddedTo(cbQ, cb);
  }

  lemma OpSent(calls: set<int>, opQ: seq<int>, executed: seq<int>, sent: set<int>, op: int)
    requires OpsOk(calls, opQ, executed, sent) && op !in sent
    ensures OpsOk(calls + {op}, opQ, executed, sent + {op}) && op !in calls
  {
  }

  lemma OpDeferred(calls: set<int>, opQ: seq<int>, executed: seq<int>, sent: set<int>, op: int)
    requires OpsOk(calls, opQ, executed, sent) && op in calls
    ensures OpsOk(calls - {op}, opQ + [op], executed, sent)
  {
    assert op in opQ ==> op in Elements(opQ);
    AddedTo(opQ, op);
  }

  lemma OpExecuted(calls: set<int>, opQ: seq<int>, executed: seq<int>, sent: set<int>, op: int)
    requires OpsOk(calls, opQ, executed, sent) && op in calls
    ensures OpsOk(calls - {op}, opQ, executed + [op], sent)
  {
    assert op in executed ==> op in Elements(executed);
    AddedTo(executed, op);
  }

  lemma NotYet(calls: set<int>, opQ: seq<int>, executed: seq<int>, sent: set<int>, op: int)
    requires OpsOk(calls, opQ, executed, sent) && (op in calls || op in opQ)
    ensures op !in executed
  {
    assert op in executed ==> op in Elements(executed);
    assert op in opQ ==> op in Elements(opQ);
  }

  lemma OpServed(calls: set<int>, opQ: seq<int>, executed: seq<int>, sent: set<int>)
    requires OpsOk(calls, opQ, executed, sent) && opQ != []
    ensures OpsOk(calls, opQ[1..], executed + [opQ[0]], sent)
  {
    var op := opQ[0];
    assert op in Elements(opQ);
    assert op in executed ==> op in Elements(executed);
    TailOf(opQ);
    AddedTo(executed, op);
  }

  lemma OneMore(owed: set<int>, op: int)
    requires op !in owed
    ensures |owed + {op}| == |owed| + 1
  {
  }

  lemma OneLess(owed: set<int>, op: int)
    ensures |owed| - 1 <= |owed - {op}| && (op !in owed ==> owed - {op} == owed)
  {
    if op !in owed {
      assert owed - {op} == owed;
    }
  }

  lemma KeysWith(calls: map<int, Phase>, op: int, ph: Phase)
    ensures calls[op := ph].Keys == calls.Keys + {op}
  {
  }

  lemma NotOwed(calls: map<int, Phase>, op: int)
    ensures op in calls && calls[op] != Replenished ==> op !in Owed(calls)
    ensures op !in calls ==> op !in Owed(calls)
  {
  }

  class Pool {
    var cbQ: seq<int>             // idle control blocks
    var opQ: seq<int>             // deferred operations
    var calls: map<int, Phase>    // calls of _udi_MA_send_op in progress, by the operation they send
    var inUse: map<int, int>      // control blocks in use, and the operation each carries
    var pooled: set<int>          // control blocks marked _UDI_CB_IN_MGMT_POOL
    ghost var sent: set<int>      // every operation ever handed to _udi_MA_send_op
    ghost var executed: seq<int>  // in the order of execution
    ghost var deferred: seq<int>  // every operation ever put on the queue, in order
    ghost var served: seq<int>    // those of them that were taken off again, in order

    ghost predicate Valid()
      reads this
    {
      && BlocksOk(cbQ, inUse.Keys, pooled) && OpsOk(calls.Keys, opQ, executed, sent)
      && served + opQ == deferred && NoneIdles(opQ, cbQ, Owed(calls)) && AllCarry(inUse, executed)
    }

    ghost function Now(): Stock
      reads this
    {
      Stock(cbQ, opQ, calls, inUse, pooled, sent, executed)
    }

    /** The pool as the management agent primes it: these blocks, all idle. */
    constructor (blocks: seq<int>)
      requires Distinct(blocks)
      ensures Valid() && Now() == Stock(blocks, [], map[], map[], Elements(blocks), {}, [])
    {
      cbQ, opQ, calls, inUse, pooled := blocks, [], map[], map[], set x | x in blocks;
      sent, executed, deferred, served := {}, [], [], [];
    }

    /** A call of _udi_MA_send_op begins. */
    method Send(op: int)
      requires Valid() && op !in sent
      modifies this
      ensures Valid() && sent == old(sent) + {op} && calls == old(calls)[op := Started]
      ensures executed == old(executed) && deferred == old(deferred) && served == old(served)
      ensures cbQ == old(cbQ) && opQ == old(opQ) && inUse == old(inUse) && pooled == old(pooled)
    {
      hide OpsOk, BlocksOk, Owed, AllCarry;
      OwedChange(calls, op, Started);
      OpSent(calls.Keys, opQ, executed, sent, op);
      OneLess(Owed(calls), op);
      NotOwed(calls, op);
      KeysWith(calls, op, Started);
      sent := sent + {op};
      calls := calls[op := Started];
    }

    /** First lock section: is there a block? */
    method Check(op: int)
      requires Valid() && op in calls && calls[op] == Started
      modifies this
      ensures Valid() && sent == old(sent) && executed == old(executed) && deferred == old(deferred)
        && served == old(served)
      ensures cbQ == old(cbQ) && opQ == old(opQ) && inUse == old(inUse) && pooled == old(pooled)
      ensures calls == old(calls)[op := if old(cbQ) == [] then FoundEmpty else Ready]
    {
      hide OpsOk, BlocksOk, Owed, AllCarry;
      var ph := if cbQ == [] then FoundEmpty else Ready;
      OwedChange(calls, op, ph);
      NotOwed(calls, op);
      OneLess(Owed(calls), op);
      calls := calls[op := ph];
      assert calls.Keys == old(calls.Keys);
    }

    /** _udi_MA_add_cb_to_pool_nowait: the new block, if there was memory for one, goes to the head of the pool. */
    method AddCb(op: int, cb: Option<int>)
      requires Valid() && op in calls && calls[op] == FoundEmpty && (cb.Some? ==> cb.value !in pooled)
      modifies this
      ensures Valid() && sent == old(sent) && executed == old(executed) && deferred == old(deferred)
        && served == old(served)
      ensures cbQ == (if cb.Some? then [cb.value] else []) + old(cbQ) && opQ == old(opQ) && inUse == old(inUse)
      ensures pooled == old(pooled) + if cb.Some? then {cb.value} else {}
      ensures calls == old(calls)[op := if cb.Some? then Replenished else Ready]
    {
      hide OpsOk, BlocksOk, Owed, AllCarry;
      assert [] + cbQ == cbQ;
      var ph := if cb.Some? then Replenished else Ready;
      OwedChange(calls, op, ph);
      NotOwed(calls, op);
      OneLess(Owed(calls), op);
      OneMore(Owed(calls), op);
      if cb.Some? {
        BlockAdded(cbQ, inUse.Keys, pooled, cb.value);
        pooled := pooled + {cb.value};
        cbQ := [cb.value] + cbQ;
      }
      calls := calls[op := ph];
      assert calls.Keys == old(calls.Keys);
    }

    /** Second lock section: take a block and execute, or defer. */
    method Take(op: int)
      requires Valid() && op in calls && (calls[op] == Replenished || calls[op] == Ready)
      modifies this
      ensures Valid() && sent == old(sent) && pooled == old(pooled) && calls == old(calls) - {op}
      ensures served == old(served) && deferred == old(deferred) + if old(cbQ) == [] then [op] else []
      ensures old(cbQ) == [] ==>
        cbQ == [] && opQ == old(opQ) + [op] && executed == old(executed) && inUse == old(inUse)
      ensures old(cbQ) != [] ==>
        && cbQ == old(cbQ)[1..] && opQ == old(opQ) && executed == old(executed) + [op]
        && inUse == old(inUse)[old(cbQ)[0] := op]
    {
      hide OpsOk, BlocksOk, Owed, AllCarry;
      assert deferred + [] == deferred;
      OwedChange(calls, op, Ready);
      OneLess(Owed(calls), op);
      assert (calls - {op}).Keys == calls.Keys - {op};
      if cbQ == [] {
        OpDeferred(calls.Keys, opQ, executed, sent, op);
        opQ := opQ + [op];
        deferred := deferred + [op];
      } else {
        BlockTaken(cbQ, inUse.Keys, pooled);
        NotYet(calls.Keys, opQ, executed, sent, op);
        CarryMore(inUse, executed, cbQ[0], op);
        OpExecuted(calls.Keys, opQ, executed, sent, op);
        var mcb := cbQ[0];
        cbQ := cbQ[1..];
        Use(mcb, op);
      }
      calls := calls - {op};
    }

    /** _udi_MA_use_cb_op: the block carries the operation to its target. */
    method Use(mcb: int, op: int)
      modifies this`inUse, this`executed
      ensures inUse == old(inUse)[mcb := op] && inUse.Keys == old(inUse.Keys) + {mcb}
        && executed == old(executed) + [op]
    {
      inUse := inUse[mcb := op];
      executed := executed + [op];
      assert inUse.Keys == old(inUse.Keys) + {mcb};
    }

    /** _udi_MA_return_cb: the block serves the oldest deferred operation, or idles. */
    method Return(mcb: int)
      requires Valid() && (mcb in pooled ==> mcb in inUse)
      modifies this
      ensures Valid() && sent == old(sent) && pooled == old(pooled) && calls == old(calls) && deferred == old(deferred)
      ensures mcb !in pooled ==> cbQ == old(cbQ) && opQ == old(opQ) && inUse == old(inUse) && executed == old(executed)
      ensures mcb in pooled && old(opQ) == [] ==>
        cbQ == old(cbQ) + [mcb] && opQ == [] && inUse == old(inUse) - {mcb} && executed == old(executed)
      ensures served == old(served) + if mcb in pooled && old(opQ) != [] then [old(opQ)[0]] else []
      ensures mcb in pooled && old(opQ) != [] ==>
                executed == old(executed) + [old(opQ)[0]] && opQ == old(opQ)[1..] && cbQ == old(cbQ)
                  && inUse == old(inUse)[mcb := old(opQ)[0]]
    {
      hide OpsOk, BlocksOk, Owed, AllCarry;
      assert served + [] == served;
      CarryLess(inUse, executed, mcb);
      if mcb !in pooled {
        return;
      }
      assert (inUse - {mcb}).Keys == inUse.Keys - {mcb};
      if opQ == [] {
        BlockReturned(cbQ, inUse.Keys, pooled, mcb);
        inUse := inUse - {mcb};
        cbQ := cbQ + [mcb];
      } else {
        NotYet(calls.Keys, opQ, executed, sent, opQ[0]);
        OpServed(calls.Keys, opQ, executed, sent);
        var op := opQ[0];
        CarryMore(inUse - {mcb}, executed, mcb, op);
        assert served + opQ == served + [op] + opQ[1..];
        opQ := opQ[1..];
        served := served + [op];
        inUse := inUse - {mcb};
        Use(mcb, op);
        assert inUse.Keys == old(inUse.Keys);
      }
    }

    lemma UsedIsPooled(mcb: int)
      requires Valid() && mcb in inUse
      ensures mcb in pooled
    {
      assert mcb in inUse.Keys;
    }

    /** With no sender in mid-call, no operation waits while a control block idles. */
    lemma NoneWaitsInVain()
      requires Valid() && calls == map[]
      ensures opQ == [] || cbQ == []
    {
      assert Owed(calls) == {};
    }

    /** Once nothing is in progress or deferred, every operation sent has been executed, and none twice. */
    lemma AllExecutedOnce()
      requires Valid() && calls == map[] && opQ == []
      ensures Elements(executed) == sent && Distinct(executed) && served == deferred
    {
      assert served + [] == served;
    }
  }

  /** One atomic step of some thread. */
  datatype Step =
    | StepSend(op: int)
    | StepCheck(op: int)
    | StepAdd(op: int, cb: Option<int>)
    | StepTake(op: int)
    | StepReturn(mcb: int)

  function SentIn(schedule: seq<Step>): set<int> {
    set s | s in schedule && s.StepSend? :: s.op
  }

  /** The pool as a value. */
  datatype Stock = Stock(cbQ: seq<int>, opQ: seq<int>, calls: map<int, Phase>, inUse: map<int, int>, pooled: set<int>,
      sent: set<int>, executed: seq<int>)

  /** What a step makes of the pool; a step that the program could not take next changes nothing. */
  ghost function Act(s: Stock, step: Step): Stock {
    match step
    case StepSend(op) =>
      if op in s.sent then s else s.(sent := s.sent + {op}, calls := s.calls[op := Started])
    case StepCheck(op) =>
      if op !in s.calls || s.calls[op] != Started then s
      else s.(calls := s.calls[op := if s.cbQ == [] then FoundEmpty else Ready])
    case StepAdd(op, cb) =>
      if op !in s.calls || s.calls[op] != FoundEmpty || (cb.Some? && cb.value in s.pooled) then s
      else if cb.None? then s.(calls := s.calls[op := Ready])
      else s.(calls := s.calls[op := Replenished], cbQ := [cb.value] + s.cbQ, pooled := s.pooled + {cb.value})
    case StepTake(op) =>
      if op !in s.calls || (s.calls[op] != Replenished && s.calls[op] != Ready) then s
      else if s.cbQ == [] then s.(calls := s.calls - {op}, opQ := s.opQ + [op])
      else s.(calls := s.calls - {op}, cbQ := s.cbQ[1..], inUse := s.inUse[s.cbQ[0] := op],
        executed := s.executed + [op])
    case StepReturn(mcb) =>
      if mcb !in s.inUse then s
      else if s.opQ == [] then s.(cbQ := s.cbQ + [mcb], inUse := s.inUse - {mcb})
      else s.(opQ := s.opQ[1..], inUse := s.inUse[mcb := s.opQ[0]], executed := s.executed + [s.opQ[0]])
  }

  ghost function Acts(blocks: seq<int>, schedule: seq<Step>): Stock {
    if schedule == [] then Stock(blocks, [], map[], map[], Elements(blocks), {}, [])
    else Act(Acts(blocks, schedule[..|schedule| - 1]), schedule[|schedule| - 1])
  }

  lemma ActsNext(blocks: seq<int>, schedule: seq<Step>, i: nat)
    requires i < |schedule|
    ensures Acts(blocks, schedule[..i + 1]) == Act(Acts(blocks, schedule[..i]), schedule[i])
  {
    assert schedule[..i + 1][..i] == schedule[..i];
  }

  /** One step of some thread, if the program could take it next. */
  method TakeStep(pool: Pool, step: Step, known: set<int>) returns (known': set<int>)
    requires pool.Valid() && pool.sent == known
    modifies pool
    ensures pool.Valid() && pool.sent == known' && pool.Now() == Act(old(pool.Now()), step)
  {
    hide Pool.Valid;
    known' := known;
    match step
    case StepSend(op) =>
      if op !in known {
        pool.Send(op);
        known' := known + {op};
      }
    case StepCheck(op) =>
      if op in pool.calls && pool.calls[op] == Started {
        pool.Check(op);
      }
    case StepAdd(op, cb) =>
      if op in pool.calls && pool.calls[op] == FoundEmpty && (cb.Some? ==> cb.value !in pool.pooled) {
        assert [] + pool.cbQ == pool.cbQ && pool.pooled + {} == pool.pooled;
        pool.AddCb(op, cb);
      }
    case StepTake(op) =>
      if op in pool.calls && (pool.calls[op] == Replenished || pool.calls[op] == Ready) {
        pool.Take(op);
      }
    case StepReturn(mcb) =>
      if mcb in pool.inUse {
        pool.UsedIsPooled(mcb);
        pool.Return(mcb);
      }
  }

  /** Every interleaving, from a pool primed with any blocks: each step that the program could take next is taken,
      the others are not. */
  method Interleave(blocks: seq<int>, schedule: seq<Step>) returns (pool: Pool)
    requires Distinct(blocks)
    ensures pool.Valid() && pool.Now() == Acts(blocks, schedule) && pool.sent == SentIn(schedule)
  {
    hide SentIn, Pool.Valid, Act, Acts;
    NoneSent();
    pool := new Pool(blocks);
    var known: set<int> := {};
    NoActs(blocks);
    for i := 0 to |schedule|
      invariant fresh(pool) && pool.Valid() && pool.Now() == Acts(blocks, schedule[..i])
      invariant pool.sent == known == SentIn(schedule[..i])
    {
      SentNext(schedule, i);
      ActsNext(blocks, schedule, i);
      ActSent(pool.Now(), schedule[i]);
      known := TakeStep(pool, schedule[i], known);
    }
    assert schedule[..|schedule|] == schedule;
  }

  lemma NoActs(blocks: seq<int>)
    ensures forall schedule: seq<Step> {:trigger Acts(blocks, schedule[..0])} ::
      Acts(blocks, schedule[..0]) == Stock(blocks, [], map[], map[], Elements(blocks), {}, [])
  {
  }

  lemma ActSent(s: Stock, step: Step)
    ensures Act(s, step).sent == s.sent + if step.StepSend? then {step.op} else {}
  {
  }

  lemma NoneSent()
    ensures forall schedule: seq<Step> {:trigger SentIn(schedule[..0])} :: SentIn(schedule[..0]) == {}
  {
  }

  lemma SentNext(schedule: seq<Step>, i: nat)
    requires i < |schedule|
    ensures SentIn(schedule[..i + 1]) == SentIn(schedule[..i]) + if schedule[i].StepSend? then {schedule[i].op} else {}
  {
    var a, b := SentIn(schedule[..i]), SentIn(schedule[..i + 1]);
    forall op | op in a || (schedule[i].StepSend? && op == schedule[i].op)
      ensures op in b
    {
      if op in a {
        var s :| s in schedule[..i] && s.StepSend? && s.op == op;
        assert s in schedule[..i + 1];
      } else {
        assert schedule[i] == schedule[..i + 1][i];
      }
    }
  }
}
