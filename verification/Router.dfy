/** The workers' routines over the shared buffers of `Ownership`. Every lock-protected
    region is one atomic method and one step of the worker; between two of them the
    other workers may take any steps (`Others`). The state is at all times the
    result of the run so far (`Valid`), and each routine says which steps of that run
    were its own. */
module Router {
  import opened Arith
  import opened Ownership
  import opened Routing

  class Gateway {
    const setup: Setup
    var pool: nat
    var free: seq<Buf>
    var queues: seq<Fifo>
    var tx: seq<Buf>
    var rx: seq<Buf>
    var firewall: multiset<Buf>
    var hands: seq<multiset<Buf>>

    /** The run so far, of all workers, and where it began. */
    ghost const start: World
    ghost var trace: seq<Action>

    ghost function View(): World
      reads this
    {
      World(pool, free, queues, tx, rx, firewall, hands)
    }

    ghost predicate Valid()
      reads this
    {
      Shaped(setup, start) && Run(setup, start, trace) == Go(View())
    }

    /** The next step of the run, which by `Valid` gives the new state. */
    twostate predicate Does(a: Action)
      reads this
    {
      trace == old(trace) + [a]
    }

    /** The own steps of worker `w` were these. */
    twostate predicate Did(w: nat, steps: seq<Action>)
      reads this
    {
      Done(old(trace), trace, w, steps)
    }

    /** They were, and `w` has left its bursts and its end of the rings alone. */
    twostate predicate Moves(w: nat, steps: seq<Action>)
      requires old(Valid())
      reads this
    {
      Moved(setup, w, old(View()), old(trace), View(), trace, steps)
    }

    /** Before any buffer is made. */
    constructor (setup: Setup, workers: nat)
      requires |setup.caps| == |setup.consumer|
      ensures this.setup == setup && Valid() && trace == [] && View() == start == Empty(setup, workers)
    {
      this.setup, pool, free, tx, rx, firewall := setup, 0, [], [], [], multiset{};
      queues := seq(|setup.caps|, _ => Fifo([], 0, 0));
      hands := seq(workers, _ => multiset{});
      start, trace := Empty(setup, workers), [];
    }

    /** Whatever the routines have done, each buffer that was made is at exactly one place. */
    lemma OwnersArePartitioned(workers: nat, b: Buf)
      requires Valid() && start == Empty(setup, workers)
      ensures if b < pool then exists p :: OnlyAt(View(), p, b) else forall p :: At(View(), p, b) == 0
    {
      OwnershipIsAPartition(setup, workers, trace, b);
    }

    /** And what was put into a queue is what was taken from it and what it still owns. */
    lemma QueueIsInOrder(workers: nat, j: nat)
      requires Valid() && start == Empty(setup, workers) && j < |setup.caps|
      ensures Into(setup, start, trace, j) == OutOf(setup, start, trace, j) + Own(queues[j])
    {
      QueuesKeepOrder(setup, start, trace, j);
    }

    /** The other workers take any steps in the meantime. */
    method Others(w: nat)
      requires Valid() && w < |hands|
      modifies this
      ensures Valid() && Did(w, [])
    {
    }

    /** None of them touches what worker `w` has or works on. */
    method Meanwhile(w: nat)
      requires Valid() && w < |hands|
      modifies this
      ensures Valid() && Moves(w, []) && Kept(setup, w, old(View()), View())
    {
      ghost var t := trace;
      Others(w);
      OthersKeep(setup, start, t, trace, w);
    }

    // --------------------------------------------------------- atomic regions

    /** `ok`: there is memory for them. */
    method Increase(w: nat, n: nat, ok: bool) returns (panic: bool)
      requires Valid() && w < |hands|
      modifies this
      ensures panic == !ok && (panic ==> View() == old(View()) && trace == old(trace))
      ensures !panic ==> Does(Grow(w, n)) && Moves(w, [Grow(w, n)]) && hands == old(hands)
      ensures Valid()
    {
      panic := !ok;
      if panic {
        return;
      }
      OwnStepIsCalm(setup, View(), Grow(w, n));
      ghost var before := View();
      free := Made(pool, n) + free;
      pool := pool + n;
      Record(setup, start, trace, before, Grow(w, n), View());
      trace := trace + [Grow(w, n)];
    }

    method AllocBuf(w: nat) returns (panic: bool, b: Buf)
      requires Valid() && w < |hands|
      modifies this
      ensures panic <==> Step(setup, old(View()), Alloc(w)).Panic?
      ensures panic ==> View() == old(View()) && trace == old(trace)
      ensures !panic ==> Does(Alloc(w)) && Moves(w, [Alloc(w)]) && hands[w] == old(hands[w]) + multiset{b}
      ensures !panic ==> b == old(free)[0]
      ensures Valid()
    {
      panic, b := free == [], 0;
      if panic {
        return;
      }
      OwnStepIsCalm(setup, View(), Alloc(w));
      ghost var before := View();
      b := free[0];
      free := free[1..];
      hands := hands[w := hands[w] + multiset{b}];
      Record(setup, start, trace, before, Alloc(w), View());
      trace := trace + [Alloc(w)];
    }

    method FreeBuf(w: nat, b: Buf)
      requires Valid() && w < |hands| && b in hands[w]
      modifies this
      ensures Valid() && Does(Free(w, b)) && Moves(w, [Free(w, b)]) && hands[w] + multiset{b} == old(hands[w])
    {
      OwnStepIsCalm(setup, View(), Free(w, b));
      ghost var before := View();
      free := [b] + free;
      hands := hands[w := hands[w] - multiset([b])];
      Record(setup, start, trace, before, Free(w, b), View());
      trace := trace + [Free(w, b)];
    }

    method KeepBuf(w: nat, b: Buf)
      requires Valid() && w < |hands| && b in hands[w]
      modifies this
      ensures Valid() && Does(Keep(w, b)) && Moves(w, [Keep(w, b)]) && hands[w] + multiset{b} == old(hands[w])
    {
      OwnStepIsCalm(setup, View(), Keep(w, b));
      ghost var before := View();
      firewall := firewall + multiset{b};
      hands := hands[w := hands[w] - multiset([b])];
      Record(setup, start, trace, before, Keep(w, b), View());
      trace := trace + [Keep(w, b)];
    }

    method Enqueue(w: nat, j: nat, bs: seq<Buf>) returns (added: nat)
      requires Valid() && w < |hands| && j < |queues| && multiset(bs) <= hands[w]
      modifies this
      ensures Valid() && Does(Append(w, j, bs)) && Moves(w, [Append(w, j, bs)])
      ensures added <= |bs| && added == Min(|bs|, setup.caps[j] - |old(queues[j]).items|)
      ensures hands[w] + multiset(bs[..added]) == old(hands[w])
    {
      OwnStepIsCalm(setup, View(), Append(w, j, bs));
      ghost var before := View();
      var q := queues[j];
      added := Min(|bs|, setup.caps[j] - |q.items|);
      assert added == Fit(setup, View(), j, bs);
      TakenOut(bs, added, hands[w]);
      hands := hands[w := hands[w] - multiset(bs[..added])];
      queues := queues[j := q.(items := q.items + bs[..added])];
      Record(setup, start, trace, before, Append(w, j, bs), View());
      trace := trace + [Append(w, j, bs)];
    }

    // -------------------------------------------------------------- the router

    /** Allocates after whatever the others have done. */
    method AllocLater(w: nat) returns (panic: bool, b: Buf)
      requires Valid() && w < |hands|
      modifies this
      ensures Valid() && |hands| == |old(hands)|
      ensures !panic ==> Moves(w, [Alloc(w)]) && hands[w] == old(hands[w]) + multiset{b}
    {
      ghost var v, t := View(), trace;
      Meanwhile(w);
      ghost var v1, t1 := View(), trace;
      panic, b := AllocBuf(w);
      if !panic {
        MovedTrans(setup, w, v, t, v1, t1, View(), trace, [], [Alloc(w)]);
        assert [] + [Alloc(w)] == [Alloc(w)];
      }
    }

    /** Frees `b` after whatever the others have done. */
    method FreeLater(w: nat, b: Buf)
      requires Valid() && w < |hands| && b in hands[w]
      modifies this
      ensures Valid() && Moves(w, [Free(w, b)]) && hands[w] + multiset{b} == old(hands[w])
    {
      ghost var v, t := View(), trace;
      Meanwhile(w);
      ghost var v1, t1 := View(), trace;
      FreeBuf(w, b);
      MovedTrans(setup, w, v, t, v1, t1, View(), trace, [], [Free(w, b)]);
      assert [] + [Free(w, b)] == [Free(w, b)];
    }

    /** Frees every one of `bs`. */
    method FreeAll(w: nat, bs: seq<Buf>)
      requires Valid() && w < |hands| && multiset(bs) <= hands[w]
      modifies this
      ensures Valid() && Moves(w, Frees(w, bs)) && hands[w] + multiset(bs) == old(hands[w])
    {
      var i := 0;
      ghost var v, t := View(), trace;
      while i < |bs|
        invariant 0 <= i <= |bs| && Valid() && Moved(setup, w, v, t, View(), trace, Frees(w, bs[..i]))
        invariant hands[w] + multiset(bs[..i]) == v.hands[w]
      {
        StillThere(v.hands[w], hands[w], bs, i, multiset{});
        PrefixStep(bs, i);
        FreesNext(w, bs, i);
        ghost var v1, t1 := View(), trace;
        FreeLater(w, bs[i]);
        MovedTrans(setup, w, v, t, v1, t1, View(), trace, Frees(w, bs[..i]), [Free(w, bs[i])]);
        i := i + 1;
      }
      assert bs[..i] == bs;
    }

    /** Appends what fits after whatever the others have done. */
    method EnqueueLater(w: nat, j: nat, bs: seq<Buf>) returns (added: nat)
      requires Valid() && w < |hands| && j < |queues| && multiset(bs) <= hands[w]
      modifies this
      ensures Valid() && Moves(w, [Append(w, j, bs)])
      ensures added <= |bs| && hands[w] + multiset(bs[..added]) == old(hands[w])
    {
      ghost var v, t := View(), trace;
      Meanwhile(w);
      ghost var v1, t1 := View(), trace;
      added := Enqueue(w, j, bs);
      MovedTrans(setup, w, v, t, v1, t1, View(), trace, [], [Append(w, j, bs)]);
      assert [] + [Append(w, j, bs)] == [Append(w, j, bs)];
    }

    /** Enqueues on interface `j` and frees what does not fit. */
    method DoMenqueue(w: nat, j: nat, bs: seq<Buf>) returns (added: nat)
      requires Valid() && w < |hands| && j < |queues| && multiset(bs) <= hands[w]
      modifies this
      ensures added <= |bs|
      ensures Valid() && Moves(w, Sending(w, j, bs, added)) && hands[w] + multiset(bs) == old(hands[w])
    {
      added := 0;
      ghost var v, t := View(), trace;
      if |bs| == 0 {
        assert Moved(setup, w, v, t, v, t, []);
        return;
      }
      added := EnqueueLater(w, j, bs);
      ghost var v1, t1 := View(), trace;
      RestFits(v.hands[w], v1.hands[w], bs, added);
      FreeAll(w, bs[added..]);
      GiveBoth(v.hands[w], v1.hands[w], hands[w], bs, added);
      MovedTrans(setup, w, v, t, v1, t1, View(), trace, [Append(w, j, bs)], Frees(w, bs[added..]));
    }

    /** Sends an ARP request of its own; fails only by panicking on an empty pool. */
    method ArpRequest(w: nat, j: nat) returns (panic: bool, ghost steps: seq<Action>)
      requires Valid() && w < |hands| && j < |queues|
      modifies this
      ensures Valid() && |hands| == |old(hands)|
      ensures !panic ==> Moves(w, steps) && Asks(w, j, steps) && hands[w] == old(hands[w])
    {
      ghost var v, t := View(), trace;
      var m;
      steps := [];
      panic, m := AllocBuf(w);
      if !panic {
        ghost var v1, t1 := View(), trace;
        assert multiset([m]) == multiset{m};
        var added := DoMenqueue(w, j, [m]);
        steps := [Alloc(w)] + Sending(w, j, [m], added);
        MovedTrans(setup, w, v, t, v1, t1, View(), trace, [Alloc(w)], Sending(w, j, [m], added));
        Cancel(hands[w], v.hands[w], multiset{m});
      }
    }

    /** Asks for the address of the next hop and gives up on the packet. */
    method AskAndFree(w: nat, j: nat, m: Buf) returns (panic: bool, ghost steps: seq<Action>)
      requires Valid() && w < |hands| && j < |queues| && m in hands[w]
      modifies this
      ensures Valid()
      ensures !panic ==> Moves(w, steps) && hands[w] + multiset{m} == old(hands[w])
      ensures !panic ==>
                |steps| > 0 && steps[|steps| - 1] == Free(w, m) && Asks(w, j, steps[..|steps| - 1])
    {
      ghost var v, t := View(), trace;
      panic, steps := ArpRequest(w, j);
      if !panic {
        ghost var v1, t1, asked := View(), trace, steps;
        FreeLater(w, m);
        steps := asked + [Free(w, m)];
        assert steps[..|steps| - 1] == asked;
        MovedTrans(setup, w, v, t, v1, t1, View(), trace, asked, [Free(w, m)]);
      }
    }

    /** Everything the router does with one packet before the batches go out. */
    method RouteOne(w: nat, own: nat, m: Buf, fate: Fate) returns (panic: bool, routed: bool, ghost steps: seq<Action>)
      requires Valid() && w < |hands| && own < |queues| && m in hands[w]
      requires fate.Unresolved? && fate.ask ==> fate.idx < |queues|
      modifies this
      ensures Valid() && (routed <==> fate.Forward?)
      ensures !panic ==> Moves(w, steps) && Handles(w, own, m, fate, steps)
      ensures !panic ==> hands[w] + (if routed then multiset{} else multiset{m}) == old(hands[w])
    {
      panic, routed, steps := false, false, [];
      ghost var v := View();
      if fate.Forward? {
        routed := true;
        assert Moved(setup, w, v, trace, v, trace, []);
      } else if fate.ArpReply? {
        assert multiset([m]) == multiset{m};
        var added := DoMenqueue(w, own, [m]);
        steps := Sending(w, own, [m], added);
      } else if (fate.InDrop? || fate.OutDrop?) && fate.kept {
        KeepBuf(w, m);
        steps := [Keep(w, m)];
      } else if fate.Unresolved? && fate.ask {
        panic, steps := AskAndFree(w, fate.idx, m);
      } else {
        FreeBuf(w, m);
        steps := [Free(w, m)];
      }
    }

    /** A forwarded packet goes to its batch and its interface into the mask. */
    static method SortIn(batches: seq<seq<Buf>>, mask: set<nat>, pkts: seq<Buf>, fates: seq<Fate>, i: nat)
      returns (more: seq<seq<Buf>>, named: set<nat>)
      requires i < |pkts| == |fates| && Batched(batches, mask, pkts[..i], fates[..i])
      requires fates[i].Forward? ==> 1 <= fates[i].idx < |batches|
      ensures |more| == |batches| && Batched(more, named, pkts[..i + 1], fates[..i + 1])
    {
      BatchedNext(batches, mask, pkts, fates, i);
      more, named := batches, mask;
      if fates[i].Forward? {
        var j := fates[i].idx;
        more := batches[j := batches[j] + [pkts[i]]];
        if j < MASK_BITS {
          named := mask + {j};
        }
      }
    }

    /** The first loop of `RouterIfInput`. */
    method RouteAll(w: nat, own: nat, pkts: seq<Buf>, fates: seq<Fate>)
      returns (panic: bool, batches: seq<seq<Buf>>, mask: set<nat>, ghost parts: seq<seq<Action>>)
      requires Valid() && w < |hands| && own < |queues| && |pkts| == |fates| && multiset(pkts) <= hands[w]
      requires Routable(fates, |queues| - 1)
      modifies this
      ensures Valid()
      ensures !panic ==> Moves(w, Flat(parts)) && |parts| == |pkts| && Handled(w, own, pkts, fates, parts)
      ensures !panic ==> hands[w] + multiset(pkts) == old(hands[w]) + multiset(Left(pkts, fates, 0))
      ensures !panic ==> |batches| == |queues| && Batched(batches, mask, pkts, fates)
    {
      panic, batches, mask, parts := false, seq(|queues|, _ => []), {}, [];
      ghost var v, t := View(), trace;
      var i := 0;
      while i < |pkts|
        invariant 0 <= i <= |pkts| && |batches| == |queues| == |setup.caps| && !panic
        invariant Batched(batches, mask, pkts[..i], fates[..i])
        invariant Valid() && Moved(setup, w, v, t, View(), trace, Flat(parts))
        invariant |parts| == i && Handled(w, own, pkts, fates, parts)
        invariant hands[w] + multiset(pkts[..i]) == v.hands[w] + multiset(Left(pkts[..i], fates[..i], 0))
      {
        ghost var u := View();
        StillThere(v.hands[w], hands[w], pkts, i, multiset(Left(pkts[..i], fates[..i], 0)));
        panic, parts := RouteNext(w, own, pkts, fates, parts, v, t, i);
        if panic {
          return;
        }
        RouteStep(v.hands[w], u.hands[w], hands[w], pkts, fates, i);
        batches, mask := SortIn(batches, mask, pkts, fates, i);
        i := i + 1;
      }
      assert pkts[..i] == pkts && fates[..i] == fates;
    }

    /** The next packet, with what it means for the loop's steps. */
    method RouteNext(w: nat, own: nat, pkts: seq<Buf>, fates: seq<Fate>,
                     ghost before: seq<seq<Action>>, ghost v: World, ghost t: seq<Action>, i: nat)
      returns (panic: bool, ghost parts: seq<seq<Action>>)
      requires Valid() && w < |hands| && own < |queues| && i == |before| < |pkts| == |fates| && pkts[i] in hands[w]
      requires Routable(fates, |queues| - 1) && Handled(w, own, pkts, fates, before)
      requires Shaped(setup, v) && Moved(setup, w, v, t, View(), trace, Flat(before))
      modifies this
      ensures Valid()
      ensures !panic ==> Moved(setup, w, v, t, View(), trace, Flat(parts))
      ensures !panic ==> |parts| == i + 1 && Handled(w, own, pkts, fates, parts)
      ensures !panic ==> hands[w] + (if fates[i].Forward? then multiset{} else multiset{pkts[i]}) == old(hands[w])
    {
      ghost var v1, t1 := View(), trace;
      var routed;
      ghost var part;
      panic, routed, part := RouteOne(w, own, pkts[i], fates[i]);
      parts := before + [part];
      if !panic {
        MovedTrans(setup, w, v, t, v1, t1, View(), trace, Flat(before), part);
        FlatNext(before, part);
      }
    }

    /** Since `v` the batches below `j` have gone out; `rest` is what the worker holds
        besides the packets. */
    ghost predicate SentBelow(w: nat, pkts: seq<Buf>, fates: seq<Fate>, rest: multiset<Buf>, j: nat,
                              v: World, t: seq<Action>, parts: seq<seq<Action>>)
      requires |pkts| == |fates| && Shaped(setup, v)
      reads this
    {
      && Valid() && w < |hands| && hands[w] == rest + multiset(Left(pkts, fates, j))
      && Moved(setup, w, v, t, View(), trace, Flat(parts)) && |parts| == j - 1 && Sent(w, pkts, fates, parts)
    }

    /** The second loop of `RouterIfInput`: one append for each used interface. */
    method SendAll(w: nat, ghost pkts: seq<Buf>, ghost fates: seq<Fate>, batches: seq<seq<Buf>>, mask: set<nat>,
                   ghost rest: multiset<Buf>)
      returns (ghost parts: seq<seq<Action>>)
      requires Valid() && w < |hands| && |pkts| == |fates| && |batches| == |setup.caps| > 0
      requires Batched(batches, mask, pkts, fates) && hands[w] == rest + multiset(Left(pkts, fates, 1))
      modifies this
      ensures SentBelow(w, pkts, fates, rest, |setup.caps|, old(View()), old(trace), parts)
    {
      ghost var v, t := View(), trace;
      parts := [];
      var j := 1;
      while j < |batches|
        invariant 1 <= j <= |batches| && SentBelow(w, pkts, fates, rest, j, v, t, parts)
      {
        parts := SendNext(w, j, pkts, fates, batches, mask, rest, parts, v, t);
        j := j + 1;
      }
    }

    /** Batch `j`, with what it means for the loop's state. */
    method SendNext(w: nat, j: nat, ghost pkts: seq<Buf>, ghost fates: seq<Fate>, batches: seq<seq<Buf>>,
                    mask: set<nat>, ghost rest: multiset<Buf>, ghost before: seq<seq<Action>>, ghost v: World,
                    ghost t: seq<Action>)
      returns (ghost parts: seq<seq<Action>>)
      requires |pkts| == |fates| && |batches| == |setup.caps| && 1 <= j < |batches| && Shaped(setup, v)
      requires Batched(batches, mask, pkts, fates) && SentBelow(w, pkts, fates, rest, j, v, t, before)
      modifies this
      ensures SentBelow(w, pkts, fates, rest, j + 1, v, t, parts)
    {
      LeftSplits(pkts, fates, j, rest);
      ghost var v1, t1 := View(), trace;
      ghost var part := SendBatch(w, j, batches[j], j in mask, rest + multiset(Left(pkts, fates, j + 1)));
      parts := before + [part];
      MovedTrans(setup, w, v, t, v1, t1, View(), trace, Flat(before), part);
      FlatNext(before, part);
    }

    /** One batch goes out if the mask names it; `rest` stays. */
    method SendBatch(w: nat, j: nat, batch: seq<Buf>, named: bool, ghost rest: multiset<Buf>)
      returns (ghost steps: seq<Action>)
      requires Valid() && w < |hands| && j < |queues|
      requires hands[w] == if named then rest + multiset(batch) else rest
      requires named <==> j < MASK_BITS && batch != []
      modifies this
      ensures Valid() && Moves(w, steps) && SendsOne(w, j, batch, steps) && hands[w] == rest
    {
      ghost var v := View();
      steps := [];
      if named {
        var added := DoMenqueue(w, j, batch);
        steps := Sending(w, j, batch, added);
        Cancel(hands[w], rest, multiset(batch));
      } else {
        assert Moved(setup, w, v, trace, v, trace, []);
        assert j < MASK_BITS ==> Sending(w, j, batch, 0) == [];
      }
    }

    /** Routes a burst, or frees it all when there is no memory to sort it. Of the packets
        only those stay in hand that are for an interface the mask cannot name. */
    method RouterIfInput(w: nat, own: nat, pkts: seq<Buf>, fates: seq<Fate>, oom: bool)
      returns (panic: bool, ghost handled: seq<seq<Action>>, ghost sent: seq<seq<Action>>)
      requires Valid() && w < |hands| && own < |queues| && |pkts| == |fates| && multiset(pkts) <= hands[w]
      requires Routable(fates, |queues| - 1)
      modifies this
      ensures Valid()
      ensures !panic && oom ==> Moves(w, Frees(w, pkts)) && hands[w] + multiset(pkts) == old(hands[w])
      ensures !panic && !oom ==>
                && Moves(w, Flat(handled) + Flat(sent)) && |queues| == |old(queues)|
                && Routes(w, own, pkts, fates, |queues| - 1, handled, sent)
                && hands[w] + multiset(pkts) == old(hands[w]) + multiset(Left(pkts, fates, |queues|))
    {
      panic, handled, sent := false, [], [];
      ghost var v, t := View(), trace;
      if oom {
        FreeAll(w, pkts);
        return;
      }
      var batches, mask;
      panic, batches, mask, handled := RouteAll(w, own, pkts, fates);
      if panic {
        return;
      }
      ghost var v1, t1, rest := View(), trace, v.hands[w] - multiset(pkts);
      AfterRouting(v.hands[w], hands[w], pkts, fates, |queues| - 1);
      sent := SendAll(w, pkts, fates, batches, mask, rest);
      MovedTrans(setup, w, v, t, v1, t1, View(), trace, Flat(handled), Flat(sent));
      AfterSending(v.hands[w], hands[w], pkts, multiset(Left(pkts, fates, |queues|)));
    }

    // ------------------------------------------------------------------ bursts

    method LookUp(w: nat, j: nat, n: nat)
      requires Valid() && w < |hands| && j < |queues| && setup.consumer[j] == w
      requires queues[j].burst == 0 && n <= |queues[j].items|
      modifies this`queues, this`trace
      ensures Valid() && Does(Peek(w, j, n)) && Did(w, [Peek(w, j, n)])
      ensures queues == old(queues)[j := old(queues[j]).(burst := n)]
    {
      ghost var before := View();
      queues := queues[j := queues[j].(burst := n)];
      Record(setup, start, trace, before, Peek(w, j, n), View());
      trace := trace + [Peek(w, j, n)];
    }

    method HandOn(w: nat, j: nat) returns (b: Buf)
      requires Valid() && w < |hands| && j < |queues| && setup.consumer[j] == w
      requires queues[j].handed < queues[j].burst
      modifies this
      ensures Valid() && Does(TakeNext(w, j)) && Did(w, [TakeNext(w, j)])
      ensures old(queues[j]).handed < |old(queues[j]).items| && View() == Handed(old(View()), w, j)
      ensures b == old(queues[j]).items[old(queues[j]).handed]
    {
      ghost var before := View();
      HandsOn(setup, before, w, j);
      var q := queues[j];
      b := q.items[q.handed];
      queues := queues[j := q.(handed := q.handed + 1)];
      hands := hands[w := hands[w] + multiset{b}];
      assert View() == Handed(before, w, j);
      Record(setup, start, trace, before, TakeNext(w, j), View());
      trace := trace + [TakeNext(w, j)];
    }

    method DropBurst(w: nat, j: nat)
      requires Valid() && w < |hands| && j < |queues| && setup.consumer[j] == w
      modifies this`queues, this`trace
      ensures Valid() && Does(Finish(w, j)) && Did(w, [Finish(w, j)])
      ensures old(queues[j]).handed <= |old(queues[j]).items|
      ensures queues == old(queues)[j := Fifo(old(queues[j]).items[old(queues[j]).handed..], 0, 0)]
    {
      ghost var before := View();
      var q := queues[j];
      queues := queues[j := Fifo(q.items[q.handed..], 0, 0)];
      Record(setup, start, trace, before, Finish(w, j), View());
      trace := trace + [Finish(w, j)];
    }

    /** The consumer of queue `j` looks up a burst of `n` and hands on the first `k`. */
    method TakeBurst(w: nat, j: nat, n: nat, k: nat) returns (out: seq<Buf>)
      requires Valid() && w < |hands| && j < |queues| && setup.consumer[j] == w
      requires queues[j].burst == 0 && k <= n <= |queues[j].items|
      modifies this
      ensures Valid() && |out| == k && Did(w, [Peek(w, j, n)] + Takes(w, j, k))
      ensures Handing(old(View()), View(), w, j, n, out, out)
    {
      out := [];
      ghost var v, t := View(), trace;
      LookUp(w, j, n);
      ghost var peek := [Peek(w, j, n)];
      assert peek + Takes(w, j, 0) == peek;
      while |out| < k
        invariant |out| <= k && Valid() && Handing(v, View(), w, j, n, out, out)
        invariant Done(t, trace, w, peek + Takes(w, j, |out|))
      {
        ghost var t1 := trace;
        var b := HandLater(w, j, v, n, out, out);
        DoneTrans(t, t1, trace, w, peek + Takes(w, j, |out|), [TakeNext(w, j)]);
        assert peek + Takes(w, j, |out|) + [TakeNext(w, j)] == peek + Takes(w, j, |out| + 1);
        out := out + [b];
      }
    }

    /** Hands on the next packet after whatever the others have done. */
    method HandLater(w: nat, j: nat, ghost v: World, ghost n: nat, ghost out: seq<Buf>, ghost held: seq<Buf>)
      returns (b: Buf)
      requires Valid() && w < |hands| && j < |queues| && setup.consumer[j] == w
      requires |v.hands| == |hands| && |v.queues| == |queues| && |out| < n <= |v.queues[j].items|
      requires Handing(v, View(), w, j, n, out, held)
      modifies this
      ensures Valid() && Did(w, [TakeNext(w, j)]) && Handing(v, View(), w, j, n, out + [b], held + [b])
      ensures w == setup.submitter ==> |tx| <= |old(tx)|
    {
      ghost var u, t := View(), trace;
      Meanwhile(w);
      HandingKept(setup, v, u, View(), w, j, n, out, held);
      ghost var u1, t1 := View(), trace;
      b := HandOn(w, j);
      HandingNext(v, u1, View(), w, j, n, out, held, b);
      DoneTrans(t, t1, trace, w, [], [TakeNext(w, j)]);
      assert [] + [TakeNext(w, j)] == [TakeNext(w, j)];
    }

    /** The burst is over: the queue has lost exactly what was handed on. */
    method EndBurst(w: nat, j: nat, ghost items: seq<Buf>, ghost k: nat)
      requires Valid() && w < |hands| && j < |queues| && setup.consumer[j] == w
      requires queues[j].handed == k <= |items| && items <= queues[j].items
      modifies this
      ensures |queues| == |old(queues)| && |hands| == |old(hands)|
      ensures Valid() && Did(w, [Finish(w, j)]) && hands[w] == old(hands[w])
      ensures queues[j].burst == 0 == queues[j].handed && items[k..] <= queues[j].items
    {
      ghost var u, t := View(), trace;
      Meanwhile(w);
      assert SameBurst(u.queues[j], queues[j]);
      ghost var t1 := trace;
      DropBurst(w, j);
      DoneTrans(t, t1, trace, w, [], [Finish(w, j)]);
      assert [] + [Finish(w, j)] == [Finish(w, j)];
    }

    /** The ingress half of the FEC route worker's poll: a burst of the ingress queue is
        routed, and only then dropped. */
    method RouteIngress(w: nat, own: nat, n: nat, fates: seq<Fate>, oom: bool)
      returns (panic: bool, pkts: seq<Buf>, ghost handled: seq<seq<Action>>, ghost sent: seq<seq<Action>>)
      requires Valid() && w < |hands| && own < |queues| && setup.consumer[0] == w
      requires queues[0].burst == 0 && n == |fates| <= |queues[0].items| && Routable(fates, |queues| - 1)
      modifies this
      ensures Valid() && |pkts| == n && pkts == old(queues[0]).items[..n]
      ensures !panic ==> |hands| == |old(hands)| && |queues| == |old(queues)|
      ensures !panic ==>
                Did(w, [Peek(w, 0, n)] + Takes(w, 0, n)
                    + (if oom then Frees(w, pkts) else Flat(handled) + Flat(sent)) + [Finish(w, 0)])
      ensures !panic && !oom ==> Routes(w, own, pkts, fates, |queues| - 1, handled, sent)
      ensures !panic ==> hands[w] == old(hands[w]) + if oom then multiset{} else multiset(Left(pkts, fates, |queues|))
      ensures !panic ==> queues[0].burst == 0 == queues[0].handed && old(queues[0]).items[n..] <= queues[0].items
    {
      ghost var v, t := View(), trace;
      pkts := TakeBurst(w, 0, n, n);
      ghost var u, t1 := View(), trace;
      panic, handled, sent := RouterIfInput(w, own, pkts, fates, oom);
      if panic {
        return;
      }
      assert SameBurst(u.queues[0], queues[0]);
      Returned(v.hands[w], u.hands[w], hands[w], multiset(pkts),
               if oom then multiset{} else multiset(Left(pkts, fates, |queues|)));
      ghost var t2, steps := trace, if oom then Frees(w, pkts) else Flat(handled) + Flat(sent);
      EndBurst(w, 0, v.queues[0].items, n);
      DoneTrans(t, t1, t2, w, [Peek(w, 0, n)] + Takes(w, 0, n), steps);
      DoneTrans(t, t2, trace, w, [Peek(w, 0, n)] + Takes(w, 0, n) + steps, [Finish(w, 0)]);
    }

    // ------------------------------------------------------------------- rings

    /** Fills a transmit slot; there must be one. */
    method SubmitBuf(w: nat, b: Buf)
      requires Valid() && w < |hands| && w == setup.submitter && b in hands[w] && |tx| < setup.txSlots
      modifies this
      ensures Valid() && Does(Submit(w, b)) && Did(w, [Submit(w, b)])
      ensures View() == Lose(old(View()), w, [b]).(tx := old(tx) + [b])
    {
      ghost var before := View();
      tx := tx + [b];
      hands := hands[w := hands[w] - multiset([b])];
      assert View() == Lose(before, w, [b]).(tx := before.tx + [b]);
      Record(setup, start, trace, before, Submit(w, b), View());
      trace := trace + [Submit(w, b)];
    }

    /** Hands on the next packet of the burst to the transmit ring or, if it cannot be
        mapped, to the free list. Only other workers empty transmit slots, so the
        room stays. */
    method PassOn(w: nat, j: nat, mapped: bool, ghost v: World, ghost n: nat, ghost out: seq<Buf>) returns (b: Buf)
      requires Valid() && w < |hands| && (mapped ==> w == setup.submitter && |tx| < setup.txSlots)
      requires |v.hands| == |hands| && |v.queues| == |queues| && j < |queues| && setup.consumer[j] == w
      requires |out| < n <= |v.queues[j].items| && Handing(v, View(), w, j, n, out, [])
      modifies this
      ensures Valid() && Handing(v, View(), w, j, n, out + [b], [])
      ensures Did(w, [TakeNext(w, j), if mapped then Submit(w, b) else Free(w, b)])
      ensures w == setup.submitter ==> |tx| <= |old(tx)| + 1
    {
      ghost var t := trace;
      b := HandLater(w, j, v, n, out, []);
      ghost var t1 := trace;
      LetGo(w, j, mapped, b, v, n, out + [b]);
      DoneTrans(t, t1, trace, w, [TakeNext(w, j)], [if mapped then Submit(w, b) else Free(w, b)]);
    }

    /** The second half of that: the packet leaves the hands. */
    method LetGo(w: nat, j: nat, mapped: bool, b: Buf, ghost v: World, ghost n: nat, ghost out: seq<Buf>)
      requires Valid() && w < |hands| && (mapped ==> w == setup.submitter && |tx| < setup.txSlots)
      requires |v.hands| == |hands| && |v.queues| == |queues| && j < |queues| && setup.consumer[j] == w
      requires Handing(v, View(), w, j, n, out, [b])
      modifies this
      ensures Valid() && Handing(v, View(), w, j, n, out, [])
      ensures Did(w, [if mapped then Submit(w, b) else Free(w, b)])
      ensures w == setup.submitter ==> |tx| <= |old(tx)| + 1
    {
      ghost var u, t := View(), trace;
      Meanwhile(w);
      HandingKept(setup, v, u, View(), w, j, n, out, [b]);
      ghost var u1, t1 := View(), trace;
      if mapped {
        SubmitBuf(w, b);
        DoneTrans(t, t1, trace, w, [], [Submit(w, b)]);
      } else {
        FreeBuf(w, b);
        DoneTrans(t, t1, trace, w, [], [Free(w, b)]);
        assert SameBurst(u1.queues[j], queues[j]);
      }
      assert [] + [if mapped then Submit(w, b) else Free(w, b)] == [if mapped then Submit(w, b) else Free(w, b)];
      assert hands[w] == v.hands[w] + multiset([]);
    }

    /** Since `v` the burst of `n` has been looked up and `out` passed on. */
    ghost predicate Passed(w: nat, j: nat, n: nat, out: seq<Buf>, mapped: seq<bool>, v: World, t: seq<Action>)
      requires w < |v.hands| && j < |v.queues|
      reads this
    {
      && Valid() && |out| <= |mapped| && Handing(v, View(), w, j, n, out, [])
      && Done(t, trace, w, [Peek(w, j, n)] + Passing(w, j, out, mapped))
    }

    /** The burst is looked up. */
    method BeginBurst(w: nat, j: nat, n: nat, ghost mapped: seq<bool>)
      requires Valid() && w < |hands| && j < |queues| && setup.consumer[j] == w
      requires queues[j].burst == 0 && n <= |queues[j].items|
      modifies this
      ensures Passed(w, j, n, [], mapped, old(View()), old(trace)) && tx == old(tx)
    {
      LookUp(w, j, n);
      assert [Peek(w, j, n)] + Passing(w, j, [], mapped) == [Peek(w, j, n)];
    }

    /** The burst is dropped as far as it was passed on. */
    method FinishBurst(w: nat, j: nat, n: nat, ghost out: seq<Buf>, ghost mapped: seq<bool>, ghost v: World,
                       ghost t: seq<Action>)
      requires w < |v.hands| && j < |v.queues| == |setup.caps| == |setup.consumer| && setup.consumer[j] == w
      requires Passed(w, j, n, out, mapped, v, t)
      modifies this
      ensures Valid() && |queues| == |v.queues| && |hands| == |v.hands| && hands[w] == v.hands[w]
      ensures |out| <= |mapped| && Done(t, trace, w, [Peek(w, j, n)] + Passing(w, j, out, mapped) + [Finish(w, j)])
      ensures queues[j].burst == 0 == queues[j].handed && |out| <= |v.queues[j].items|
      ensures v.queues[j].items[|out|..] <= queues[j].items
    {
      ghost var t1 := trace;
      EndBurst(w, j, v.queues[j].items, |out|);
      DoneTrans(t, t1, trace, w, [Peek(w, j, n)] + Passing(w, j, out, mapped), [Finish(w, j)]);
    }

    /** One packet of the burst. */
    method PassNext(w: nat, j: nat, mapped: seq<bool>, ghost v: World, ghost n: nat, out: seq<Buf>,
                    ghost t: seq<Action>)
      returns (more: seq<Buf>)
      requires w < |v.hands| && j < |v.queues| == |setup.caps| == |setup.consumer| && setup.consumer[j] == w
      requires Passed(w, j, n, out, mapped, v, t) && |out| < |mapped| && |out| < n <= |v.queues[j].items|
      requires mapped[|out|] ==> w == setup.submitter && |tx| < setup.txSlots
      modifies this
      ensures |more| == |out| + 1 && Passed(w, j, n, more, mapped, v, t)
      ensures w == setup.submitter ==> |tx| <= |old(tx)| + 1
    {
      ghost var t1 := trace;
      var b := PassOn(w, j, mapped[|out|], v, n, out);
      more := out + [b];
      ghost var last := [TakeNext(w, j), if mapped[|out|] then Submit(w, b) else Free(w, b)];
      PassingNext(w, j, out, mapped, b);
      DoneTrans(t, t1, trace, w, [Peek(w, j, n)] + Passing(w, j, out, mapped), last);
      assert [Peek(w, j, n)] + Passing(w, j, out, mapped) + last == [Peek(w, j, n)] + Passing(w, j, more, mapped);
    }

    /** `router_pktq_tx` on the FEC: a burst of `n` packets of egress queue `j` is
        submitted as far as there are transmit slots, and only then dropped.
        `mapped[i]`: whether packet `i` can be mapped for the hardware. */
    method RouterPktqTx(w: nat, j: nat, n: nat, mapped: seq<bool>) returns (out: seq<Buf>)
      requires Valid() && w < |hands| && w == setup.submitter && j < |queues| && setup.consumer[j] == w
      requires queues[j].burst == 0 && n == |mapped| <= |queues[j].items|
      modifies this
      ensures Valid() && |queues| == |old(queues)| && |hands| == |old(hands)| && hands[w] == old(hands[w])
      ensures Min(n, setup.txSlots - |old(tx)|) <= |out| <= n && out <= old(queues[j]).items
      ensures Did(w, [Peek(w, j, n)] + Passing(w, j, out, mapped) + [Finish(w, j)])
      ensures queues[j].burst == 0 == queues[j].handed && old(queues[j]).items[|out|..] <= queues[j].items
    {
      out := [];
      ghost var v, t := View(), trace;
      BeginBurst(w, j, n, mapped);
      while |out| < n && |tx| < setup.txSlots
        invariant |out| <= n && |tx| <= |v.tx| + |out| && Passed(w, j, n, out, mapped, v, t)
        decreases n - |out|
      {
        out := PassNext(w, j, mapped, v, n, out, t);
      }
      FinishBurst(w, j, n, out, mapped, v, t);
    }

    /** The virtual card's transmit handler: of a burst of `n` it delivers and frees the
        first `k`, which are then dropped. */
    method VnicXmit(w: nat, j: nat, n: nat, k: nat) returns (out: seq<Buf>)
      requires Valid() && w < |hands| && j < |queues| && setup.consumer[j] == w
      requires queues[j].burst == 0 && k <= n <= |queues[j].items|
      modifies this
      ensures Valid() && |queues| == |old(queues)| && |hands| == |old(hands)| && hands[w] == old(hands[w])
      ensures |out| == k && out == old(queues[j]).items[..k]
      ensures Did(w, [Peek(w, j, n)] + Passing(w, j, out, None(k)) + [Finish(w, j)])
      ensures queues[j].burst == 0 == queues[j].handed && old(queues[j]).items[k..] <= queues[j].items
    {
      out := [];
      var mapped := None(k);
      ghost var v, t := View(), trace;
      BeginBurst(w, j, n, mapped);
      while |out| < k
        invariant |out| <= k && Passed(w, j, n, out, mapped, v, t)
      {
        out := PassNext(w, j, mapped, v, n, out, t);
      }
      FinishBurst(w, j, n, out, mapped, v, t);
    }

    /** Empties the oldest transmit slot. */
    method ReclaimBuf(w: nat) returns (b: Buf)
      requires Valid() && w < |hands| && w == setup.completer && tx != []
      modifies this
      ensures Valid() && Does(Reclaim(w)) && Did(w, [Reclaim(w)])
      ensures b == old(tx)[0] && View() == Gain(old(View()), w, b).(tx := old(tx)[1..])
    {
      ghost var before := View();
      b := tx[0];
      tx := tx[1..];
      hands := hands[w := hands[w] + multiset{b}];
      assert View() == Gain(before, w, b).(tx := before.tx[1..]);
      Record(setup, start, trace, before, Reclaim(w), View());
      trace := trace + [Reclaim(w)];
    }

    /** `fec_txq`: the oldest `k` transmit slots are emptied and their buffers freed. */
    method FecTxq(w: nat, k: nat) returns (freed: seq<Buf>)
      requires Valid() && w < |hands| && w == setup.completer && k <= |tx|
      modifies this
      ensures |hands| == |old(hands)|
      ensures Valid() && Did(w, Completing(w, freed)) && hands[w] == old(hands[w])
      ensures freed == old(tx)[..k] && old(tx)[k..] <= tx
    {
      freed := [];
      ghost var v, t := View(), trace;
      while |freed| < k
        invariant |freed| <= k && Valid() && |hands| == |v.hands| && hands[w] == v.hands[w]
        invariant freed == v.tx[..|freed|] && v.tx[|freed|..] <= tx && Done(t, trace, w, Completing(w, freed))
      {
        ghost var t1 := trace;
        var b := CompleteOne(w, v.tx[|freed|..]);
        assert v.tx[|freed|..][1..] == v.tx[|freed| + 1..];
        SlotsNext(w, freed, b);
        DoneTrans(t, t1, trace, w, Completing(w, freed), [Reclaim(w), Free(w, b)]);
        freed := freed + [b];
      }
    }

    /** One slot: its buffer is the first of `due`. */
    method CompleteOne(w: nat, ghost due: seq<Buf>) returns (b: Buf)
      requires Valid() && w < |hands| && w == setup.completer && due != [] && due <= tx
      modifies this
      ensures |hands| == |old(hands)|
      ensures Valid() && Did(w, [Reclaim(w), Free(w, b)]) && hands[w] == old(hands[w])
      ensures b == due[0] && due[1..] <= tx
    {
      ghost var v, t := View(), trace;
      Meanwhile(w);
      ghost var t1 := trace;
      b := ReclaimBuf(w);
      DoneTrans(t, t1, trace, w, [], [Reclaim(w)]);
      ghost var u, t2 := View(), trace;
      FreeLater(w, b);
      DoneTrans(t, t2, trace, w, [] + [Reclaim(w)], [Free(w, b)]);
      Cancel(hands[w], v.hands[w], multiset{b});
      assert due[1..] <= u.tx <= tx;
    }

    /** Fills a receive slot. */
    method FillSlot(w: nat, b: Buf)
      requires Valid() && w < |hands| && w == setup.filler && b in hands[w]
      modifies this
      ensures Valid() && Does(FillRx(w, b)) && Did(w, [FillRx(w, b)])
      ensures View() == Lose(old(View()), w, [b]).(rx := old(rx) + [b])
    {
      ghost var before := View();
      rx := rx + [b];
      hands := hands[w := hands[w] - multiset([b])];
      assert View() == Lose(before, w, [b]).(rx := before.rx + [b]);
      Record(setup, start, trace, before, FillRx(w, b), View());
      trace := trace + [FillRx(w, b)];
    }

    /** Empties the first receive slot. */
    method DrainSlot(w: nat) returns (b: Buf)
      requires Valid() && w < |hands| && w == setup.filler && rx != []
      modifies this
      ensures Valid() && Does(DrainRx(w)) && Did(w, [DrainRx(w)])
      ensures b == old(rx)[0] && View() == Gain(old(View()), w, b).(rx := old(rx)[1..])
    {
      ghost var before := View();
      b := rx[0];
      rx := rx[1..];
      hands := hands[w := hands[w] + multiset{b}];
      assert View() == Gain(before, w, b).(rx := before.rx[1..]);
      Record(setup, start, trace, before, DrainRx(w), View());
      trace := trace + [DrainRx(w)];
    }

    method FillLater(w: nat, b: Buf)
      requires Valid() && w < |hands| && w == setup.filler && b in hands[w]
      modifies this
      ensures Valid() && |hands| == |old(hands)| && Did(w, [FillRx(w, b)]) && rx == old(rx) + [b]
      ensures hands[w] == old(hands[w]) - multiset([b])
    {
      ghost var t := trace;
      Meanwhile(w);
      ghost var t1 := trace;
      FillSlot(w, b);
      DoneTrans(t, t1, trace, w, [], [FillRx(w, b)]);
      assert [] + [FillRx(w, b)] == [FillRx(w, b)];
    }

    /** A fresh buffer for a slot, or back to the pool if it cannot be mapped. */
    method FillOne(w: nat, mapped: bool) returns (panic: bool, b: Buf)
      requires Valid() && w < |hands| && w == setup.filler
      modifies this
      ensures Valid() && |hands| == |old(hands)|
      ensures !panic ==> hands[w] == old(hands[w]) && rx == if mapped then old(rx) + [b] else old(rx)
      ensures !panic ==> Did(w, [Alloc(w), if mapped then FillRx(w, b) else Free(w, b)])
    {
      ghost var v, t := View(), trace;
      panic, b := AllocLater(w);
      if panic {
        return;
      }
      ghost var t1 := trace;
      if mapped {
        FillLater(w, b);
        DoneTrans(t, t1, trace, w, [Alloc(w)], [FillRx(w, b)]);
        assert hands[w] == v.hands[w];
      } else {
        FreeLater(w, b);
        DoneTrans(t, t1, trace, w, [Alloc(w)], [Free(w, b)]);
        Cancel(hands[w], v.hands[w], multiset{b});
      }
    }

    /** Since `v` the pool has grown by `n` and `filled` have gone into receive slots. */
    ghost predicate Grown(w: nat, n: nat, filled: seq<Buf>, v: World, t: seq<Action>)
      requires w < |v.hands|
      reads this
    {
      && Valid() && |hands| == |v.hands| && hands[w] == v.hands[w] && rx == v.rx + filled
      && Done(t, trace, w, [Grow(w, n)] + Filling(w, filled))
    }

    /** `fec_enet_alloc_rxq_buffers`: the pool grows by the size of the ring, and as many
        buffers go into it. When one cannot be mapped, it and all in the ring are freed.
        `memory`: there is memory for the pool; `mapped`: which can be mapped. */
    method AllocRxq(w: nat, memory: bool, mapped: seq<bool>)
      returns (panic: bool, failed: bool, filled: seq<Buf>, b: Buf)
      requires Valid() && w < |hands| && w == setup.filler
      modifies this
      ensures Valid() && |hands| == |old(hands)|
      ensures !panic ==>
                && hands[w] == old(hands[w]) && |filled| <= |mapped| && (forall i :: 0 <= i < |filled| ==> mapped[i])
                && (failed <==> |filled| < |mapped|)
      ensures !panic && !failed ==>
                rx == old(rx) + filled && Did(w, [Grow(w, |mapped|)] + Filling(w, filled))
      ensures !panic && failed ==>
                && !mapped[|filled|] && rx == []
                && Did(w, [Grow(w, |mapped|)] + Filling(w, filled) + [Alloc(w), Free(w, b)]
                       + Draining(w, old(rx) + filled))
    {
      failed, filled, b := false, [], 0;
      ghost var v, t, n := View(), trace, |mapped|;
      panic := Increase(w, |mapped|, memory);
      if panic {
        return;
      }
      assert [Grow(w, n)] + Filling(w, []) == [Grow(w, n)];
      while |filled| < |mapped|
        invariant |filled| <= |mapped| && Grown(w, n, filled, v, t) && forall i :: 0 <= i < |filled| ==> mapped[i]
      {
        if !mapped[|filled|] {
          failed := true;
          panic, b := GiveUpFilling(w, n, filled, v, t);
          return;
        }
        panic, filled := FillNext(w, n, filled, v, t);
        if panic {
          return;
        }
      }
    }

    method FillNext(w: nat, ghost n: nat, filled: seq<Buf>, ghost v: World, ghost t: seq<Action>)
      returns (panic: bool, more: seq<Buf>)
      requires w < |v.hands| && w == setup.filler && Grown(w, n, filled, v, t)
      modifies this
      ensures Valid() && |hands| == |v.hands|
      ensures !panic ==> |more| == |filled| + 1 && Grown(w, n, more, v, t)
    {
      ghost var t1, grow := trace, [Grow(w, n)];
      var b;
      panic, b := FillOne(w, true);
      more := filled + [b];
      if !panic {
        SlotsNext(w, filled, b);
        DoneTrans(t, t1, trace, w, grow + Filling(w, filled), [Alloc(w), FillRx(w, b)]);
        assert grow + Filling(w, filled) + [Alloc(w), FillRx(w, b)] == grow + Filling(w, more);
        assert v.rx + more == (v.rx + filled) + [b];
      }
    }

    /** The buffer that cannot be mapped is freed, and so is all that is in the ring. */
    method GiveUpFilling(w: nat, ghost n: nat, ghost filled: seq<Buf>, ghost v: World, ghost t: seq<Action>)
      returns (panic: bool, b: Buf)
      requires w < |v.hands| && w == setup.filler && Grown(w, n, filled, v, t)
      modifies this
      ensures Valid() && |hands| == |v.hands|
      ensures !panic ==> hands[w] == v.hands[w] && rx == []
      ensures !panic ==>
                Done(t, trace, w, [Grow(w, n)] + Filling(w, filled) + [Alloc(w), Free(w, b)]
                     + Draining(w, v.rx + filled))
    {
      ghost var t1, before := trace, [Grow(w, n)] + Filling(w, filled);
      panic, b := FillOne(w, false);
      if !panic {
        DoneTrans(t, t1, trace, w, before, [Alloc(w), Free(w, b)]);
        ghost var t2 := trace;
        var freed := FreeRxq(w);
        DoneTrans(t, t2, trace, w, before + [Alloc(w), Free(w, b)], Draining(w, freed));
      }
    }

    method DrainOne(w: nat) returns (b: Buf)
      requires Valid() && w < |hands| && w == setup.filler && rx != []
      modifies this
      ensures Valid() && |hands| == |old(hands)| && hands[w] == old(hands[w])
      ensures b == old(rx)[0] && rx == old(rx)[1..] && Did(w, [DrainRx(w), Free(w, b)])
    {
      ghost var v, t := View(), trace;
      b := DrainSlot(w);
      ghost var t1 := trace;
      FreeLater(w, b);
      Cancel(hands[w], v.hands[w], multiset{b});
      DoneTrans(t, t1, trace, w, [DrainRx(w)], [Free(w, b)]);
    }

    /** The receive half of `fec_enet_free_buffers`. */
    method FreeRxq(w: nat) returns (freed: seq<Buf>)
      requires Valid() && w < |hands| && w == setup.filler
      modifies this
      ensures Valid() && |hands| == |old(hands)| && hands[w] == old(hands[w])
      ensures freed == old(rx) && rx == [] && Did(w, Draining(w, freed))
    {
      freed := [];
      ghost var v, t := View(), trace;
      while rx != []
        invariant Valid() && |hands| == |v.hands| && hands[w] == v.hands[w]
        invariant |freed| <= |v.rx| && freed == v.rx[..|freed|] && rx == v.rx[|freed|..]
        invariant Done(t, trace, w, Draining(w, freed))
        decreases |rx|
      {
        ghost var t1 := trace;
        var b := DrainOne(w);
        SlotsNext(w, freed, b);
        DoneTrans(t, t1, trace, w, Draining(w, freed), [DrainRx(w), Free(w, b)]);
        freed := freed + [b];
      }
    }

    /** Adds a fresh buffer with a copy of the frame to the burst. */
    method Copybreak(w: nat, bufs: seq<Buf>, ghost before: multiset<Buf>) returns (panic: bool, more: seq<Buf>)
      requires Valid() && w < |hands| && hands[w] == before + multiset(bufs)
      modifies this
      ensures Valid()
      ensures !panic ==> Moves(w, [Alloc(w)])
      ensures !panic ==> |more| == |bufs| + 1 && bufs <= more && hands[w] == before + multiset(more)
    {
      var b;
      panic, b := AllocLater(w);
      more := bufs + [b];
    }

    /** Since `v` these bursts have been received and offered, and `bufs` are pending. */
    ghost predicate Received(w: nat, bursts: seq<seq<Buf>>, fits: seq<nat>, burst: nat, bufs: seq<Buf>,
                             v: World, t: seq<Action>)
      requires Shaped(setup, v) && w < |v.hands|
      reads this
    {
      && Valid() && |hands| == |v.hands| && FullBursts(bursts, fits, burst)
      && hands[w] == v.hands[w] + multiset(bufs)
      && Moved(setup, w, v, t, View(), trace, Receiving(w, bursts, fits) + Allocs(w, |bufs|))
    }

    /** `fec_rxq`: a good frame is copied into a fresh buffer, the receive slot keeping its
        own, and every `burst` of them go to the ingress queue. */
    method FecRxq(w: nat, good: seq<bool>, burst: nat)
      returns (panic: bool, ghost bursts: seq<seq<Buf>>, ghost fits: seq<nat>)
      requires Valid() && w < |hands| && 0 < burst && 0 < |setup.caps|
      modifies this
      ensures Valid() && |hands| == |old(hands)|
      ensures !panic ==> Bursts(bursts, fits, burst) && Total(bursts) == Goods(good) && hands[w] == old(hands[w])
      ensures !panic ==> AllFit(bursts, fits) && Moves(w, Receiving(w, bursts, fits))
    {
      panic, bursts, fits := false, [], [];
      ghost var v, t := View(), trace;
      var bufs: seq<Buf> := [];
      var i := 0;
      assert Receiving(w, [], []) + Allocs(w, 0) == [];
      while i < |good|
        invariant 0 <= i <= |good| && |bufs| < burst && Received(w, bursts, fits, burst, bufs, v, t)
        invariant Total(bursts) + |bufs| == Goods(good[..i])
      {
        assert good[..i + 1][..i] == good[..i];
        panic, bufs, bursts, fits := RxNext(w, good[i], bufs, bursts, fits, burst, v, t);
        if panic {
          return;
        }
        i := i + 1;
      }
      assert good[..i] == good;
      bursts, fits := FlushBurst(w, bufs, bursts, fits, burst, v, t);
    }

    /** One frame; a burst that is full goes out. */
    method RxNext(w: nat, good: bool, bufs: seq<Buf>, ghost bursts: seq<seq<Buf>>, ghost fits: seq<nat>, burst: nat,
                  ghost v: World, ghost t: seq<Action>)
      returns (panic: bool, pending: seq<Buf>, ghost more: seq<seq<Buf>>, ghost all: seq<nat>)
      requires Shaped(setup, v) && w < |v.hands| && 0 < |setup.caps| && |bufs| < burst
      requires Received(w, bursts, fits, burst, bufs, v, t)
      modifies this
      ensures Valid() && |hands| == |v.hands|
      ensures !panic ==> |pending| < burst && Received(w, more, all, burst, pending, v, t)
      ensures !panic ==> Total(more) + |pending| == Total(bursts) + |bufs| + if good then 1 else 0
    {
      panic, pending, more, all := false, bufs, bursts, fits;
      if good {
        panic, pending := RxFrame(w, bufs, bursts, fits, burst, v, t);
        if panic {
          return;
        }
      }
      if |pending| >= burst {
        more, all := FlushBurst(w, pending, bursts, fits, burst, v, t);
        pending := [];
      }
    }

    /** One good frame. */
    method RxFrame(w: nat, bufs: seq<Buf>, ghost bursts: seq<seq<Buf>>, ghost fits: seq<nat>, ghost burst: nat,
                   ghost v: World, ghost t: seq<Action>)
      returns (panic: bool, more: seq<Buf>)
      requires Shaped(setup, v) && w < |v.hands| && Received(w, bursts, fits, burst, bufs, v, t)
      modifies this
      ensures Valid() && |hands| == |v.hands|
      ensures !panic ==> |more| == |bufs| + 1 && Received(w, bursts, fits, burst, more, v, t)
    {
      ghost var v1, t1, steps := View(), trace, Receiving(w, bursts, fits) + Allocs(w, |bufs|);
      panic, more := Copybreak(w, bufs, v.hands[w]);
      if !panic {
        MovedTrans(setup, w, v, t, v1, t1, View(), trace, steps, [Alloc(w)]);
        assert steps + [Alloc(w)] == Receiving(w, bursts, fits) + Allocs(w, |more|);
      }
    }

    /** The pending burst goes to the ingress queue, and what does not fit is freed. */
    method FlushBurst(w: nat, bufs: seq<Buf>, ghost bursts: seq<seq<Buf>>, ghost fits: seq<nat>, ghost burst: nat,
                      ghost v: World, ghost t: seq<Action>)
      returns (ghost more: seq<seq<Buf>>, ghost all: seq<nat>)
      requires Shaped(setup, v) && w < |v.hands| && 0 < |setup.caps| && |bufs| <= burst
      requires Received(w, bursts, fits, burst, bufs, v, t)
      modifies this
      ensures Valid() && |hands| == |v.hands| && hands[w] == v.hands[w]
      ensures Total(more) == Total(bursts) + |bufs| && AllFit(more, all)
      ensures Moved(setup, w, v, t, View(), trace, Receiving(w, more, all))
      ensures |bufs| < burst ==> Bursts(more, all, burst)
      ensures |bufs| == burst ==> Received(w, more, all, burst, [], v, t)
    {
      ghost var v1, t1, steps := View(), trace, Receiving(w, bursts, fits) + Allocs(w, |bufs|);
      var added := DoMenqueue(w, 0, bufs);
      MovedTrans(setup, w, v, t, v1, t1, View(), trace, steps, Sending(w, 0, bufs, added));
      Cancel(hands[w], v.hands[w], multiset(bufs));
      BurstNext(w, bursts, fits, burst, bufs, added);
      more, all := bursts + [bufs], fits + [added];
      assert Receiving(w, more, all) + Allocs(w, 0) == Receiving(w, more, all);
    }
  }
}
