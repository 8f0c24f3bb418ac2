/** What routing a burst of packets means: their fates, the batches of the interfaces, and
    the steps on the shared buffers of `Ownership` that the workers' routines consist
    of. */
module Routing {
  import opened Arith
  import opened Ownership

  /** What becomes of a packet in the router: the ether type and ARP verdict, the
      inbound firewall, the route, the outbound firewall and the address
      resolution, in this order. Interfaces are numbered from 1. */
  datatype Fate =
    | L2Drop                           // not IPv4, or ARP that is not answered
    | ArpReply                         // rewritten into a reply
    | InDrop(kept: bool)               // refused or kept by the inbound firewall
    | NoRoute
    | NoInterface
    | OutDrop(kept: bool)
    | Unresolved(ask: bool, idx: nat)  // no header space or address; `ask`: a request goes out on `idx`
    | Forward(idx: nat)

  /** The width of the mask of used interfaces. */
  const MASK_BITS := 8

  /** The batch for interface `j`: the packets forwarded to it, in order. */
  ghost function Batch(pkts: seq<Buf>, fates: seq<Fate>, j: nat): seq<Buf>
    requires |pkts| == |fates|
  {
    if pkts == [] then []
    else
      var n := |pkts| - 1;
      Batch(pkts[..n], fates[..n], j) + if fates[n] == Forward(j) then [pkts[n]] else []
  }

  /** Still to go, or never to go: forwarded to an interface from `j` on, or to one
      that the mask cannot name. */
  predicate Remains(fate: Fate, j: nat) { fate.Forward? && (fate.idx >= j || fate.idx >= MASK_BITS) }

  /** The packets that remain once the batches below `j` are out. */
  ghost function Left(pkts: seq<Buf>, fates: seq<Fate>, j: nat): seq<Buf>
    requires |pkts| == |fates|
  {
    if pkts == [] then []
    else
      var n := |pkts| - 1;
      Left(pkts[..n], fates[..n], j) + if Remains(fates[n], j) then [pkts[n]] else []
  }

  lemma BatchNext(pkts: seq<Buf>, fates: seq<Fate>, i: nat, j: nat)
    requires i < |pkts| == |fates|
    ensures Batch(pkts[..i + 1], fates[..i + 1], j)
         == Batch(pkts[..i], fates[..i], j) + if fates[i] == Forward(j) then [pkts[i]] else []
    ensures Left(pkts[..i + 1], fates[..i + 1], j)
         == Left(pkts[..i], fates[..i], j) + if Remains(fates[i], j) then [pkts[i]] else []
  {
    assert pkts[..i + 1][..i] == pkts[..i] && fates[..i + 1][..i] == fates[..i];
  }

  /** Sending batch `j`, if the mask names it, leaves what remains from `j` + 1 on. */
  lemma {:induction false} LeftNext(pkts: seq<Buf>, fates: seq<Fate>, j: nat)
    requires |pkts| == |fates|
    ensures multiset(Left(pkts, fates, j))
         == multiset(Left(pkts, fates, j + 1)) + if j < MASK_BITS then multiset(Batch(pkts, fates, j)) else multiset{}
    decreases |pkts|
  {
    if pkts != [] {
      LeftNext(pkts[..|pkts| - 1], fates[..|pkts| - 1], j);
    }
  }

  /** The same, with what the worker holds besides; an empty batch changes nothing. */
  lemma LeftSplits(pkts: seq<Buf>, fates: seq<Fate>, j: nat, rest: multiset<Buf>)
    requires |pkts| == |fates|
    ensures var before, after := rest + multiset(Left(pkts, fates, j)), rest + multiset(Left(pkts, fates, j + 1));
            var batch := Batch(pkts, fates, j);
            if j < MASK_BITS && batch != [] then before == after + multiset(batch) else before == after
  {
    LeftNext(pkts, fates, j);
  }

  /** Nothing remains of a burst exactly if no packet is for an interface that the mask
      cannot name. */
  lemma {:induction false} NothingRemainsIff(pkts: seq<Buf>, fates: seq<Fate>, j: nat)
    requires |pkts| == |fates|
    ensures Left(pkts, fates, j) == [] <==> forall k :: 0 <= k < |fates| ==> !Remains(fates[k], j)
    decreases |pkts|
  {
    if pkts != [] {
      var n := |pkts| - 1;
      NothingRemainsIff(pkts[..n], fates[..n], j);
      assert forall k :: 0 <= k < n ==> fates[..n][k] == fates[k];
    }
  }

  /** Packets for existing interfaces only. */
  ghost predicate Routable(fates: seq<Fate>, interfaces: nat) {
    forall k :: 0 <= k < |fates| ==>
                  && (fates[k].Forward? ==> 1 <= fates[k].idx <= interfaces)
                  && (fates[k].Unresolved? && fates[k].ask ==> 1 <= fates[k].idx <= interfaces)
  }

  /** What `RouterIfInput` leaves in hand. */
  ghost predicate LeavesNothing(interfaces: nat, pkts: seq<Buf>, fates: seq<Fate>) {
    |pkts| == |fates| && Routable(fates, interfaces) ==> Left(pkts, fates, interfaces + 1) == []
  }

  /** The router disposes of every packet of every burst if and only if there are at
      most seven interfaces. */
  lemma AllDisposedIff(interfaces: nat)
    ensures (forall pkts: seq<Buf>, fates: seq<Fate> :: LeavesNothing(interfaces, pkts, fates)) <==> interfaces <= 7
  {
    if interfaces <= 7 {
      forall pkts: seq<Buf>, fates: seq<Fate> | |pkts| == |fates| && Routable(fates, interfaces)
        ensures LeavesNothing(interfaces, pkts, fates)
      {
        NothingRemainsIff(pkts, fates, interfaces + 1);
      }
    } else {
      var pkts: seq<Buf>, fates: seq<Fate> := [0], [Forward(8)];
      NothingRemainsIff(pkts, fates, interfaces + 1);
      assert Remains(fates[0], interfaces + 1);
      assert !LeavesNothing(interfaces, pkts, fates);
    }
  }

  /** The batches of a burst, and the mask of the interfaces that have one. */
  ghost predicate Batched(batches: seq<seq<Buf>>, mask: set<nat>, pkts: seq<Buf>, fates: seq<Fate>)
    requires |pkts| == |fates|
  {
    forall j :: 1 <= j < |batches| ==>
                  batches[j] == Batch(pkts, fates, j) && (j in mask <==> j < MASK_BITS && batches[j] != [])
  }

  /** One more packet sorted in. */
  lemma BatchedNext(batches: seq<seq<Buf>>, mask: set<nat>, pkts: seq<Buf>, fates: seq<Fate>, i: nat)
    requires i < |pkts| == |fates| && Batched(batches, mask, pkts[..i], fates[..i])
    requires fates[i].Forward? ==> 1 <= fates[i].idx < |batches|
    ensures if fates[i].Forward? then
              var j := fates[i].idx;
              Batched(batches[j := batches[j] + [pkts[i]]], if j < MASK_BITS then mask + {j} else mask,
                      pkts[..i + 1], fates[..i + 1])
            else Batched(batches, mask, pkts[..i + 1], fates[..i + 1])
  {
    forall j | 1 <= j < |batches|
      ensures Batch(pkts[..i + 1], fates[..i + 1], j)
           == Batch(pkts[..i], fates[..i], j) + if fates[i] == Forward(j) then [pkts[i]] else []
    {
      BatchNext(pkts, fates, i, j);
    }
  }

  // ---------------------------------------------------------------- own steps

  /** Between two points of a run worker `w` took exactly these steps. */
  ghost predicate Done(before: seq<Action>, after: seq<Action>, w: nat, steps: seq<Action>) {
    before <= after && Mine(after, w) == Mine(before, w) + steps
  }

  /** So it did, leaving its bursts and its end of the rings alone. */
  ghost predicate Moved(c: Setup, w: nat, v: World, before: seq<Action>, u: World, after: seq<Action>,
                        steps: seq<Action>)
    requires Shaped(c, v)
  {
    Calm(c, w, v, u) && Done(before, after, w, steps)
  }

  /** The step from `v` to `u` extends the run. */
  lemma Record(c: Setup, start: World, trace: seq<Action>, v: World, a: Action, u: World)
    requires Shaped(c, start) && Run(c, start, trace) == Go(v) && Step(c, v, a) == Go(u)
    ensures Run(c, start, trace + [a]) == Go(u) && Done(trace, trace + [a], a.w, [a])
  {
    RunNext(c, start, trace, a);
  }

  lemma DoneTrans(t0: seq<Action>, t1: seq<Action>, t2: seq<Action>, w: nat, a: seq<Action>, b: seq<Action>)
    requires Done(t0, t1, w, a) && Done(t1, t2, w, b)
    ensures Done(t0, t2, w, a + b)
  {
    assert Mine(t0, w) + (a + b) == (Mine(t0, w) + a) + b;
  }

  lemma MovedTrans(c: Setup, w: nat, v0: World, t0: seq<Action>, v1: World, t1: seq<Action>, v2: World, t2: seq<Action>,
                   a: seq<Action>, b: seq<Action>)
    requires Shaped(c, v0) && Moved(c, w, v0, t0, v1, t1, a) && Moved(c, w, v1, t1, v2, t2, b)
    ensures Moved(c, w, v0, t0, v2, t2, a + b)
  {
    CalmTrans(c, w, v0, v1, v2);
    DoneTrans(t0, t1, t2, w, a, b);
  }

  ghost function Frees(w: nat, bs: seq<Buf>): seq<Action> {
    if bs == [] then [] else Frees(w, bs[..|bs| - 1]) + [Free(w, bs[|bs| - 1])]
  }

  lemma FreesNext(w: nat, bs: seq<Buf>, i: nat)
    requires i < |bs|
    ensures Frees(w, bs[..i + 1]) == Frees(w, bs[..i]) + [Free(w, bs[i])]
  {
    assert bs[..i + 1][..i] == bs[..i];
  }

  /** The whole of `bs` is offered to queue `j`, and what is beyond the first `n` freed. */
  ghost function Sending(w: nat, j: nat, bs: seq<Buf>, n: nat): seq<Action>
    requires n <= |bs|
  {
    if bs == [] then [] else [Append(w, j, bs)] + Frees(w, bs[n..])
  }

  /** One fresh buffer is offered to queue `j`. */
  ghost predicate Asks(w: nat, j: nat, steps: seq<Action>) {
    exists r: Buf, n: nat :: n <= 1 && steps == [Alloc(w)] + Sending(w, j, [r], n)
  }

  /** What a packet's fate means, before the batches go out. */
  ghost predicate Handles(w: nat, own: nat, m: Buf, fate: Fate, steps: seq<Action>) {
    match fate
    case Forward(_) => steps == []
    case ArpReply => exists n: nat :: n <= 1 && steps == Sending(w, own, [m], n)
    case InDrop(kept) => steps == [if kept then Keep(w, m) else Free(w, m)]
    case OutDrop(kept) => steps == [if kept then Keep(w, m) else Free(w, m)]
    case Unresolved(ask, idx) =>
      |steps| > 0 && steps[|steps| - 1] == Free(w, m) &&
      if ask then Asks(w, idx, steps[..|steps| - 1]) else |steps| == 1
    case _ => steps == [Free(w, m)]
  }

  ghost function Flat(parts: seq<seq<Action>>): seq<Action> {
    if parts == [] then [] else Flat(parts[..|parts| - 1]) + parts[|parts| - 1]
  }

  lemma FlatNext(parts: seq<seq<Action>>, part: seq<Action>)
    ensures Flat(parts + [part]) == Flat(parts) + part
  {
    assert (parts + [part])[..|parts|] == parts;
  }

  /** The first packets are handled one after the other, each by its part of the steps. */
  ghost predicate Handled(w: nat, own: nat, pkts: seq<Buf>, fates: seq<Fate>, parts: seq<seq<Action>>)
    requires |pkts| == |fates|
  {
    |parts| <= |pkts| && forall i :: 0 <= i < |parts| ==> Handles(w, own, pkts[i], fates[i], parts[i])
  }

  /** A batch goes out whole, if the mask can name its interface. */
  ghost predicate SendsOne(w: nat, j: nat, batch: seq<Buf>, steps: seq<Action>) {
    if j < MASK_BITS then exists n: nat :: n <= |batch| && steps == Sending(w, j, batch, n) else steps == []
  }

  /** The batches of the first interfaces go out one after the other. */
  ghost predicate Sent(w: nat, pkts: seq<Buf>, fates: seq<Fate>, parts: seq<seq<Action>>)
    requires |pkts| == |fates|
  {
    forall j :: 1 <= j <= |parts| ==> SendsOne(w, j, Batch(pkts, fates, j), parts[j - 1])
  }

  /** What routing a burst over `interfaces` interfaces is: every packet is handled, and
      then each batch is offered to its queue. */
  ghost predicate Routes(w: nat, own: nat, pkts: seq<Buf>, fates: seq<Fate>, interfaces: nat,
                         handled: seq<seq<Action>>, sent: seq<seq<Action>>)
    requires |pkts| == |fates|
  {
    && |handled| == |pkts| && Handled(w, own, pkts, fates, handled)
    && |sent| == interfaces && Sent(w, pkts, fates, sent)
  }

  lemma {:induction false} FlatIndex(parts: seq<seq<Action>>, p: nat, e: nat) returns (k: nat)
    requires p < |parts| && e < |parts[p]|
    ensures k < |Flat(parts)| && Flat(parts)[k] == parts[p][e]
    decreases |parts|
  {
    var n := |parts| - 1;
    if p == n {
      k := |Flat(parts[..n])| + e;
    } else {
      k := FlatIndex(parts[..n], p, e);
    }
  }

  lemma OneMore(before: seq<Action>, after: seq<Action>, w: nat)
    requires before <= after && Mine(before, w) != Mine(after, w)
    ensures before < after
  {
  }

  /** A step of a worker's own is a step of the run. */
  lemma {:induction false} StepHappens(before: seq<Action>, after: seq<Action>, w: nat, steps: seq<Action>, k: nat)
    returns (i: nat)
    requires Done(before, after, w, steps) && k < |steps|
    ensures |before| <= i < |after| && after[i] == steps[k]
    decreases |after|
  {
    OneMore(before, after, w);
    var n := |after| - 1;
    MineGrows(before, after[..n], w);
    var rest := Mine(after[..n], w)[|Mine(before, w)|..];
    assert Mine(after[..n], w) == Mine(before, w) + rest;
    if k < |rest| {
      assert steps[k] == Mine(after, w)[|Mine(before, w)| + k] == rest[k];
      i := StepHappens(before, after[..n], w, rest, k);
    } else {
      assert steps[k] == Mine(after, w)[|Mine(before, w)| + k] == after[n];
      i := n;
    }
  }

  lemma BatchIsOffered(w: nat, own: nat, pkts: seq<Buf>, fates: seq<Fate>, interfaces: nat,
                       handled: seq<seq<Action>>, sent: seq<seq<Action>>, j: nat)
    returns (k: nat)
    requires |pkts| == |fates| && Routes(w, own, pkts, fates, interfaces, handled, sent)
    requires 1 <= j <= interfaces && j < MASK_BITS && Batch(pkts, fates, j) != []
    ensures k < |Flat(handled) + Flat(sent)|
    ensures (Flat(handled) + Flat(sent))[k] == Append(w, j, Batch(pkts, fates, j))
  {
    assert SendsOne(w, j, Batch(pkts, fates, j), sent[j - 1]);
    var e := FlatIndex(sent, j - 1, 0);
    k := |Flat(handled)| + e;
  }

  /** Packets reach the queue of their interface in order: the batch of every interface
      that the mask can name is appended to its queue at one moment of the run, and as
      much of it as fits goes in, in one piece. `QueuesKeepOrder` says what becomes of it. */
  lemma BatchReachesQueue(c: Setup, s: World, before: seq<Action>, after: seq<Action>, w: nat, own: nat,
                          pkts: seq<Buf>, fates: seq<Fate>, interfaces: nat,
                          handled: seq<seq<Action>>, sent: seq<seq<Action>>, j: nat)
    returns (i: nat)
    requires Shaped(c, s) && Run(c, s, after).Go? && |pkts| == |fates|
    requires Done(before, after, w, Flat(handled) + Flat(sent))
    requires Routes(w, own, pkts, fates, interfaces, handled, sent)
    requires 1 <= j <= interfaces < |c.caps| && j < MASK_BITS && Batch(pkts, fates, j) != []
    ensures |before| <= i < |after| && after[i] == Append(w, j, Batch(pkts, fates, j)) && Run(c, s, after[..i]).Go?
    ensures Into(c, s, after[..i], j) + Added(c, Run(c, s, after[..i]).world, after[i], j) <= Into(c, s, after, j)
  {
    var k := BatchIsOffered(w, own, pkts, fates, interfaces, handled, sent, j);
    i := StepHappens(before, after, w, Flat(handled) + Flat(sent), k);
    AppendReaches(c, s, after, i);
  }

  ghost function Takes(w: nat, j: nat, k: nat): seq<Action> { seq(k, _ => TakeNext(w, j)) }

  /** The packets `out` of queue `j` are handed on one by one, each to the transmit ring
      if it is `mapped` and else to the free list. */
  ghost function Passing(w: nat, j: nat, out: seq<Buf>, mapped: seq<bool>): seq<Action>
    requires |out| <= |mapped|
  {
    if out == [] then []
    else
      var n := |out| - 1;
      Passing(w, j, out[..n], mapped) + [TakeNext(w, j), if mapped[n] then Submit(w, out[n]) else Free(w, out[n])]
  }

  /** None goes to the transmit ring. */
  function None(k: nat): seq<bool> { seq(k, _ => false) }

  lemma PassingNext(w: nat, j: nat, out: seq<Buf>, mapped: seq<bool>, b: Buf)
    requires |out| < |mapped|
    ensures Passing(w, j, out + [b], mapped)
         == Passing(w, j, out, mapped) + [TakeNext(w, j), if mapped[|out|] then Submit(w, b) else Free(w, b)]
  {
    assert (out + [b])[..|out|] == out;
  }

  /** Transmit slots are emptied and receive slots filled and drained one by one. */
  ghost function Completing(w: nat, bs: seq<Buf>): seq<Action> {
    if bs == [] then [] else Completing(w, bs[..|bs| - 1]) + [Reclaim(w), Free(w, bs[|bs| - 1])]
  }

  ghost function Filling(w: nat, bs: seq<Buf>): seq<Action> {
    if bs == [] then [] else Filling(w, bs[..|bs| - 1]) + [Alloc(w), FillRx(w, bs[|bs| - 1])]
  }

  ghost function Draining(w: nat, bs: seq<Buf>): seq<Action> {
    if bs == [] then [] else Draining(w, bs[..|bs| - 1]) + [DrainRx(w), Free(w, bs[|bs| - 1])]
  }

  lemma SlotsNext(w: nat, bs: seq<Buf>, b: Buf)
    ensures Completing(w, bs + [b]) == Completing(w, bs) + [Reclaim(w), Free(w, b)]
    ensures Filling(w, bs + [b]) == Filling(w, bs) + [Alloc(w), FillRx(w, b)]
    ensures Draining(w, bs + [b]) == Draining(w, bs) + [DrainRx(w), Free(w, b)]
  {
    assert (bs + [b])[..|bs|] == bs;
  }

  ghost function Allocs(w: nat, n: nat): seq<Action> { seq(n, _ => Alloc(w)) }

  ghost predicate AllFit(bursts: seq<seq<Buf>>, fits: seq<nat>) {
    |bursts| == |fits| && forall i :: 0 <= i < |fits| ==> fits[i] <= |bursts[i]|
  }

  /** Bursts of fresh buffers, each offered to the ingress queue as soon as it is full. */
  ghost function Receiving(w: nat, bursts: seq<seq<Buf>>, fits: seq<nat>): seq<Action>
    requires AllFit(bursts, fits)
  {
    if bursts == [] then []
    else
      var n := |bursts| - 1;
      Receiving(w, bursts[..n], fits[..n]) + Allocs(w, |bursts[n]|) + Sending(w, 0, bursts[n], fits[n])
  }

  ghost function Total(bursts: seq<seq<Buf>>): nat {
    if bursts == [] then 0 else Total(bursts[..|bursts| - 1]) + |bursts[|bursts| - 1]|
  }

  /** Bursts of the given size, of each of which the given number fitted. */
  ghost predicate FullBursts(bursts: seq<seq<Buf>>, fits: seq<nat>, burst: nat) {
    |bursts| == |fits| && forall i :: 0 <= i < |bursts| ==> fits[i] <= |bursts[i]| == burst
  }

  /** The same, but for a last one that is smaller. */
  ghost predicate Bursts(bursts: seq<seq<Buf>>, fits: seq<nat>, burst: nat) {
    && |bursts| == |fits| > 0
    && var n := |bursts| - 1; FullBursts(bursts[..n], fits[..n], burst) && fits[n] <= |bursts[n]| < burst
  }

  lemma BurstNext(w: nat, bursts: seq<seq<Buf>>, fits: seq<nat>, burst: nat, bufs: seq<Buf>, fit: nat)
    requires FullBursts(bursts, fits, burst) && fit <= |bufs|
    ensures var more, all := bursts + [bufs], fits + [fit];
            && (|bufs| == burst ==> FullBursts(more, all, burst)) && (|bufs| < burst ==> Bursts(more, all, burst))
            && Total(more) == Total(bursts) + |bufs|
            && AllFit(more, all)
            && Receiving(w, more, all) == Receiving(w, bursts, fits) + Allocs(w, |bufs|) + Sending(w, 0, bufs, fit)
  {
    var more, all := bursts + [bufs], fits + [fit];
    assert more[..|bursts|] == bursts && all[..|bursts|] == fits;
  }

  /** The number of good frames. */
  ghost function Goods(good: seq<bool>): nat {
    if good == [] then 0 else Goods(good[..|good| - 1]) + if good[|good| - 1] then 1 else 0
  }

  // ------------------------------------------------------------------- bursts

  /** Since `v`, the consumer of queue `j` has looked up a burst of `n` and handed on
      `out`, the oldest packets; what it holds has changed by `held`. */
  ghost predicate Handing(v: World, t: World, w: nat, j: nat, n: nat, out: seq<Buf>, held: seq<Buf>)
    requires w < |v.hands| && j < |v.queues|
  {
    && |t.hands| == |v.hands| && |t.queues| == |v.queues|
    && out <= v.queues[j].items <= t.queues[j].items
    && t.queues[j].burst == n && t.queues[j].handed == |out|
    && t.hands[w] == v.hands[w] + multiset(held)
  }

  /** The others leave it so. */
  lemma HandingKept(c: Setup, v: World, u: World, t: World, w: nat, j: nat, n: nat, out: seq<Buf>, held: seq<Buf>)
    requires w < |v.hands| && j < |v.queues| && Handing(v, u, w, j, n, out, held)
    requires Shaped(c, u) && c.consumer[j] == w && Kept(c, w, u, t)
    ensures Handing(v, t, w, j, n, out, held)
  {
    assert SameBurst(u.queues[j], t.queues[j]);
  }

  /** One more packet handed on. */
  lemma HandingNext(v: World, u: World, t: World, w: nat, j: nat, n: nat, out: seq<Buf>, held: seq<Buf>, b: Buf)
    requires w < |v.hands| && j < |v.queues| && Handing(v, u, w, j, n, out, held) && |out| < |v.queues[j].items|
    requires b == u.queues[j].items[|out|]
    requires t.queues == u.queues[j := u.queues[j].(handed := |out| + 1)]
    requires t.hands == u.hands[w := u.hands[w] + multiset{b}]
    ensures Handing(v, t, w, j, n, out + [b], held + [b])
  {
    var items := v.queues[j].items;
    assert items[|out|] == u.queues[j].items[|out|];
    assert items[..|out| + 1] == items[..|out|] + [b];
  }

  // --------------------------------------------------------------- multisets

  lemma PrefixStep(s: seq<Buf>, i: nat)
    requires i < |s|
    ensures multiset(s[..i + 1]) == multiset(s[..i]) + multiset{s[i]}
  {
    assert s[..i + 1] == s[..i] + [s[i]];
  }

  /** A packet not yet handled is still in hand. */
  lemma StillThere(before: multiset<Buf>, now: multiset<Buf>, s: seq<Buf>, i: nat, extra: multiset<Buf>)
    requires i < |s| && multiset(s) <= before && now + multiset(s[..i]) == before + extra
    ensures s[i] in now
  {
    PrefixStep(s, i);
    assert s == s[..i + 1] + s[i + 1..];
    assert multiset(s[..i + 1])[s[i]] <= multiset(s)[s[i]];
    assert (now + multiset(s[..i]))[s[i]] == (before + extra)[s[i]];
  }

  lemma TakenOut(bs: seq<Buf>, n: nat, m: multiset<Buf>)
    requires n <= |bs| && multiset(bs) <= m
    ensures (m - multiset(bs[..n])) + multiset(bs[..n]) == m
  {
    PrefixFits(bs, n, m);
  }

  lemma Cancel(a: multiset<Buf>, b: multiset<Buf>, m: multiset<Buf>)
    requires a + m == b + m
    ensures a == b
  {
    forall x
      ensures a[x] == b[x]
    {
      assert (a + m)[x] == (b + m)[x];
    }
  }

  /** Giving away first the front and then the rest of `bs`. */
  lemma GiveBoth(before: multiset<Buf>, mid: multiset<Buf>, now: multiset<Buf>, bs: seq<Buf>, n: nat)
    requires n <= |bs| && mid + multiset(bs[..n]) == before && now + multiset(bs[n..]) == mid
    ensures now + multiset(bs) == before
  {
    assert bs == bs[..n] + bs[n..];
  }

  lemma RestFits(before: multiset<Buf>, mid: multiset<Buf>, bs: seq<Buf>, n: nat)
    requires n <= |bs| && multiset(bs) <= before && mid + multiset(bs[..n]) == before
    ensures multiset(bs[n..]) <= mid
  {
    assert bs == bs[..n] + bs[n..];
    forall x
      ensures multiset(bs[n..])[x] <= mid[x]
    {
      assert (mid + multiset(bs[..n]))[x] == before[x] && multiset(bs)[x] <= before[x];
    }
  }

  /** One packet handled: it leaves the hands unless it is forwarded. */
  lemma RouteStep(before: multiset<Buf>, mid: multiset<Buf>, now: multiset<Buf>,
                  pkts: seq<Buf>, fates: seq<Fate>, i: nat)
    requires i < |pkts| == |fates| && mid + multiset(pkts[..i]) == before + multiset(Left(pkts[..i], fates[..i], 0))
    requires now + (if fates[i].Forward? then multiset{} else multiset{pkts[i]}) == mid
    ensures now + multiset(pkts[..i + 1]) == before + multiset(Left(pkts[..i + 1], fates[..i + 1], 0))
  {
    PrefixStep(pkts, i);
    BatchNext(pkts, fates, i, 0);
    var done, left := multiset(pkts[..i]), multiset(Left(pkts[..i], fates[..i], 0));
    if fates[i].Forward? {
      assert now + (done + multiset{pkts[i]}) == (now + done) + multiset{pkts[i]};
      assert before + (left + multiset{pkts[i]}) == (before + left) + multiset{pkts[i]};
    } else {
      assert now + (done + multiset{pkts[i]}) == (now + multiset{pkts[i]}) + done;
    }
  }

  lemma Exchange(before: multiset<Buf>, now: multiset<Buf>, out: multiset<Buf>, back: multiset<Buf>)
    requires out <= before && now + out == before + back
    ensures now == (before - out) + back
  {
    var rest := before - out;
    assert (rest + back) + out == before + back;
    Cancel(now, rest + back, out);
  }

  /** No interface has number 0. */
  lemma {:induction false} LeftZero(pkts: seq<Buf>, fates: seq<Fate>, interfaces: nat)
    requires |pkts| == |fates| && Routable(fates, interfaces)
    ensures Left(pkts, fates, 0) == Left(pkts, fates, 1)
    decreases |pkts|
  {
    if pkts != [] {
      var n := |pkts| - 1;
      assert forall k :: 0 <= k < n ==> fates[..n][k] == fates[k];
      LeftZero(pkts[..n], fates[..n], interfaces);
    }
  }

  /** What the worker holds after the first loop. */
  lemma AfterRouting(before: multiset<Buf>, now: multiset<Buf>, pkts: seq<Buf>, fates: seq<Fate>, interfaces: nat)
    requires |pkts| == |fates| && Routable(fates, interfaces) && multiset(pkts) <= before
    requires now + multiset(pkts) == before + multiset(Left(pkts, fates, 0))
    ensures now == (before - multiset(pkts)) + multiset(Left(pkts, fates, 1))
  {
    LeftZero(pkts, fates, interfaces);
    Exchange(before, now, multiset(pkts), multiset(Left(pkts, fates, 1)));
  }

  lemma AfterSending(before: multiset<Buf>, now: multiset<Buf>, pkts: seq<Buf>, left: multiset<Buf>)
    requires multiset(pkts) <= before && now == (before - multiset(pkts)) + left
    ensures now + multiset(pkts) == before + left
  {
  }

  /** What was taken up and given away again. */
  lemma Returned(before: multiset<Buf>, mid: multiset<Buf>, now: multiset<Buf>, m: multiset<Buf>, left: multiset<Buf>)
    requires mid == before + m && now + m == mid + left
    ensures now == before + left
  {
    assert (before + left) + m == mid + left;
    Cancel(now, before + left, m);
  }
}
