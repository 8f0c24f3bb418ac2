/** Who owns which packet buffer. The pool's free list, the packet queues, the
    transmit ring, the receive ring, the firewall and the workers' hands are
    collections of their own; a step of a worker moves buffers between them, and a
    run is any interleaving of the workers' steps. A packet of a burst that has
    been handed on belongs to whoever took it, although its queue slot is only
    given up when the burst is finished. */
module Ownership {
  import opened Arith
  import P = PacketQueue
  import T = TxRing

  type Buf = nat

  /** A packet queue as its users see it: the packets in their slots, oldest first,
      the length of the burst its consumer works on, and how many of the burst
      have been handed on. */
  datatype Fifo = Fifo(items: seq<Buf>, burst: nat, handed: nat)

  /** `pool`: the number of buffers ever made; they are numbered in the order in which
      they were. */
  datatype World = World(
    pool: nat,
    free: seq<Buf>,
    queues: seq<Fifo>,
    tx: seq<Buf>,
    rx: seq<Buf>,
    firewall: multiset<Buf>,
    hands: seq<multiset<Buf>>)

  /** Queue 0 is the FEC ingress queue, queue j the egress queue of interface j. Each
      queue has one consumer, the transmit ring one submitter and one completer, and
      the receive ring one worker that fills and drains it. */
  datatype Setup = Setup(
    caps: seq<nat>, consumer: seq<nat>, txSlots: nat, submitter: nat, completer: nat, filler: nat)

  ghost predicate FifoOk(q: Fifo, cap: nat) { q.handed <= q.burst <= |q.items| <= cap }

  ghost predicate Shaped(c: Setup, s: World) {
    && |s.queues| == |c.caps| == |c.consumer| && |s.tx| <= c.txSlots
    && forall j :: 0 <= j < |c.caps| ==> FifoOk(s.queues[j], c.caps[j])
  }

  // ------------------------------------------------------------------- steps

  /** The worker `w` ...*/
  datatype Action =
    | Grow(w: nat, n: nat)                    // makes buffers for the free list
    | Alloc(w: nat)                           // takes a buffer off the free list
    | Free(w: nat, b: Buf)                    // puts one back
    | Keep(w: nat, b: Buf)                    // loses one to the firewall
    | Append(w: nat, j: nat, bs: seq<Buf>)    // adds what fits to a queue
    | Peek(w: nat, j: nat, n: nat)            // looks up a burst
    | TakeNext(w: nat, j: nat)                // hands on the next packet of the burst
    | Finish(w: nat, j: nat)                  // drops what was handed on
    | Submit(w: nat, b: Buf)                  // fills a transmit slot
    | Reclaim(w: nat)                         // empties the oldest transmit slot
    | FillRx(w: nat, b: Buf)                  // fills a receive slot
    | DrainRx(w: nat)                         // empties the first

  /** `Refused`: not the worker's to do, or no room. `Panic`: the pool is empty. */
  datatype Outcome = Refused | Panic | Go(world: World)

  function Gain(s: World, w: nat, b: Buf): World
    requires w < |s.hands|
  {
    s.(hands := s.hands[w := s.hands[w] + multiset{b}])
  }

  function Lose(s: World, w: nat, bs: seq<Buf>): World
    requires w < |s.hands|
  {
    s.(hands := s.hands[w := s.hands[w] - multiset(bs)])
  }

  /** The first `n` of `bs` from the hands of `w` to the end of queue `j`. */
  function Queued(s: World, w: nat, j: nat, bs: seq<Buf>, n: nat): World
    requires w < |s.hands| && j < |s.queues| && n <= |bs|
  {
    var q := s.queues[j];
    Lose(s, w, bs[..n]).(queues := s.queues[j := q.(items := q.items + bs[..n])])
  }

  /** The next packet of the burst of queue `j` to the hands of `w`. */
  function Handed(s: World, w: nat, j: nat): World
    requires w < |s.hands| && j < |s.queues| && s.queues[j].handed < |s.queues[j].items|
  {
    var q := s.queues[j];
    Gain(s, w, q.items[q.handed]).(queues := s.queues[j := q.(handed := q.handed + 1)])
  }

  /** New buffers; each goes to the front of the list. */
  function Made(pool: nat, n: nat): seq<Buf> { seq(n, i => pool + n - 1 - i) }

  /** How many of `bs` queue `j` has room for. Packets that are handed on keep their
      slots. */
  function Fit(c: Setup, s: World, j: nat, bs: seq<Buf>): (n: nat)
    requires Shaped(c, s) && j < |c.caps|
    ensures n <= |bs|
  {
    Min(|bs|, c.caps[j] - |s.queues[j].items|)
  }

  function QueueStep(c: Setup, s: World, a: Action): Outcome
    requires Shaped(c, s) && a.w < |s.hands| && (a.Append? || a.Peek? || a.TakeNext? || a.Finish?)
  {
    if a.j >= |s.queues| then Refused else
    var q := s.queues[a.j];
    match a
    case Append(w, j, bs) =>
      if !(multiset(bs) <= s.hands[w]) then Refused
      else Go(Queued(s, w, j, bs, Fit(c, s, j, bs)))
    case Peek(w, j, n) =>
      if c.consumer[j] != w || q.burst != 0 || n > |q.items| then Refused
      else Go(s.(queues := s.queues[j := q.(burst := n)]))
    case TakeNext(w, j) =>
      if c.consumer[j] != w || q.handed == q.burst then Refused
      else Go(Handed(s, w, j))
    case Finish(w, j) =>
      if c.consumer[j] != w then Refused
      else Go(s.(queues := s.queues[j := Fifo(q.items[q.handed..], 0, 0)]))
  }

  function Step(c: Setup, s: World, a: Action): Outcome
    requires Shaped(c, s)
  {
    if a.w >= |s.hands| then Refused else
    match a
    case Grow(w, n) => Go(s.(pool := s.pool + n, free := Made(s.pool, n) + s.free))
    case Alloc(w) => if s.free == [] then Panic else Go(Gain(s, w, s.free[0]).(free := s.free[1..]))
    case Free(w, b) => if b !in s.hands[w] then Refused else Go(Lose(s, w, [b]).(free := [b] + s.free))
    case Keep(w, b) =>
      if b !in s.hands[w] then Refused else Go(Lose(s, w, [b]).(firewall := s.firewall + multiset{b}))
    case Submit(w, b) =>
      if w != c.submitter || b !in s.hands[w] || |s.tx| == c.txSlots then Refused
      else Go(Lose(s, w, [b]).(tx := s.tx + [b]))
    case Reclaim(w) =>
      if w != c.completer || s.tx == [] then Refused else Go(Gain(s, w, s.tx[0]).(tx := s.tx[1..]))
    case FillRx(w, b) =>
      if w != c.filler || b !in s.hands[w] then Refused else Go(Lose(s, w, [b]).(rx := s.rx + [b]))
    case DrainRx(w) =>
      if w != c.filler || s.rx == [] then Refused else Go(Gain(s, w, s.rx[0]).(rx := s.rx[1..]))
    case _ => QueueStep(c, s, a)
  }

  lemma StepKeepsShape(c: Setup, s: World, a: Action)
    requires Shaped(c, s) && Step(c, s, a).Go?
    ensures Shaped(c, Step(c, s, a).world) && |Step(c, s, a).world.hands| == |s.hands|
  {
    match a
    case Append(_, _, _) =>
    case Finish(_, _) =>
    case _ =>
  }

  lemma HandsOn(c: Setup, s: World, w: nat, j: nat)
    requires Shaped(c, s) && w < |s.hands| && j < |c.caps| && c.consumer[j] == w
    requires s.queues[j].handed < s.queues[j].burst
    ensures s.queues[j].handed < |s.queues[j].items| && Step(c, s, TakeNext(w, j)) == Go(Handed(s, w, j))
  {
  }

  ghost function Run(c: Setup, s: World, actions: seq<Action>): (out: Outcome)
    requires Shaped(c, s)
    ensures out.Go? ==> Shaped(c, out.world) && |out.world.hands| == |s.hands|
    decreases |actions|
  {
    if actions == [] then Go(s)
    else
      var n := |actions| - 1;
      match Run(c, s, actions[..n])
      case Go(t) =>
        var out := Step(c, t, actions[n]);
        if out.Go? then StepKeepsShape(c, t, actions[n]); out else out
      case stuck => stuck
  }

  /** What worker `w` did in a run. */
  ghost function Mine(actions: seq<Action>, w: nat): seq<Action> {
    if actions == [] then []
    else
      var n := |actions| - 1;
      Mine(actions[..n], w) + if actions[n].w == w then [actions[n]] else []
  }

  /** One more step. */
  lemma RunNext(c: Setup, s: World, actions: seq<Action>, a: Action)
    requires Shaped(c, s) && Run(c, s, actions).Go?
    ensures Run(c, s, actions + [a]) == Step(c, Run(c, s, actions).world, a)
    ensures Mine(actions + [a], a.w) == Mine(actions, a.w) + [a]
  {
    assert (actions + [a])[..|actions|] == actions;
  }

  lemma RunLast(c: Setup, s: World, actions: seq<Action>)
    requires Shaped(c, s) && actions != [] && Run(c, s, actions).Go?
    ensures var n := |actions| - 1;
            Run(c, s, actions[..n]).Go? && Run(c, s, actions) == Step(c, Run(c, s, actions[..n]).world, actions[n])
  {
  }

  lemma {:induction false} MineGrows(before: seq<Action>, after: seq<Action>, w: nat)
    requires before <= after
    ensures Mine(before, w) <= Mine(after, w)
    decreases |after|
  {
    if |before| == |after| {
      assert before == after;
    } else {
      MineGrows(before, after[..|after| - 1], w);
    }
  }

  // ------------------------------------------------------------ conservation

  /** What a queue owns: the packets that have not been handed on. */
  function Own(q: Fifo): seq<Buf> {
    if q.handed <= |q.items| then q.items[q.handed..] else []
  }

  ghost function One(x: Buf, b: Buf): nat { if x == b then 1 else 0 }

  /** How often `b` occurs in a list, in the queues, and in the workers' hands. */
  ghost function Count(s: seq<Buf>, b: Buf): nat {
    if s == [] then 0 else One(s[0], b) + Count(s[1..], b)
  }

  ghost function InQueues(queues: seq<Fifo>, b: Buf): nat {
    if queues == [] then 0 else InQueues(queues[..|queues| - 1], b) + Count(Own(queues[|queues| - 1]), b)
  }

  ghost function InHands(hands: seq<multiset<Buf>>, b: Buf): nat {
    if hands == [] then 0 else InHands(hands[..|hands| - 1], b) + hands[|hands| - 1][b]
  }

  /** How often `b` is owned at all. */
  ghost function Tally(s: World, b: Buf): nat {
    Count(s.free, b) + Count(s.tx, b) + Count(s.rx, b) + s.firewall[b] + InQueues(s.queues, b) + InHands(s.hands, b)
  }

  lemma {:induction false} CountConcat(s: seq<Buf>, t: seq<Buf>, b: Buf)
    ensures Count(s + t, b) == Count(s, b) + Count(t, b)
  {
    if s == [] {
      assert s + t == t;
    } else {
      assert (s + t)[1..] == s[1..] + t;
      CountConcat(s[1..], t, b);
    }
  }

  lemma {:induction false} CountIsMultiset(s: seq<Buf>, b: Buf)
    ensures multiset(s)[b] == Count(s, b)
  {
    if s != [] {
      assert s == [s[0]] + s[1..];
      CountIsMultiset(s[1..], b);
    }
  }

  lemma {:induction false} QueueUpdate(queues: seq<Fifo>, j: nat, q: Fifo, b: Buf)
    requires j < |queues|
    ensures InQueues(queues[j := q], b) + Count(Own(queues[j]), b) == InQueues(queues, b) + Count(Own(q), b)
    decreases |queues|
  {
    var n := |queues| - 1;
    if j < n {
      QueueUpdate(queues[..n], j, q, b);
      assert queues[j := q][..n] == queues[..n][j := q];
    } else {
      assert queues[j := q][..n] == queues[..n];
    }
  }

  lemma {:induction false} HandUpdate(hands: seq<multiset<Buf>>, w: nat, m: multiset<Buf>, b: Buf)
    requires w < |hands|
    ensures InHands(hands[w := m], b) + hands[w][b] == InHands(hands, b) + m[b]
    decreases |hands|
  {
    var n := |hands| - 1;
    if w < n {
      HandUpdate(hands[..n], w, m, b);
      assert hands[w := m][..n] == hands[..n][w := m];
    } else {
      assert hands[w := m][..n] == hands[..n];
    }
  }

  lemma GainCounts(s: World, w: nat, x: Buf, b: Buf)
    requires w < |s.hands|
    ensures InHands(Gain(s, w, x).hands, b) == InHands(s.hands, b) + One(x, b)
  {
    HandUpdate(s.hands, w, s.hands[w] + multiset{x}, b);
  }

  lemma LoseCounts(s: World, w: nat, bs: seq<Buf>, b: Buf)
    requires w < |s.hands| && multiset(bs) <= s.hands[w]
    ensures InHands(Lose(s, w, bs).hands, b) + Count(bs, b) == InHands(s.hands, b)
  {
    HandUpdate(s.hands, w, s.hands[w] - multiset(bs), b);
    CountIsMultiset(bs, b);
  }

  lemma LoseOneCounts(s: World, w: nat, x: Buf, b: Buf)
    requires w < |s.hands| && x in s.hands[w]
    ensures InHands(Lose(s, w, [x]).hands, b) + One(x, b) == InHands(s.hands, b)
  {
    HandUpdate(s.hands, w, s.hands[w] - multiset([x]), b);
  }

  lemma OwnGrows(q: Fifo, fit: seq<Buf>, b: Buf)
    requires q.handed <= |q.items|
    ensures Count(Own(q.(items := q.items + fit)), b) == Count(Own(q), b) + Count(fit, b)
  {
    OwnAppends(q, fit);
    CountConcat(Own(q), fit, b);
  }

  lemma QueuedConserves(s: World, w: nat, j: nat, bs: seq<Buf>, n: nat, b: Buf)
    requires w < |s.hands| && j < |s.queues| && n <= |bs| && multiset(bs[..n]) <= s.hands[w]
    requires s.queues[j].handed <= |s.queues[j].items|
    ensures Tally(Queued(s, w, j, bs, n), b) == Tally(s, b)
  {
    var q, fit := s.queues[j], bs[..n];
    LoseCounts(s, w, fit, b);
    QueueUpdate(s.queues, j, q.(items := q.items + fit), b);
    OwnGrows(q, fit, b);
  }

  lemma PrefixFits(bs: seq<Buf>, n: nat, m: multiset<Buf>)
    requires n <= |bs| && multiset(bs) <= m
    ensures multiset(bs[..n]) <= m
  {
    assert bs == bs[..n] + bs[n..];
  }

  lemma TakeConserves(c: Setup, s: World, w: nat, j: nat, b: Buf)
    requires Shaped(c, s) && w < |s.hands| && QueueStep(c, s, TakeNext(w, j)).Go?
    ensures Tally(QueueStep(c, s, TakeNext(w, j)).world, b) == Tally(s, b)
  {
    var q := s.queues[j];
    var q' := q.(handed := q.handed + 1);
    GainCounts(s, w, q.items[q.handed], b);
    QueueUpdate(s.queues, j, q', b);
    assert Own(q') == Own(q)[1..];
  }

  /** Bursts begin and end without a change of owner. */
  lemma BurstConserves(c: Setup, s: World, a: Action, b: Buf)
    requires Shaped(c, s) && a.w < |s.hands| && (a.Peek? || a.Finish?) && QueueStep(c, s, a).Go?
    ensures Tally(QueueStep(c, s, a).world, b) == Tally(s, b)
  {
    QueueUpdate(s.queues, a.j, QueueStep(c, s, a).world.queues[a.j], b);
  }

  /** Into the hands: from the free list or a ring. */
  lemma TakingConserves(c: Setup, s: World, a: Action, b: Buf)
    requires Shaped(c, s) && (a.Alloc? || a.Reclaim? || a.DrainRx?) && Step(c, s, a).Go?
    ensures Tally(Step(c, s, a).world, b) == Tally(s, b)
  {
    var from := if a.Alloc? then s.free else if a.Reclaim? then s.tx else s.rx;
    GainCounts(s, a.w, from[0], b);
    assert Count(from, b) == One(from[0], b) + Count(from[1..], b);
  }

  /** Out of the hands: to the free list, the firewall or a ring. */
  lemma GivingConserves(c: Setup, s: World, a: Action, b: Buf)
    requires Shaped(c, s) && (a.Free? || a.Keep? || a.Submit? || a.FillRx?) && Step(c, s, a).Go?
    ensures Tally(Step(c, s, a).world, b) == Tally(s, b)
  {
    LoseOneCounts(s, a.w, a.b, b);
    CountConcat([a.b], s.free, b);
    CountConcat(s.tx, [a.b], b);
    CountConcat(s.rx, [a.b], b);
  }

  lemma AppendConserves(c: Setup, s: World, a: Action, b: Buf)
    requires Shaped(c, s) && a.Append? && Step(c, s, a).Go?
    ensures Tally(Step(c, s, a).world, b) == Tally(s, b)
  {
    var n := Fit(c, s, a.j, a.bs);
    PrefixFits(a.bs, n, s.hands[a.w]);
    QueuedConserves(s, a.w, a.j, a.bs, n, b);
  }

  lemma {:induction false} MadeCounts(pool: nat, n: nat, b: Buf)
    ensures Count(Made(pool, n), b) == if pool <= b < pool + n then 1 else 0
  {
    if n > 0 {
      assert Made(pool, n)[1..] == Made(pool, n - 1);
      MadeCounts(pool, n - 1, b);
    }
  }

  /** Whether `b` has been made. */
  ghost function Exists(s: World, b: Buf): nat { if b < s.pool then 1 else 0 }

  lemma GrowConserves(c: Setup, s: World, a: Action, b: Buf)
    requires Shaped(c, s) && a.Grow? && Step(c, s, a).Go?
    ensures var t := Step(c, s, a).world; Tally(t, b) + Exists(s, b) == Tally(s, b) + Exists(t, b)
  {
    MadeCounts(s.pool, a.n, b);
    CountConcat(Made(s.pool, a.n), s.free, b);
  }

  /** No step loses a buffer or makes one appear twice. */
  lemma StepConserves(c: Setup, s: World, a: Action, b: Buf)
    requires Shaped(c, s) && Step(c, s, a).Go?
    ensures var t := Step(c, s, a).world; Tally(t, b) + Exists(s, b) == Tally(s, b) + Exists(t, b)
  {
    if a.Grow? {
      GrowConserves(c, s, a, b);
    } else if a.Append? {
      AppendConserves(c, s, a, b);
    } else if a.TakeNext? {
      TakeConserves(c, s, a.w, a.j, b);
    } else if a.Peek? || a.Finish? {
      BurstConserves(c, s, a, b);
    } else if a.Alloc? || a.Reclaim? || a.DrainRx? {
      TakingConserves(c, s, a, b);
    } else {
      GivingConserves(c, s, a, b);
    }
  }

  lemma {:induction false} RunConserves(c: Setup, s: World, actions: seq<Action>, b: Buf)
    requires Shaped(c, s) && Run(c, s, actions).Go?
    ensures var t := Run(c, s, actions).world; Tally(t, b) + Exists(s, b) == Tally(s, b) + Exists(t, b)
    decreases |actions|
  {
    if actions != [] {
      var n := |actions| - 1;
      RunConserves(c, s, actions[..n], b);
      StepConserves(c, Run(c, s, actions[..n]).world, actions[n], b);
    }
  }

  // ------------------------------------------------------------- partition

  datatype Place = FreeList | Queue(j: nat) | Hands(w: nat) | TxRing | RxRing | Firewall

  /** How often `b` is owned at a place. */
  ghost function At(s: World, p: Place, b: Buf): nat {
    match p
    case FreeList => Count(s.free, b)
    case Queue(j) => if j < |s.queues| then Count(Own(s.queues[j]), b) else 0
    case Hands(w) => if w < |s.hands| then s.hands[w][b] else 0
    case TxRing => Count(s.tx, b)
    case RxRing => Count(s.rx, b)
    case Firewall => s.firewall[b]
  }

  /** `b` is at `p`, there once, and nowhere else. */
  ghost predicate OnlyAt(s: World, p: Place, b: Buf) {
    At(s, p, b) == 1 && forall q :: q != p ==> At(s, q, b) == 0
  }

  lemma {:induction false} QueueCounts(queues: seq<Fifo>, i: nat, b: Buf)
    requires i < |queues|
    ensures Count(Own(queues[i]), b) <= InQueues(queues, b)
    decreases |queues|
  {
    if i < |queues| - 1 {
      QueueCounts(queues[..|queues| - 1], i, b);
    }
  }

  lemma QueuePair(queues: seq<Fifo>, i: nat, j: nat, b: Buf)
    requires i < j < |queues|
    ensures Count(Own(queues[i]), b) + Count(Own(queues[j]), b) <= InQueues(queues, b)
  {
    var none := Fifo([], 0, 0);
    QueueUpdate(queues, j, none, b);
    QueueCounts(queues[j := none], i, b);
    assert Own(none) == [];
  }

  lemma {:induction false} HandCounts(hands: seq<multiset<Buf>>, v: nat, b: Buf)
    requires v < |hands|
    ensures hands[v][b] <= InHands(hands, b)
    decreases |hands|
  {
    if v < |hands| - 1 {
      HandCounts(hands[..|hands| - 1], v, b);
    }
  }

  lemma {:induction false} HandPair(hands: seq<multiset<Buf>>, v: nat, w: nat, b: Buf)
    requires v < w < |hands|
    ensures hands[v][b] + hands[w][b] <= InHands(hands, b)
    decreases |hands|
  {
    var n := |hands| - 1;
    if w < n {
      HandPair(hands[..n], v, w, b);
    } else {
      HandCounts(hands[..n], v, b);
    }
  }

  /** What a place holds is within its part of the tally. */
  lemma PlaceCounts(s: World, p: Place, b: Buf)
    ensures p.Queue? ==> At(s, p, b) <= InQueues(s.queues, b)
    ensures p.Hands? ==> At(s, p, b) <= InHands(s.hands, b)
  {
    if p.Queue? && p.j < |s.queues| {
      QueueCounts(s.queues, p.j, b);
    }
    if p.Hands? && p.w < |s.hands| {
      HandCounts(s.hands, p.w, b);
    }
  }

  lemma PairCounts(s: World, p: Place, q: Place, b: Buf)
    requires p != q
    ensures At(s, p, b) + At(s, q, b) <= Tally(s, b)
  {
    PlaceCounts(s, p, b);
    PlaceCounts(s, q, b);
    if p.Queue? && q.Queue? && p.j < |s.queues| && q.j < |s.queues| {
      QueuePair(s.queues, Min(p.j, q.j), Max(p.j, q.j), b);
    }
    if p.Hands? && q.Hands? && p.w < |s.hands| && q.w < |s.hands| {
      HandPair(s.hands, Min(p.w, q.w), Max(p.w, q.w), b);
    }
  }

  lemma {:induction false} FindQueue(queues: seq<Fifo>, b: Buf) returns (j: nat)
    requires InQueues(queues, b) > 0
    ensures j < |queues| && Count(Own(queues[j]), b) > 0
    decreases |queues|
  {
    var n := |queues| - 1;
    if Count(Own(queues[n]), b) > 0 {
      j := n;
    } else {
      j := FindQueue(queues[..n], b);
    }
  }

  lemma {:induction false} FindHand(hands: seq<multiset<Buf>>, b: Buf) returns (w: nat)
    requires InHands(hands, b) > 0
    ensures w < |hands| && hands[w][b] > 0
    decreases |hands|
  {
    var n := |hands| - 1;
    if hands[n][b] > 0 {
      w := n;
    } else {
      w := FindHand(hands[..n], b);
    }
  }

  lemma FindPlace(s: World, b: Buf) returns (p: Place)
    requires Tally(s, b) > 0
    ensures At(s, p, b) > 0
  {
    if InQueues(s.queues, b) > 0 {
      var j := FindQueue(s.queues, b);
      p := Queue(j);
    } else if InHands(s.hands, b) > 0 {
      var w := FindHand(s.hands, b);
      p := Hands(w);
    } else {
      p := if Count(s.free, b) > 0 then FreeList else if Count(s.tx, b) > 0 then TxRing
      else if Count(s.rx, b) > 0 then RxRing else Firewall;
    }
  }

  /** A buffer that is counted once is at exactly one place. */
  lemma OnceIsOnePlace(s: World, b: Buf) returns (p: Place)
    requires Tally(s, b) == 1
    ensures OnlyAt(s, p, b)
  {
    p := FindPlace(s, b);
    forall q | q != p
      ensures At(s, q, b) == 0
    {
      PairCounts(s, p, q, b);
    }
    PairCounts(s, p, if p.TxRing? then RxRing else TxRing, b);
  }

  /** Before any buffer is made. */
  ghost function Empty(c: Setup, workers: nat): (s: World)
    requires |c.caps| == |c.consumer|
    ensures Shaped(c, s)
  {
    World(0, [], seq(|c.caps|, _ => Fifo([], 0, 0)), [], [], multiset{}, seq(workers, _ => multiset{}))
  }

  lemma {:induction false} EmptyQueues(queues: seq<Fifo>, b: Buf)
    requires forall j :: 0 <= j < |queues| ==> queues[j] == Fifo([], 0, 0)
    ensures InQueues(queues, b) == 0
    decreases |queues|
  {
    if queues != [] {
      EmptyQueues(queues[..|queues| - 1], b);
    }
  }

  lemma {:induction false} EmptyHands(hands: seq<multiset<Buf>>, b: Buf)
    requires forall w :: 0 <= w < |hands| ==> hands[w] == multiset{}
    ensures InHands(hands, b) == 0
    decreases |hands|
  {
    if hands != [] {
      EmptyHands(hands[..|hands| - 1], b);
    }
  }

  /** Ownership is a partition: after every run of any number of workers, each buffer
      that was made is at exactly one place, there once, and nothing else is
      anywhere. */
  lemma OwnershipIsAPartition(c: Setup, workers: nat, actions: seq<Action>, b: Buf)
    requires |c.caps| == |c.consumer| && Run(c, Empty(c, workers), actions).Go?
    ensures var s := Run(c, Empty(c, workers), actions).world;
            if b < s.pool then exists p :: OnlyAt(s, p, b) else forall p :: At(s, p, b) == 0
  {
    EmptyQueues(Empty(c, workers).queues, b);
    EmptyHands(Empty(c, workers).hands, b);
    RunConserves(c, Empty(c, workers), actions, b);
    var s := Run(c, Empty(c, workers), actions).world;
    if b < s.pool {
      var p := OnceIsOnePlace(s, b);
    } else {
      forall p
        ensures At(s, p, b) == 0
      {
        PairCounts(s, p, if p.TxRing? then RxRing else TxRing, b);
      }
    }
  }

  // ------------------------------------------------------------------ order

  /** What a step adds to queue `j`, and what it hands on from it. */
  ghost function Added(c: Setup, s: World, a: Action, j: nat): seq<Buf>
    requires Shaped(c, s) && j < |c.caps|
  {
    if a.Append? && a.j == j then a.bs[..Fit(c, s, j, a.bs)] else []
  }

  ghost function HandedOn(c: Setup, s: World, a: Action, j: nat): seq<Buf>
    requires Shaped(c, s) && j < |c.caps|
  {
    var q := s.queues[j];
    if a.TakeNext? && a.j == j && q.handed < |q.items| then [q.items[q.handed]] else []
  }

  /** Everything a run adds to queue `j`, by whomever, in order. */
  ghost function Into(c: Setup, s: World, actions: seq<Action>, j: nat): seq<Buf>
    requires Shaped(c, s) && j < |c.caps| && Run(c, s, actions).Go?
    decreases |actions|
  {
    if actions == [] then []
    else
      var n := |actions| - 1;
      Into(c, s, actions[..n], j) + Added(c, Run(c, s, actions[..n]).world, actions[n], j)
  }

  /** Everything its consumer takes from it, in order. */
  ghost function OutOf(c: Setup, s: World, actions: seq<Action>, j: nat): seq<Buf>
    requires Shaped(c, s) && j < |c.caps| && Run(c, s, actions).Go?
    decreases |actions|
  {
    if actions == [] then []
    else
      var n := |actions| - 1;
      OutOf(c, s, actions[..n], j) + HandedOn(c, Run(c, s, actions[..n]).world, actions[n], j)
  }

  lemma OwnAppends(q: Fifo, fit: seq<Buf>)
    requires q.handed <= |q.items|
    ensures Own(q.(items := q.items + fit)) == Own(q) + fit
  {
  }

  lemma OwnHandsOn(q: Fifo)
    requires q.handed < |q.items|
    ensures Own(q) == [q.items[q.handed]] + Own(q.(handed := q.handed + 1))
  {
  }

  lemma OtherQueueStays(c: Setup, s: World, a: Action, j: nat)
    requires Shaped(c, s) && j < |c.caps| && Step(c, s, a).Go?
    requires (a.Append? || a.Peek? || a.TakeNext? || a.Finish?) ==> a.j != j
    ensures Step(c, s, a).world.queues[j] == s.queues[j]
  {
  }

  lemma StepKeepsOrder(c: Setup, s: World, a: Action, j: nat)
    requires Shaped(c, s) && j < |c.caps| && Step(c, s, a).Go?
    ensures Own(s.queues[j]) + Added(c, s, a, j) == HandedOn(c, s, a, j) + Own(Step(c, s, a).world.queues[j])
  {
    var q := s.queues[j];
    if a.Append? && a.j == j {
      OwnAppends(q, a.bs[..Fit(c, s, j, a.bs)]);
    } else if a.TakeNext? && a.j == j {
      OwnHandsOn(q);
    } else if (a.Peek? || a.Finish?) && a.j == j {
      assert Own(Step(c, s, a).world.queues[j]) == Own(q);
    } else {
      OtherQueueStays(c, s, a, j);
    }
  }

  /** Queues are first in, first out over every run: what was put into a queue, by all
      workers in the order of their appends, is what its consumer has taken, in
      that order, followed by what the queue still owns. */
  lemma {:induction false} QueuesKeepOrder(c: Setup, s: World, actions: seq<Action>, j: nat)
    requires Shaped(c, s) && j < |c.caps| && Run(c, s, actions).Go?
    ensures Own(s.queues[j]) + Into(c, s, actions, j)
         == OutOf(c, s, actions, j) + Own(Run(c, s, actions).world.queues[j])
    decreases |actions|
  {
    if actions != [] {
      var n := |actions| - 1;
      var t := Run(c, s, actions[..n]).world;
      QueuesKeepOrder(c, s, actions[..n], j);
      StepKeepsOrder(c, t, actions[n], j);
      Regroup(Own(s.queues[j]), Into(c, s, actions[..n], j), OutOf(c, s, actions[..n], j), Own(t.queues[j]),
              Added(c, t, actions[n], j), HandedOn(c, t, actions[n], j), Own(Run(c, s, actions).world.queues[j]));
    }
  }

  lemma Regroup(a: seq<Buf>, b: seq<Buf>, x: seq<Buf>, y: seq<Buf>, plus: seq<Buf>, minus: seq<Buf>, z: seq<Buf>)
    requires a + b == x + y && y + plus == minus + z
    ensures a + (b + plus) == (x + minus) + z
  {
    assert a + (b + plus) == (a + b) + plus;
    assert (x + y) + plus == x + (y + plus);
    assert x + (minus + z) == (x + minus) + z;
  }

  lemma {:induction false} IntoGrows(c: Setup, s: World, actions: seq<Action>, k: nat, j: nat)
    requires Shaped(c, s) && j < |c.caps| && k <= |actions| && Run(c, s, actions).Go?
    ensures Run(c, s, actions[..k]).Go? && Into(c, s, actions[..k], j) <= Into(c, s, actions, j)
    decreases |actions|
  {
    if k == |actions| {
      assert actions[..k] == actions;
    } else {
      var n := |actions| - 1;
      RunLast(c, s, actions);
      IntoGrows(c, s, actions[..n], k, j);
      assert actions[..n][..k] == actions[..k];
    }
  }

  /** An append of a run puts what fits into the queue, in one piece. */
  lemma AppendReaches(c: Setup, s: World, actions: seq<Action>, i: nat)
    requires Shaped(c, s) && Run(c, s, actions).Go? && i < |actions|
    requires actions[i].Append? && actions[i].j < |c.caps|
    ensures Run(c, s, actions[..i]).Go?
    ensures var a, t := actions[i], Run(c, s, actions[..i]).world;
            Into(c, s, actions[..i], a.j) + a.bs[..Fit(c, t, a.j, a.bs)] <= Into(c, s, actions, a.j)
  {
    IntoGrows(c, s, actions, i + 1, actions[i].j);
    RunLast(c, s, actions[..i + 1]);
    assert actions[..i + 1][..i] == actions[..i];
  }

  /** The same for the transmit ring. */
  ghost function Submitted(c: Setup, s: World, actions: seq<Action>): seq<Buf> {
    if actions == [] then []
    else
      var n := |actions| - 1;
      Submitted(c, s, actions[..n]) + if actions[n].Submit? then [actions[n].b] else []
  }

  ghost function Reclaimed(c: Setup, s: World, actions: seq<Action>): seq<Buf>
    requires Shaped(c, s) && Run(c, s, actions).Go?
    decreases |actions|
  {
    if actions == [] then []
    else
      var n := |actions| - 1;
      var tx := Run(c, s, actions[..n]).world.tx;
      Reclaimed(c, s, actions[..n]) + if actions[n].Reclaim? && tx != [] then [tx[0]] else []
  }

  lemma StepKeepsTx(c: Setup, s: World, a: Action)
    requires Shaped(c, s) && Step(c, s, a).Go?
    ensures s.tx + (if a.Submit? then [a.b] else [])
         == (if a.Reclaim? && s.tx != [] then [s.tx[0]] else []) + Step(c, s, a).world.tx
  {
  }

  /** What was submitted, in order, is what was reclaimed, in that order, and what the
      ring still holds. */
  lemma {:induction false} TxKeepsOrder(c: Setup, s: World, actions: seq<Action>)
    requires Shaped(c, s) && Run(c, s, actions).Go?
    ensures s.tx + Submitted(c, s, actions) == Reclaimed(c, s, actions) + Run(c, s, actions).world.tx
    decreases |actions|
  {
    if actions != [] {
      var n := |actions| - 1;
      var a, t, u := actions[n], Run(c, s, actions[..n]).world, Run(c, s, actions).world;
      TxKeepsOrder(c, s, actions[..n]);
      var plus := if a.Submit? then [a.b] else [];
      var minus := if a.Reclaim? && t.tx != [] then [t.tx[0]] else [];
      StepKeepsTx(c, t, a);
      Regroup(s.tx, Submitted(c, s, actions[..n]), Reclaimed(c, s, actions[..n]), t.tx, plus, minus, u.tx);
    }
  }

  // ------------------------------------------------------------ interference

  /** The consumer's side of a queue is untouched; packets may have been added. */
  ghost predicate SameBurst(q: Fifo, r: Fifo) {
    r.burst == q.burst && r.handed == q.handed && q.items <= r.items
  }

  /** What stays as worker `w` left it: its bursts and its end of the rings. */
  ghost predicate Calm(c: Setup, w: nat, s: World, t: World)
    requires Shaped(c, s)
  {
    && Shaped(c, t) && |t.hands| == |s.hands|
    && (forall j :: 0 <= j < |c.caps| && c.consumer[j] == w ==> SameBurst(s.queues[j], t.queues[j]))
    && (w == c.completer ==> s.tx <= t.tx) && (w == c.submitter ==> |t.tx| <= |s.tx|)
    && (w == c.filler ==> t.rx == s.rx)
  }

  /** As much, and `w` holds what it had. */
  ghost predicate Kept(c: Setup, w: nat, s: World, t: World)
    requires Shaped(c, s) && w < |s.hands|
  {
    Calm(c, w, s, t) && t.hands[w] == s.hands[w]
  }

  lemma CalmTrans(c: Setup, w: nat, s: World, t: World, u: World)
    requires Shaped(c, s) && Calm(c, w, s, t) && Calm(c, w, t, u)
    ensures Calm(c, w, s, u)
  {
  }

  /** No step of another worker touches what is kept for `w`. */
  lemma OtherStepKeeps(c: Setup, w: nat, s: World, a: Action)
    requires Shaped(c, s) && w < |s.hands| && a.w != w && Step(c, s, a).Go?
    ensures Kept(c, w, s, Step(c, s, a).world)
  {
    StepKeepsShape(c, s, a);
    match a
    case Append(_, _, _) =>
    case Finish(_, _) =>
    case _ =>
  }

  lemma LastIsNotMine(before: seq<Action>, after: seq<Action>, w: nat)
    requires before < after && Mine(after, w) == Mine(before, w)
    ensures var n := |after| - 1; before <= after[..n] && after[n].w != w && Mine(after[..n], w) == Mine(before, w)
  {
    MineGrows(before, after[..|after| - 1], w);
  }

  /** Nor does any run in which `w` takes no further step. */
  lemma {:induction false} OthersKeep(c: Setup, s: World, before: seq<Action>, after: seq<Action>, w: nat)
    requires Shaped(c, s) && w < |s.hands| && Run(c, s, after).Go?
    requires before <= after && Mine(after, w) == Mine(before, w)
    ensures Run(c, s, before).Go? && Kept(c, w, Run(c, s, before).world, Run(c, s, after).world)
    decreases |after|
  {
    if |before| == |after| {
      assert before == after;
    } else {
      var n := |after| - 1;
      LastIsNotMine(before, after, w);
      RunLast(c, s, after);
      OthersKeep(c, s, before, after[..n], w);
      OtherStepKeeps(c, w, Run(c, s, after[..n]).world, after[n]);
      CalmTrans(c, w, Run(c, s, before).world, Run(c, s, after[..n]).world, Run(c, s, after).world);
    }
  }

  /** A worker's own making, allocating, freeing and appending is calm too. */
  lemma OwnStepIsCalm(c: Setup, s: World, a: Action)
    requires Shaped(c, s) && (a.Grow? || a.Alloc? || a.Free? || a.Keep? || a.Append?) && Step(c, s, a).Go?
    ensures Calm(c, a.w, s, Step(c, s, a).world)
  {
    StepKeepsShape(c, s, a);
  }

  // -------------------------------------------------------------- refinement

  /** The circular queue of `PacketQueue` as a `Fifo`. */
  ghost function View(s: P.State): Fifo
    requires P.Shaped(s)
  {
    Fifo(P.Contents(s.q), if s.phase.Burst? then s.phase.n else 0, if s.phase.Burst? then s.phase.k else 0)
  }

  /** Its steps are the queue steps above: what is appended, looked up, handed on and
      dropped is the same, with the slots of handed-on packets still taken. */
  lemma QueueRefines(s: P.State, a: P.Action)
    requires P.Inv(s) && P.Step(s, a).Go?
    ensures P.Inv(P.Step(s, a).state)
    ensures var t, q := P.Step(s, a).state, View(s);
            match a
            case Produce(bs) => View(t) == q.(items := q.items + bs[..Min(|bs|, |s.q.slots| - |q.items|)])
            case Peek(limit) => View(t) == q.(burst := Min(limit, P.Contiguous(s.q))) && q.burst == 0
            case Hand => View(t) == q.(handed := q.handed + 1) && q.handed < q.burst
                         && t.handed == s.handed + [q.items[q.handed]]
            case Finish => View(t) == Fifo(q.items[q.handed..], 0, 0)
  {
    P.StepKeepsInv(s, a);
    match a
    case Produce(bs) => P.AddedAppends(s.q, bs);
    case Hand => P.HandTakesNext(s);
    case Finish => P.DroppedRemoves(s.q, s.phase.k);
    case Peek(_) =>
  }

  /** How many buffers of the transmit ring of `TxRing` have left it: those released
      and the one in the completer's hands. */
  ghost function Gone(s: T.State): nat {
    if s.com.CForget? || s.com.CUnmap? || s.com.CFree? || s.com.CAdvance? then s.released + 1 else s.released
  }

  /** The buffers that ring owns. */
  ghost function Outstanding(s: T.State): seq<Buf> {
    if Gone(s) <= |s.log| then s.log[Gone(s)..] else []
  }

  /** Handing a descriptor to the hardware submits, within the ring's room; no other
      store of the submitter moves a buffer. */
  lemma SubmitRefines(s: T.State)
    requires T.Placed(s) && T.SubmitNext(s).Go?
    ensures var o, p := Outstanding(s), Outstanding(T.SubmitNext(s).state);
            if s.sub.SReady? then p == o + [s.sub.b] && |o| < |s.slots| - 1 else p == o
  {
  }

  /** Taking the saved pointer of the oldest descriptor reclaims it; no other store of
      the completer moves a buffer. */
  lemma CompleteRefines(s: T.State)
    requires T.Placed(s) && T.Filled(s) && T.CompleteNext(s).Go?
    ensures var t, o := T.CompleteNext(s).state, Outstanding(s);
            if s.com.CTake? then o != [] && Outstanding(t) == o[1..] && t.com == T.CForget(o[0])
            else Outstanding(t) == o
  {
    if s.com.CTake? {
      assert s.slots[T.At(s, s.released)] == T.Expected(s, s.released);
    }
  }
}
