/** The circular packet queue between workers. Producers add under the queue lock;
    the one consumer looks up a contiguous stretch under the lock, works through it
    without the lock, and later drops what it has handed on. */
module PacketQueue {
  import opened Arith
  import opened Cyclic

  /** A buffer, by its number in the pool. */
  type Buf = nat

  datatype Queue = Queue(slots: seq<Buf>, read: nat, write: nat, count: nat)

  ghost predicate Ok(q: Queue) {
    && q.read < |q.slots| && q.count <= |q.slots|
    && q.write == Wrap(|q.slots|, q.read + q.count)
  }

  /** The queued packets, oldest first. */
  ghost function Contents(q: Queue): seq<Buf>
    requires Ok(q)
  {
    Window(q.slots, q.read, q.count)
  }

  /** How many of `n` packets still fit. */
  ghost function Fitting(q: Queue, n: nat): nat
    requires Ok(q)
  {
    Min(n, |q.slots| - q.count)
  }

  ghost function Added(q: Queue, bs: seq<Buf>): Queue
    requires Ok(q)
  {
    var n := Fitting(q, |bs|);
    q.(slots := Written(q.slots, q.write, bs[..n]), write := Wrap(|q.slots|, q.write + n), count := q.count + n)
  }

  ghost function Dropped(q: Queue, n: nat): Queue
    requires Ok(q) && n <= q.count
  {
    q.(read := Wrap(|q.slots|, q.read + n), count := q.count - n)
  }

  /** The packets that can be read without going round. */
  ghost function Contiguous(q: Queue): nat
    requires Ok(q)
  {
    Min(q.count, |q.slots| - q.read)
  }

  /** Adding appends what fits. */
  lemma AddedAppends(q: Queue, bs: seq<Buf>)
    requires Ok(q)
    ensures Ok(Added(q, bs)) && Contents(Added(q, bs)) == Contents(q) + bs[..Fitting(q, |bs|)]
  {
    WindowGrows(q.slots, q.read, q.count, bs[..Fitting(q, |bs|)]);
  }

  /** Dropping removes a prefix. */
  lemma DroppedRemoves(q: Queue, n: nat)
    requires Ok(q) && n <= q.count
    ensures Ok(Dropped(q, n)) && Contents(Dropped(q, n)) == Contents(q)[n..]
  {
    WindowSplits(q.slots, q.read, q.count, n);
  }

  /** The contiguous packets are the oldest ones, and there is one unless the queue
      is empty. */
  lemma ContiguousIsPrefix(q: Queue)
    requires Ok(q)
    ensures Contiguous(q) == 0 <==> q.count == 0
    ensures q.slots[q.read..q.read + Contiguous(q)] == Contents(q)[..Contiguous(q)]
  {
    WindowSplits(q.slots, q.read, q.count, Contiguous(q));
    WindowPieces(q.slots, q.read, Contiguous(q));
  }

  lemma ModIsWrap(i: nat, size: nat)
    requires i < 2 * size
    ensures i % size == Wrap(size, i)
  {
    if i >= size {
      assert i == size * 1 + (i - size);
    }
  }

  class PktQueue {
    const pkt: array<Buf>
    var nextRead: nat
    var nextWrite: nat
    var count: nat

    ghost function View(): Queue
      reads this, pkt
    {
      Queue(pkt[..], nextRead, nextWrite, count)
    }

    constructor (capacity: nat)
      requires capacity > 0
      ensures fresh(pkt) && pkt.Length == capacity && Ok(View()) && Contents(View()) == []
    {
      pkt := new Buf[capacity];
      nextRead, nextWrite, count := 0, 0, 0;
    }

    method BulkAdd(bs: seq<Buf>) returns (added: nat)
      requires Ok(View())
      modifies this, pkt
      ensures added == Fitting(old(View()), |bs|)
      ensures View() == Added(old(View()), bs)
    {
      var space := pkt.Length - count;
      added := if |bs| <= space then |bs| else space;
      ghost var before := pkt[..];
      var i := 0;
      assert before == Written(before, nextWrite, bs[..0]);
      while i < added
        invariant 0 <= i <= added && nextRead == old(nextRead) && count == old(count)
        invariant nextWrite == Wrap(pkt.Length, old(nextWrite) + i) < pkt.Length
        invariant pkt[..] == Written(before, old(nextWrite), bs[..i])
      {
        WriteNext(before, old(nextWrite), bs[..i], bs[i]);
        assert bs[..i] + [bs[i]] == bs[..i + 1];
        pkt[nextWrite] := bs[i];
        ModIsWrap(nextWrite + 1, pkt.Length);
        nextWrite := (nextWrite + 1) % pkt.Length;
        i := i + 1;
      }
      count := count + added;
    }

    method Add(b: Buf) returns (ok: bool)
      requires Ok(View())
      modifies this, pkt
      ensures ok <==> old(count) < pkt.Length
      ensures View() == if ok then Added(old(View()), [b]) else old(View())
    {
      if count >= pkt.Length {
        return false;
      }
      WriteNext(pkt[..], nextWrite, [], b);
      assert pkt[..] == Written(pkt[..], nextWrite, []);
      assert [] + [b] == [b] == [b][..1];
      pkt[nextWrite] := b;
      ModIsWrap(nextWrite + 1, pkt.Length);
      nextWrite := (nextWrite + 1) % pkt.Length;
      count := count + 1;
      ok := true;
    }

    method DropBufs(num: nat)
      requires Ok(View()) && num <= count
      modifies this
      ensures View() == Dropped(old(View()), num)
    {
      ModIsWrap(nextRead + num, pkt.Length);
      nextRead := (nextRead + num) % pkt.Length;
      count := count - num;
    }

    method ContigBufs() returns (n: nat)
      requires Ok(View())
      ensures n == Contiguous(View())
    {
      if count == 0 {
        return 0;
      }
      var tillEnd := 1 + (pkt.Length - 1 - nextRead);
      n := if tillEnd > count then count else tillEnd;
    }
  }

  // ------------------------------------------------- producers and a consumer

  /** `Burst(n, k)`: the consumer holds the `n` oldest packets and has handed `k`
      of them to the handler. */
  datatype Phase = Idle | Burst(n: nat, k: nat)

  /** With everything ever accepted and everything ever handed on. */
  datatype State = State(q: Queue, phase: Phase, accepted: seq<Buf>, handed: seq<Buf>)

  datatype Action =
    | Produce(bs: seq<Buf>)  // any producer, under the lock
    | Peek(limit: nat)       // the consumer, under the lock
    | Hand                   // the handler takes the next packet, without the lock
    | Finish                 // the consumer drops what was handed on, under the lock

  datatype Outcome = Refused | Go(state: State)

  ghost predicate Shaped(s: State) {
    && Ok(s.q)
    && (s.phase.Burst? ==> s.phase.k <= s.phase.n <= Contiguous(s.q))
  }

  ghost function Step(s: State, a: Action): Outcome
    requires Shaped(s)
  {
    match a
    case Produce(bs) => Go(s.(q := Added(s.q, bs), accepted := s.accepted + bs[..Fitting(s.q, |bs|)]))
    case Peek(limit) =>
      if !s.phase.Idle? then Refused
      else
        var n := Min(limit, Contiguous(s.q));
        Go(if n == 0 then s else s.(phase := Burst(n, 0)))
    case Hand =>
      if !s.phase.Burst? || s.phase.k == s.phase.n then Refused
      else
        Go(s.(handed := s.handed + [s.q.slots[s.q.read + s.phase.k]], phase := Burst(s.phase.n, s.phase.k + 1)))
    case Finish =>
      if !s.phase.Burst? then Refused
      else Go(s.(q := Dropped(s.q, s.phase.k), phase := Idle))
  }

  /** The packets of the burst that are handed on but still in the queue. */
  ghost function Ahead(s: State): nat {
    if s.phase.Burst? then s.phase.k else 0
  }

  ghost predicate Inv(s: State) {
    && Shaped(s)
    && Ahead(s) <= |s.handed|
    && s.accepted == s.handed[..|s.handed| - Ahead(s)] + Contents(s.q)
    && s.handed <= s.accepted
  }

  lemma ProduceKeepsInv(s: State, bs: seq<Buf>)
    requires Inv(s)
    ensures Inv(Step(s, Produce(bs)).state)
  {
    AddedAppends(s.q, bs);
  }

  lemma HandTakesNext(s: State)
    requires Inv(s) && s.phase.Burst? && s.phase.k < s.phase.n
    ensures |s.handed| < |s.accepted| && s.q.slots[s.q.read + s.phase.k] == s.accepted[|s.handed|]
  {
    var k, c := s.phase.k, Contiguous(s.q);
    ContiguousIsPrefix(s.q);
    assert s.q.slots[s.q.read..s.q.read + c][k] == Contents(s.q)[..c][k];
  }

  lemma HandKeepsInv(s: State)
    requires Inv(s) && Step(s, Hand).Go?
    ensures Inv(Step(s, Hand).state)
  {
    HandTakesNext(s);
    var s' := Step(s, Hand).state;
    assert s'.handed[..|s'.handed| - Ahead(s')] == s.handed[..|s.handed| - Ahead(s)];
  }

  lemma FinishKeepsInv(s: State)
    requires Inv(s) && Step(s, Finish).Go?
    ensures Inv(Step(s, Finish).state)
  {
    var k := s.phase.k;
    DroppedRemoves(s.q, k);
    var cut := |s.handed| - k;
    assert Contents(s.q) == s.accepted[cut..];
    assert s.accepted == s.accepted[..|s.handed|] + s.accepted[cut..][k..];
  }

  lemma StepKeepsInv(s: State, a: Action)
    requires Inv(s)
    ensures Step(s, a).Go? ==> Inv(Step(s, a).state)
  {
    match a
    case Produce(bs) => ProduceKeepsInv(s, bs);
    case Peek(limit) =>
    case Hand => if Step(s, a).Go? { HandKeepsInv(s); }
    case Finish => if Step(s, a).Go? { FinishKeepsInv(s); }
  }

  ghost function Run(s: State, actions: seq<Action>): Outcome
    requires Shaped(s)
    decreases |actions|
  {
    if actions == [] then Go(s)
    else
      var out := Step(s, actions[0]);
      if out.Go? && Shaped(out.state) then Run(out.state, actions[1..]) else out
  }

  lemma {:induction false} RunKeepsInv(s: State, actions: seq<Action>)
    requires Inv(s)
    ensures Run(s, actions).Go? ==> Inv(Run(s, actions).state)
    decreases |actions|
  {
    if actions != [] {
      StepKeepsInv(s, actions[0]);
      if Step(s, actions[0]).Go? {
        RunKeepsInv(Step(s, actions[0]).state, actions[1..]);
      }
    }
  }

  ghost function Start(slots: seq<Buf>): State {
    State(Queue(slots, 0, 0, 0), Idle, [], [])
  }

  /** In every run the handler gets exactly the accepted packets, in order, none
      twice and none left out; every slot of the current burst still holds the
      packet it held at the look-up, whatever was added since; and the queue holds
      exactly what is accepted and not dropped, the dropped packets being those
      handed on in finished bursts. */
  lemma HandedInOrder(slots: seq<Buf>, actions: seq<Action>)
    requires slots != [] && Run(Start(slots), actions).Go?
    ensures var s := Run(Start(slots), actions).state;
            && Shaped(s) && s.handed <= s.accepted && Ahead(s) <= |s.handed|
            && Contents(s.q) == s.accepted[|s.handed| - Ahead(s)..]
            && (s.phase.Burst? ==>
                  forall i :: 0 <= i < s.phase.n ==> s.q.slots[s.q.read + i] == Contents(s.q)[i])
  {
    RunKeepsInv(Start(slots), actions);
    var s := Run(Start(slots), actions).state;
    ContiguousIsPrefix(s.q);
    var c := Contiguous(s.q);
    forall i | 0 <= i < c
      ensures s.q.slots[s.q.read + i] == Contents(s.q)[i]
    {
      assert s.q.slots[s.q.read..s.q.read + c][i] == Contents(s.q)[..c][i];
    }
  }
}
