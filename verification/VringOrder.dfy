/** One ring of a split virtqueue over whole runs: one side publishes entries
    behind a 16-bit free-running index, the other takes them. The available ring
    is published by the guest and taken by the device; the used ring the other way
    round. Nothing forces the ring size to be a power of two (section 2.4 of
    Virtio 1.0 asks for it); the theorem says which sizes keep the order. */
module VringOrder {
  import opened Virtqueue

  /** `published` and `taken` are the entries of the whole run so far. */
  datatype Ring = Ring(slots: seq<nat>, idx: nat, last: nat, published: seq<nat>, taken: seq<nat>)

  datatype Action = Publish(entry: nat) | Take

  /** `Refused`: the publisher would have more outstanding than the ring holds.
      `Panic`: the taker finds the index out of range. */
  datatype Outcome = Refused | Panic | Go(ring: Ring)

  /** The remainder of an index by the ring size, by repeated subtraction. */
  function Cell(num: nat, i: nat): (c: nat)
    requires num > 0
    ensures c < num
  {
    if i < num then i else Cell(num, i - num)
  }

  lemma {:induction false} CellIsMod(num: nat, i: nat)
    requires num > 0
    ensures Cell(num, i) == i % num
    decreases i
  {
    if i < num {
      ModUnique(i, num, 0, i);
    } else {
      CellIsMod(num, i - num);
      var q := (i - num) / num;
      assert i == num * (q + 1) + (i - num) % num;
      ModUnique(i, num, q + 1, (i - num) % num);
    }
  }

  function Step(r: Ring, a: Action): Outcome
    requires r.slots != []
  {
    match a
    case Publish(entry) =>
      if |r.published| >= |r.taken| + |r.slots| then Refused
      else
        Go(r.(slots := r.slots[Cell(|r.slots|, r.idx) := entry], idx := (r.idx + 1) % WRAP,
           published := r.published + [entry]))
    case Take =>
      if Pending(r.idx, r.last) > |r.slots| then Panic
      else if r.last == r.idx then Go(r)
      else Go(r.(last := (r.last + 1) % WRAP, taken := r.taken + [r.slots[Cell(|r.slots|, r.last)]]))
  }

  function Run(r: Ring, actions: seq<Action>): (out: Outcome)
    requires r.slots != []
    ensures out.Go? ==> |out.ring.slots| == |r.slots|
    decreases |actions|
  {
    if actions == [] then Go(r)
    else
      var out := Step(r, actions[0]);
      if out.Go? then Run(out.ring, actions[1..]) else out
  }

  function Fresh(num: nat): Ring {
    Ring(seq(num, _ => 0), 0, 0, [], [])
  }

  /** Entries come out in the order they went in, none skipped, none invented, and
      the ring reads as empty exactly when nothing is outstanding. */
  predicate InOrder(out: Outcome) {
    && !out.Panic?
    && (out.Go? ==>
          && out.ring.taken <= out.ring.published
          && (out.ring.last == out.ring.idx <==> |out.ring.taken| == |out.ring.published|))
  }

  // -------------------------------------------------------------- arithmetic

  lemma ModUnique(x: int, n: int, q: int, r: int)
    requires 0 <= r < n && x == n * q + r
    ensures x % n == r
  {
    var q', r' := x / n, x % n;
    assert n * (q - q') == r' - r;
    if q - q' >= 1 {
      assert n * (q - q') >= n by { MulMono(n, 1, q - q'); }
    } else if q - q' <= -1 {
      assert n * (q' - q) >= n by { MulMono(n, 1, q' - q); }
    }
  }

  lemma MulMono(n: int, a: int, b: int)
    requires n >= 0 && a <= b
    ensures n * a <= n * b
  {
  }

  /** The slot of the k-th entry of a run. */
  function Slot(num: nat, k: nat): nat
    requires num > 0
  {
    Cell(num, k % WRAP)
  }

  lemma SlotOfDivisor(num: nat, k: nat)
    requires 0 < num && WRAP % num == 0
    ensures Slot(num, k) == k % num
  {
    var m, r := WRAP / num, k % WRAP;
    assert WRAP == num * m;
    var q := m * (k / WRAP) + r / num;
    calc {
      k;
      WRAP * (k / WRAP) + r;
      num * m * (k / WRAP) + (num * (r / num) + r % num);
      num * (m * (k / WRAP)) + num * (r / num) + r % num;
      num * q + r % num;
    }
    ModUnique(k, num, q, r % num);
    CellIsMod(num, r);
  }

  lemma ModsDiffer(num: nat, a: nat, b: nat)
    requires a < b < a + num
    ensures a % num != b % num
  {
    var q := b / num - a / num;
    assert b - a == num * q + (b % num - a % num);
    if q >= 1 {
      MulMono(num, 1, q);
    } else {
      MulMono(num, q, 0);
    }
  }

  /** Entries less than one ring apart lie in different slots. */
  lemma SlotsDiffer(num: nat, a: nat, b: nat)
    requires 0 < num && Cell(num, WRAP) == 0 && a < b < a + num
    ensures Slot(num, a) != Slot(num, b)
  {
    CellIsMod(num, WRAP);
    SlotOfDivisor(num, a);
    SlotOfDivisor(num, b);
    ModsDiffer(num, a, b);
  }

  lemma PendingIsDistance(a: nat, b: nat)
    requires a <= b < a + WRAP
    ensures Pending(b % WRAP, a % WRAP) == b - a
    ensures a % WRAP == b % WRAP <==> a == b
  {
  }

  // ------------------------------------------------------- divisors keep order

  ghost predicate Indexed(r: Ring) {
    && r.idx == |r.published| % WRAP && r.last == |r.taken| % WRAP
    && |r.taken| <= |r.published| <= |r.taken| + |r.slots|
  }

  ghost predicate Held(r: Ring)
    requires r.slots != []
  {
    forall k :: |r.taken| <= k < |r.published| ==> r.slots[Slot(|r.slots|, k)] == r.published[k]
  }

  ghost predicate Inv(r: Ring) {
    0 < |r.slots| < WRAP && Cell(|r.slots|, WRAP) == 0 && Indexed(r) && Held(r) && r.taken <= r.published
  }

  lemma PublishKeepsHeld(r: Ring, entry: nat)
    requires Inv(r) && |r.published| < |r.taken| + |r.slots|
    ensures Held(Step(r, Publish(entry)).ring)
  {
    var num, r' := |r.slots|, Step(r, Publish(entry)).ring;
    var n := Slot(num, |r.published|);
    assert r'.slots == r.slots[n := entry];
    forall k | |r.taken| <= k < |r.published| + 1
      ensures r'.slots[Slot(num, k)] == r'.published[k]
    {
      if k < |r.published| {
        SlotsDiffer(num, k, |r.published|);
      }
    }
  }

  lemma TakeIsNext(r: Ring)
    requires Inv(r)
    ensures Pending(r.idx, r.last) <= |r.slots|
    ensures r.last == r.idx <==> |r.taken| == |r.published|
    ensures r.last != r.idx ==> r.slots[Cell(|r.slots|, r.last)] == r.published[|r.taken|]
  {
    PendingIsDistance(|r.taken|, |r.published|);
    if |r.taken| < |r.published| {
      assert r.slots[Slot(|r.slots|, |r.taken|)] == r.published[|r.taken|];
    }
  }

  lemma PublishKeepsInv(r: Ring, entry: nat)
    requires Inv(r) && |r.published| < |r.taken| + |r.slots|
    ensures Inv(Step(r, Publish(entry)).ring)
  {
    PublishKeepsHeld(r, entry);
  }

  /** The ring with the next outstanding entry taken. */
  ghost function Taken(r: Ring): Ring
    requires |r.taken| < |r.published|
  {
    r.(last := (|r.taken| + 1) % WRAP, taken := r.published[..|r.taken| + 1])
  }

  lemma TakenKeepsInv(r: Ring)
    requires Inv(r) && |r.taken| < |r.published|
    ensures Inv(Taken(r))
  {
  }

  lemma TakeStep(r: Ring)
    requires Inv(r)
    ensures Step(r, Take) == Go(if |r.taken| < |r.published| then Taken(r) else r)
  {
    TakeIsNext(r);
    var n := |r.taken|;
    if n < |r.published| {
      NextIndex(n);
      assert r.published[..n] == r.taken;
      assert r.published[..n + 1] == r.published[..n] + [r.published[n]];
    }
  }

  lemma StepKeepsInv(r: Ring, a: Action)
    requires Inv(r)
    ensures !Step(r, a).Panic?
    ensures Step(r, a).Go? ==> Inv(Step(r, a).ring)
  {
    match a
    case Publish(entry) =>
      if |r.published| < |r.taken| + |r.slots| {
        PublishKeepsInv(r, entry);
      }
    case Take =>
      TakeStep(r);
      if |r.taken| < |r.published| {
        TakenKeepsInv(r);
      }
  }

  lemma {:induction false} RunKeepsInv(r: Ring, actions: seq<Action>)
    requires Inv(r)
    ensures !Run(r, actions).Panic?
    ensures Run(r, actions).Go? ==> Inv(Run(r, actions).ring)
    decreases |actions|
  {
    if actions != [] {
      StepKeepsInv(r, actions[0]);
      if Step(r, actions[0]).Go? {
        RunKeepsInv(Step(r, actions[0]).ring, actions[1..]);
      }
    }
  }

  // -------------------------------------------------- other sizes do not

  lemma {:induction false} RunConcat(r: Ring, first: seq<Action>, second: seq<Action>)
    requires r.slots != [] && Run(r, first).Go?
    ensures Run(r, first + second) == Run(Run(r, first).ring, second)
    decreases |first|
  {
    if first == [] {
      assert first + second == second;
    } else {
      assert (first + second)[1..] == first[1..] + second;
      RunConcat(Step(r, first[0]).ring, first[1..], second);
    }
  }

  function Zeros(n: nat): (s: seq<nat>)
    ensures |s| == n
  {
    seq(n, _ => 0)
  }

  /** The ring after `published` and `taken` all-zero entries. */
  function ZeroRing(num: nat, published: nat, taken: nat): Ring {
    Ring(Zeros(num), published % WRAP, taken % WRAP, Zeros(published), Zeros(taken))
  }

  lemma ZeroPublish(num: nat, published: nat, taken: nat)
    requires 0 < num < WRAP && taken <= published < taken + num
    ensures Step(ZeroRing(num, published, taken), Publish(0)) == Go(ZeroRing(num, published + 1, taken))
  {
    assert Zeros(num)[Slot(num, published) := 0] == Zeros(num);
    assert Zeros(published) + [0] == Zeros(published + 1);
  }

  lemma ZeroTake(num: nat, published: nat, taken: nat)
    requires 0 < num < WRAP && taken < published <= taken + num
    ensures Step(ZeroRing(num, published, taken), Take) == Go(ZeroRing(num, published, taken + 1))
  {
    PendingIsDistance(taken, published);
    assert Zeros(taken) + [0] == Zeros(taken + 1);
  }

  /** One more step at the end of a run. */
  lemma RunExtend(r: Ring, actions: seq<Action>, a: Action)
    requires r.slots != [] && Run(r, actions).Go?
    ensures Run(r, actions + [a]) == Step(Run(r, actions).ring, a)
  {
    RunConcat(r, actions, [a]);
    var last := Run(r, actions).ring;
    assert [a][1..] == [];
    assert Run(last, [a]) == Step(last, a);
  }

  /** Publishing and taking zeros reaches every all-zero ring. */
  lemma {:induction false} ReachZeroRing(num: nat, published: nat, taken: nat) returns (actions: seq<Action>)
    requires 0 < num < WRAP && taken <= published <= taken + num
    ensures Run(Fresh(num), actions) == Go(ZeroRing(num, published, taken))
    decreases published + taken
  {
    if published == 0 {
      actions := [];
      assert Fresh(num) == ZeroRing(num, 0, 0);
    } else if taken < published {
      var before := ReachZeroRing(num, published - 1, taken);
      ZeroPublish(num, published - 1, taken);
      RunExtend(Fresh(num), before, Publish(0));
      actions := before + [Publish(0)];
    } else {
      var before := ReachZeroRing(num, published, taken - 1);
      ZeroTake(num, published, taken - 1);
      RunExtend(Fresh(num), before, Take);
      actions := before + [Take];
    }
  }

  /** The 16-bit wrap moves entry 2^16 into the slot of the entry `r` before it. */
  lemma SlotsCollide(num: nat)
    requires 0 < num < WRAP && WRAP % num != 0
    ensures var r := WRAP % num; 0 < r < num && Slot(num, WRAP - r) == 0 == Slot(num, WRAP)
  {
    var r := WRAP % num;
    assert WRAP - r == num * (WRAP / num);
    ModUnique(WRAP - r, num, WRAP / num, 0);
    CellIsMod(num, WRAP - r);
  }

  /** A size that does not divide 2^16 has a run that loses the order. */
  lemma OtherSizesLoseOrder(num: nat) returns (actions: seq<Action>)
    requires 0 < num < WRAP && WRAP % num != 0
    ensures !InOrder(Run(Fresh(num), actions))
  {
    SlotsCollide(num);
    var taken := WRAP - WRAP % num;
    var before := ReachZeroRing(num, WRAP, taken);
    var r := ZeroRing(num, WRAP, taken);
    RunExtend(Fresh(num), before, Publish(1));
    var r' := Step(r, Publish(1)).ring;
    assert r'.slots[0] == 1;
    PendingIsDistance(taken, WRAP + 1);
    RunExtend(Fresh(num), before + [Publish(1)], Take);
    var r'' := Step(r', Take).ring;
    assert r''.taken[taken] == 1 && r''.published[taken] == 0;
    actions := before + [Publish(1)] + [Take];
  }

  /** Every run of a ring of `num` slots hands entries over in order exactly when
      `num` divides 2^16. */
  lemma OrderIffSizeDivides(num: nat)
    requires 0 < num < WRAP
    ensures (forall actions :: InOrder(Run(Fresh(num), actions))) <==> WRAP % num == 0
  {
    CellIsMod(num, WRAP);
    if WRAP % num == 0 {
      forall actions
        ensures InOrder(Run(Fresh(num), actions))
      {
        RunKeepsInv(Fresh(num), actions);
        if Run(Fresh(num), actions).Go? {
          TakeIsNext(Run(Fresh(num), actions).ring);
        }
      }
    } else {
      var actions := OtherSizesLoseOrder(num);
    }
  }

  /** `Take` is what the device's get does to the available ring: the same range
      panic, the same empty case, the same entry and the same next index. */
  lemma TakeIsGetAvailBuf(r: Ring, m: Memory, num: nat, last: nat)
    requires 0 < num && Fitting(m, num) && m.availIdx == m.again
    requires r.slots == m.ring && r.idx == m.availIdx && r.last == last < WRAP
    ensures Step(r, Take).Panic? <==> Pending(m.availIdx, last) > num
    ensures Pending(m.availIdx, last) <= num && m.availIdx == last ==> Step(r, Take) == Go(r)
    ensures Pending(m.availIdx, last) <= num && m.availIdx != last ==>
              Step(r, Take) == Go(r.(last := (last + 1) % WRAP, taken := r.taken + [m.ring[last % num]]))
  {
    CellIsMod(num, last);
  }
}
