/** The two transfer loops of the virtual network card over the device queues of
    `Virtqueue`: `FlushTx` moves guest packets into fresh frames for the router,
    `Receive` moves routed packets into guest buffers. What guest memory, the
    allocator, the mapping and the copies come to in each turn is an input. */
module VnetTransfer {
  import opened Arith
  import opened Virtqueue

  /** A frame, by the turn that allocated it; a packet, by its buffer. */
  type Frame = nat

  const HDR := 12
  const MIN_FRAME := 42
  const MAX_FRAME := 2046
  const TX_BURST := 256
  const RX_BURST := 256
  const HALF_QUEUE := 128
  const MAX_TX_IOVS := 4
  const MAX_RX_IOVS := 1

  datatype Error = NoMemory | BadArgs | BadChainError | TooBigError | Generic | MapError

  datatype Result = Count(n: nat) | NoAvail | Retry | Failed(error: Error) | NotReady | Faulted | Panicked

  /** The chains that `elems` return. */
  ghost function Ids(elems: seq<UsedElem>): seq<nat> {
    seq(|elems|, i requires 0 <= i < |elems| => elems[i].id)
  }

  /** `n` chains were taken and returned, in the same order. */
  ghost predicate InStep(gets0: seq<nat>, puts0: seq<UsedElem>, gets: seq<nat>, puts: seq<UsedElem>, n: nat) {
    && gets0 <= gets && |gets| == |gets0| + n
    && puts0 <= puts && |puts| == |puts0| + n
    && Ids(puts[|puts0|..]) == gets[|gets0|..]
  }

  lemma InStepNext(gets0: seq<nat>, puts0: seq<UsedElem>, gets: seq<nat>, puts: seq<UsedElem>,
                   n: nat, head: nat, len: nat)
    requires InStep(gets0, puts0, gets, puts, n)
    ensures InStep(gets0, puts0, gets + [head], puts + [UsedElem(head, len)], n + 1)
  {
    var e := UsedElem(head, len);
    assert (puts + [e])[|puts0|..] == puts[|puts0|..] + [e];
    assert Ids(puts[|puts0|..] + [e]) == Ids(puts[|puts0|..]) + [head];
    assert (gets + [head])[|gets0|..] == gets[|gets0|..] + [head];
  }

  /** Every frame below `n` is in exactly one of the lists, and there only once. */
  ghost predicate Split(a: seq<Frame>, b: seq<Frame>, n: nat) {
    && (forall f :: f in a + b <==> 0 <= f < n)
    && forall i, j :: 0 <= i < j < |a + b| ==> (a + b)[i] != (a + b)[j]
  }

  lemma SplitNext(a: seq<Frame>, b: seq<Frame>, n: nat)
    requires Split(a, b, n)
    ensures Split(a + [n], b, n + 1) && Split(a, b + [n], n + 1)
  {
    var left, right := a + [n] + b, a + (b + [n]);
    assert right == a + b + [n];
    forall i, j | 0 <= i < j < |left|
      ensures left[i] != left[j]
    {
      var i', j' := if i > |a| then i - 1 else i, if j > |a| then j - 1 else j;
      assert i != |a| ==> left[i] == (a + b)[i'] && (a + b)[i'] in a + b;
      assert j != |a| ==> left[j] == (a + b)[j'] && (a + b)[j'] in a + b;
    }
    assert forall f :: f in left <==> f in a + b || f == n;
    assert forall f :: f in right <==> f in a + b || f == n;
    assert forall i :: 0 <= i < |a + b| ==> (a + b)[i] in a + b;
  }

  /** Freeing the kept frames as well leaves every frame freed once. */
  lemma SplitAll(a: seq<Frame>, b: seq<Frame>, n: nat)
    requires Split(a, b, n)
    ensures Split([], b + a, n)
  {
    var all := [] + (b + a);
    forall i, j | 0 <= i < j < |all|
      ensures all[i] != all[j]
    {
      var i' := if i < |b| then i + |a| else i - |b|;
      var j' := if j < |b| then j + |a| else j - |b|;
      assert all[i] == (a + b)[i'] && all[j] == (a + b)[j'];
    }
    assert forall f :: f in all <==> f in a + b;
  }

  // ---------------------------------------------------------- guest to router

  /** What one turn of the send loop meets. */
  datatype Turn = Turn(
    alloc: bool, memory: Memory, mapped: bool, headerCopied: bool, headerPlain: bool, dataCopied: bool)

  datatype TurnEnd = NoFrame | NoChain | TurnPanic | Fail(error: Error) | Dropped | Kept

  /** The packet length, in 32-bit arithmetic. */
  function PacketLen(readLen: nat): nat {
    (readLen - HDR) % SIZE_WRAP
  }

  /** What becomes of a chain that was taken. */
  function Verdict(walk: Walk, t: Turn): TurnEnd {
    if walk.BadChain? then Fail(BadChainError)
    else if walk.TooBig? then Fail(TooBigError)
    else if walk.read == [] then Fail(BadArgs)
    else if !t.mapped then Fail(MapError)
    else if walk.read[0].len < HDR || !(MIN_FRAME <= PacketLen(Size(walk.read)) <= MAX_FRAME) then Dropped
    else if !t.headerCopied || !t.headerPlain then Fail(BadArgs)
    else if !t.dataCopied then Fail(Generic)
    else Kept
  }

  /** Segments that hold a header of 12 bytes and a frame of 42 to 2046 bytes, their total
      taken modulo 2^32. */
  ghost predicate HoldsFrame(segments: seq<Segment>) {
    segments != [] && segments[0].len >= 12 && 42 <= (Total(segments) - 12) % 0x1_0000_0000 <= 2046
  }

  lemma FrameLength(segments: seq<Segment>)
    ensures PacketLen(Size(segments)) == (Total(segments) - 12) % 0x1_0000_0000
  {
    SizeIsTotal(segments);
    LengthWraps(Total(segments));
  }

  /** What becomes of a chain with these readable segments. */
  ghost function Fate(segments: seq<Segment>, t: Turn): TurnEnd {
    if segments == [] then Fail(BadArgs)
    else if !t.mapped then Fail(MapError)
    else if !HoldsFrame(segments) then Dropped
    else if t.headerCopied && t.headerPlain then if t.dataCopied then Kept else Fail(Generic)
    else Fail(BadArgs)
  }

  lemma VerdictIsFate(read: seq<Segment>, write: seq<Segment>, t: Turn)
    ensures Verdict(Done(read, write), t) == Fate(read, t)
  {
    FrameLength(read);
  }

  /** What becomes of a whole chain of at most four readable segments. */
  lemma ChainVerdict(table: seq<Desc>, head: nat, path: seq<nat>, t: Turn)
    requires IsChain(table, head, path, 4, 0)
    ensures Verdict(WalkFrom(table, head, MAX_TX_IOVS, 0), t) == Fate(Segments(table, path, false), t)
  {
    WalkGivesSegments(table, head, 4, 0, path);
    VerdictIsFate(Segments(table, path, false), Segments(table, path, true), t);
  }

  /** And of a head without one. */
  lemma NoChainVerdict(table: seq<Desc>, head: nat, t: Turn)
    requires !exists path :: IsChain(table, head, path, 4, 0)
    ensures Verdict(WalkFrom(table, head, MAX_TX_IOVS, 0), t) in {Fail(BadChainError), Fail(TooBigError)}
  {
    WalkSucceedsIff(table, head, 4, 0);
  }

  lemma LengthWraps(total: nat)
    ensures (total % SIZE_WRAP - 12) % SIZE_WRAP == (total - 12) % SIZE_WRAP
    ensures (12 + (total % SIZE_WRAP - 12) % SIZE_WRAP) % SIZE_WRAP == total % SIZE_WRAP
  {
  }

  /** The chain at `head` holds a frame for the router. */
  ghost predicate FrameAt(table: seq<Desc>, head: nat) {
    exists path :: IsChain(table, head, path, 4, 0) && HoldsFrame(Segments(table, path, false))
  }

  lemma KeptIff(table: seq<Desc>, head: nat, t: Turn)
    ensures Verdict(WalkFrom(table, head, MAX_TX_IOVS, 0), t).Kept? <==>
            t.mapped && t.headerCopied && t.headerPlain && t.dataCopied && FrameAt(table, head)
  {
    if path :| IsChain(table, head, path, 4, 0) {
      ChainVerdict(table, head, path, t);
      forall other | IsChain(table, head, other, 4, 0)
        ensures other == path
      {
        SamePath(table, other, path);
      }
    } else {
      NoChainVerdict(table, head, t);
    }
  }

  /** The guest is told the total length of its chain. */
  ghost predicate LengthTold(table: seq<Desc>, e: UsedElem) {
    exists path :: IsChain(table, e.id, path, 4, 0) &&
                   e.len == Total(Segments(table, path, false)) % 0x1_0000_0000
  }

  lemma LengthIsTold(table: seq<Desc>, head: nat, len: nat)
    requires var w := WalkFrom(table, head, MAX_TX_IOVS, 0); w.Done? && len == PacketLen(Size(w.read))
    ensures LengthTold(table, UsedElem(head, (HDR + len) % SIZE_WRAP))
  {
    var path := DoneFollowsChain(table, head, MAX_TX_IOVS, 0);
    var segments := Segments(table, path, false);
    SizeIsTotal(segments);
    LengthWraps(Total(segments));
  }

  /** How a turn ends that looks for the chain with index `last`. */
  function EndOf(t: Turn, last: nat, num: nat): TurnEnd
    requires 0 < num && Fitting(t.memory, num)
  {
    if !t.alloc then NoFrame
    else if Pending(t.memory.availIdx, last) > num then TurnPanic
    else if t.memory.again == last then NoChain
    else if t.memory.ring[last % num] >= num then TurnPanic
    else Verdict(WalkFrom(t.memory.table, t.memory.ring[last % num], MAX_TX_IOVS, 0), t)
  }

  /** One turn: a chain that is dropped or kept is returned to the guest; one that
      fails is not. */
  method SendTurn(q: VQueue, t: Turn) returns (end: TurnEnd)
    requires q.Valid() && q.connected && Fitting(t.memory, q.num)
    modifies q`lastAvail, q`gets, q`used, q`usedIdx, q`puts
    ensures q.Valid() && end == EndOf(t, old(q.lastAvail), q.num)
    ensures end.NoFrame? || end.NoChain? ==> q.gets == old(q.gets) && q.puts == old(q.puts)
    ensures end.Fail? || end.Dropped? || end.Kept? ==>
              var head := t.memory.ring[old(q.lastAvail) % q.num];
              && q.gets == old(q.gets) + [head] && head < q.num
              && (end.Fail? ==> q.puts == old(q.puts))
              && (!end.Fail? ==>
                    |q.puts| == |old(q.puts)| + 1 &&
                    q.puts == old(q.puts) + [UsedElem(head, q.puts[|old(q.puts)|].len)] &&
                    LengthTold(t.memory.table, q.puts[|old(q.puts)|]))
  {
    if !t.alloc {
      return NoFrame;
    }
    var r := q.GetAvailBuf(t.memory, MAX_TX_IOVS, 0);
    if r.IndexPanic? || r.HeadPanic? {
      return TurnPanic;
    }
    if r.Empty? {
      return NoChain;
    }
    if r.walk.BadChain? {
      return Fail(BadChainError);
    }
    if r.walk.TooBig? {
      return Fail(TooBigError);
    }
    if |r.walk.read| < 1 {
      return Fail(BadArgs);
    }
    if !t.mapped {
      return Fail(MapError);
    }
    var len := PacketLen(r.readLen);
    if r.walk.read[0].len < HDR || len == 0 || len < MIN_FRAME || len > MAX_FRAME {
      end := Dropped;
    } else if !t.headerCopied || !t.headerPlain {
      return Fail(BadArgs);
    } else if !t.dataCopied {
      return Fail(Generic);
    } else {
      end := Kept;
    }
    var ok := q.AddBuf(r.head, (HDR + len) % SIZE_WRAP, t.memory);
    LengthIsTold(t.memory.table, r.head, len);
  }

  /** The chain taken in turn `f` leads to a packet for the router: it holds a frame, and
      mapping, header and copies are in order. */
  ghost predicate Passes(gets: seq<nat>, base: nat, turns: seq<Turn>, f: nat)
    requires base + f < |gets| && f < |turns|
  {
    var t := turns[f];
    t.mapped && t.headerCopied && t.headerPlain && t.dataCopied && FrameAt(t.memory.table, gets[base + f])
  }

  /** The frames of exactly the first `n` turns that pass, in order. */
  ghost predicate Chosen(frames: seq<Frame>, gets: seq<nat>, base: nat, turns: seq<Turn>, n: nat)
    requires base + n <= |gets| && n <= |turns|
  {
    && (forall i, j :: 0 <= i < j < |frames| ==> frames[i] < frames[j])
    && (forall i :: 0 <= i < |frames| ==> frames[i] < n)
    && (forall f :: 0 <= f < n ==> (f in frames <==> Passes(gets, base, turns, f)))
  }

  lemma ChosenNext(frames: seq<Frame>, gets: seq<nat>, base: nat, turns: seq<Turn>, n: nat, head: nat)
    requires base + n == |gets| && n < |turns| && Chosen(frames, gets, base, turns, n)
    ensures Chosen(if Passes(gets + [head], base, turns, n) then frames + [n] else frames,
                   gets + [head], base, turns, n + 1)
  {
    var frames' := if Passes(gets + [head], base, turns, n) then frames + [n] else frames;
    forall f | 0 <= f < n + 1
      ensures f in frames' <==> Passes(gets + [head], base, turns, f)
    {
      if f < n {
        assert Passes(gets + [head], base, turns, f) == Passes(gets, base, turns, f);
      } else {
        assert n !in frames;
      }
    }
  }

  /** In the first `n` turns the guest is told the lengths of its chains. */
  ghost predicate Tells(puts: seq<UsedElem>, base: nat, turns: seq<Turn>, n: nat) {
    && base + n <= |puts| && n <= |turns|
    && forall f :: 0 <= f < n ==> LengthTold(turns[f].memory.table, puts[base + f])
  }

  lemma TellsNext(puts: seq<UsedElem>, base: nat, turns: seq<Turn>, n: nat, e: UsedElem)
    requires Tells(puts, base, turns, n) && |puts| == base + n && n < |turns|
    requires LengthTold(turns[n].memory.table, e)
    ensures Tells(puts + [e], base, turns, n + 1)
  {
    forall f | 0 <= f < n + 1
      ensures LengthTold(turns[f].memory.table, (puts + [e])[base + f])
    {
      assert f < n ==> (puts + [e])[base + f] == puts[base + f];
    }
  }

  lemma PassesIff(gets: seq<nat>, base: nat, turns: seq<Turn>, n: nat, head: nat)
    requires base + n == |gets| && n < |turns|
    ensures Passes(gets + [head], base, turns, n) <==>
            Verdict(WalkFrom(turns[n].memory.table, head, MAX_TX_IOVS, 0), turns[n]).Kept?
  {
    assert (gets + [head])[base + n] == head;
    KeptIff(turns[n].memory.table, head, turns[n]);
  }

  /** The state of the send loop after `n` whole turns. */
  ghost predicate Progress(gets0: seq<nat>, puts0: seq<UsedElem>, gets: seq<nat>, puts: seq<UsedElem>,
                           kept: seq<Frame>, freed: seq<Frame>, turns: seq<Turn>, n: nat) {
    && n <= |turns| && InStep(gets0, puts0, gets, puts, n) && Tells(puts, |puts0|, turns, n)
    && Chosen(kept, gets, |gets0|, turns, n) && Split(kept, freed, n)
  }

  lemma ProgressNext(gets0: seq<nat>, puts0: seq<UsedElem>, gets: seq<nat>, puts: seq<UsedElem>,
                     kept: seq<Frame>, freed: seq<Frame>, turns: seq<Turn>, n: nat, head: nat, len: nat)
    requires Progress(gets0, puts0, gets, puts, kept, freed, turns, n) && n < |turns|
    requires LengthTold(turns[n].memory.table, UsedElem(head, len))
    ensures var end := Verdict(WalkFrom(turns[n].memory.table, head, MAX_TX_IOVS, 0), turns[n]);
            var kept', freed' := if end.Kept? then kept + [n] else kept, if end.Kept? then freed else freed + [n];
            Progress(gets0, puts0, gets + [head], puts + [UsedElem(head, len)], kept', freed', turns, n + 1)
  {
    PassesIff(gets, |gets0|, turns, n, head);
    InStepNext(gets0, puts0, gets, puts, n, head, len);
    TellsNext(puts, |puts0|, turns, n, UsedElem(head, len));
    ChosenNext(kept, gets, |gets0|, turns, n, head);
    SplitNext(kept, freed, n);
  }

  /** How many packets one flush moves at most. */
  function Burst(room: nat, avail: nat): nat { Min(Min(TX_BURST, room), avail) }

  /** Moves guest packets to the router: `forwarded` go to the router, `freed` back
      to the pool; `allocs` frames were allocated. */
  method FlushTx(q: VQueue, driverOk: bool, room: nat, arrayOk: bool, start: Memory, turns: seq<Turn>)
    returns (r: Result, forwarded: seq<Frame>, freed: seq<Frame>, allocs: nat)
    requires q.Valid() && start.availIdx < WRAP && |turns| >= TX_BURST
    requires forall i :: 0 <= i < |turns| ==> Fitting(turns[i].memory, q.num)
    modifies q`lastAvail, q`gets, q`used, q`usedIdx, q`puts
    ensures q.Valid()
    ensures r.Faulted? <==> driverOk && !q.connected
    ensures r.Faulted? || !driverOk ==> allocs == 0 && q.gets == old(q.gets) && q.puts == old(q.puts)
    ensures var avail := Pending(start.availIdx, old(q.lastAvail));
            && (!driverOk ==> r == Count(0))
            && (driverOk && q.connected ==>
                  && (r.NoAvail? <==> avail == 0)
                  && (r.Retry? <==> avail > 0 && room < HALF_QUEUE)
                  && (avail > 0 && room >= HALF_QUEUE ==>
                        if arrayOk then Stops(turns, |old(q.gets)|, q.num, Burst(room, avail), r, allocs)
                        else r == Failed(NoMemory) && allocs == 0))
    ensures r.Count? ==>
              && InStep(old(q.gets), old(q.puts), q.gets, q.puts, r.n)
              && Chosen(forwarded, q.gets, |old(q.gets)|, turns, r.n) && Tells(q.puts, |old(q.puts)|, turns, r.n)
    ensures r.Panicked? || Split(forwarded, freed, allocs)
    ensures !r.Count? ==> forwarded == []
    ensures r.NoAvail? || r.Retry? ==> allocs == 0 && q.gets == old(q.gets) && q.puts == old(q.puts)
    ensures r.Failed? && allocs > 0 ==> OneBehind(old(q.gets), old(q.puts), q.gets, q.puts, allocs)
  {
    r, forwarded, freed, allocs := Count(0), [], [], 0;
    if !driverOk {
      return;
    }
    if !q.connected {
      return Faulted, [], [], 0; // reads the index through a null pointer
    }
    var avail := Pending(start.availIdx, q.lastAvail);
    if avail == 0 {
      return NoAvail, [], [], 0;
    }
    if room < HALF_QUEUE {
      return Retry, [], [], 0;
    }
    var burst := if TX_BURST <= room then TX_BURST else room;
    burst := if burst > avail then avail else burst;
    assert burst == Burst(room, avail);
    if !arrayOk {
      return Failed(NoMemory), [], [], 0;
    }
    r, forwarded, freed, allocs := SendLoop(q, burst, turns);
  }

  /** Of `n` chains taken all but the last were returned: a failing turn keeps its
      chain. */
  ghost predicate OneBehind(gets0: seq<nat>, puts0: seq<UsedElem>, gets: seq<nat>, puts: seq<UsedElem>, n: nat) {
    |gets| == |gets0| + n && n > 0 && InStep(gets0, puts0, gets[..|gets| - 1], puts, n - 1)
  }

  /** Turn `k` when `base` chains had been taken before the first. */
  ghost function TurnAt(turns: seq<Turn>, base: nat, num: nat, k: nat): TurnEnd
    requires k < |turns| && 0 < num && Fitting(turns[k].memory, num)
  {
    EndOf(turns[k], (base + k) % WRAP, num)
  }

  /** The first `n` turns all go through. */
  ghost predicate GoThrough(turns: seq<Turn>, base: nat, num: nat, n: nat)
    requires n <= |turns| && 0 < num && forall i :: 0 <= i < |turns| ==> Fitting(turns[i].memory, num)
  {
    forall k :: 0 <= k < n ==> TurnAt(turns, base, num, k).Kept? || TurnAt(turns, base, num, k).Dropped?
  }

  /** Why the loop stops, after how many whole turns, with the result `r`. */
  ghost predicate Stops(turns: seq<Turn>, base: nat, num: nat, burst: nat, r: Result, allocs: nat)
    requires burst <= |turns| && 0 < num && forall i :: 0 <= i < |turns| ==> Fitting(turns[i].memory, num)
  {
    var n := if r.Count? then r.n else allocs - 1;
    && 0 <= n <= burst && GoThrough(turns, base, num, n)
    && if n == burst then r == Count(n) && allocs == n
       else
         match TurnAt(turns, base, num, n)
         case NoFrame => r == Count(n) && allocs == n
         case NoChain => r == Count(n) && allocs == n + 1
         case TurnPanic => r.Panicked?
         case Fail(e) => r == Failed(e) && allocs == n + 1
         case _ => false
  }

  method SendLoop(q: VQueue, burst: nat, turns: seq<Turn>)
    returns (r: Result, forwarded: seq<Frame>, freed: seq<Frame>, allocs: nat)
    requires q.Valid() && q.connected && burst <= |turns|
    requires forall i :: 0 <= i < |turns| ==> Fitting(turns[i].memory, q.num)
    modifies q`lastAvail, q`gets, q`used, q`usedIdx, q`puts
    ensures q.Valid()
    ensures Stops(turns, |old(q.gets)|, q.num, burst, r, allocs)
    ensures r.Count? ==>
              && r.n <= burst && InStep(old(q.gets), old(q.puts), q.gets, q.puts, r.n)
              && Chosen(forwarded, q.gets, |old(q.gets)|, turns, r.n) && Tells(q.puts, |old(q.puts)|, turns, r.n)
    ensures r.Panicked? || Split(forwarded, freed, allocs)
    ensures !r.Count? ==> forwarded == []
    ensures r.Failed? ==> OneBehind(old(q.gets), old(q.puts), q.gets, q.puts, allocs)
  {
    freed := [];
    var frames := new Frame[burst](_ => 0);
    var toSend: nat, n: nat := 0, 0;
    ghost var gets0, puts0 := q.gets, q.puts;
    while n < burst
      invariant 0 <= toSend <= n <= burst
      invariant q.Valid() && q.connected && GoThrough(turns, |gets0|, q.num, n)
      invariant Progress(gets0, puts0, q.gets, q.puts, frames[..toSend], freed, turns, n)
    {
      var end;
      end, toSend, freed := SendRound(q, turns, n, frames, toSend, freed, gets0, puts0);
      if !end.Kept? && !end.Dropped? {
        r, forwarded, freed, allocs := SendEnd(frames[..toSend], freed, n, end, turns, |gets0|, q.num, burst);
        return;
      }
      n := n + 1;
    }
    return Count(n), frames[..toSend], freed, n;
  }

  /** One round of the loop: a frame that is kept goes into the array. */
  method SendRound(q: VQueue, turns: seq<Turn>, n: nat, frames: array<Frame>, toSend: nat, freed: seq<Frame>,
                   ghost gets0: seq<nat>, ghost puts0: seq<UsedElem>)
    returns (end: TurnEnd, count: nat, dropped: seq<Frame>)
    requires q.Valid() && q.connected && toSend <= n < |turns| && n < frames.Length
    requires Progress(gets0, puts0, q.gets, q.puts, frames[..toSend], freed, turns, n)
    requires forall i :: 0 <= i < |turns| ==> Fitting(turns[i].memory, q.num)
    requires GoThrough(turns, |gets0|, q.num, n)
    modifies q`lastAvail, q`gets, q`used, q`usedIdx, q`puts, frames
    ensures q.Valid() && end == TurnAt(turns, |gets0|, q.num, n) && count <= n + 1
    ensures end.Kept? || end.Dropped? ==>
              GoThrough(turns, |gets0|, q.num, n + 1) &&
              Progress(gets0, puts0, q.gets, q.puts, frames[..count], dropped, turns, n + 1)
    ensures !end.Kept? && !end.Dropped? ==>
              count == toSend && frames[..toSend] == old(frames[..toSend]) && dropped == freed
    ensures end.NoFrame? || end.NoChain? ==>
              Progress(gets0, puts0, q.gets, q.puts, frames[..count], dropped, turns, n)
    ensures end.Fail? ==> OneBehind(gets0, puts0, q.gets, q.puts, n + 1)
  {
    end := SendStep(q, turns, n, frames[..toSend], freed, gets0, puts0);
    count, dropped := toSend, freed;
    if end.Kept? {
      ghost var kept := frames[..toSend];
      frames[toSend] := n;
      count := toSend + 1;
      assert frames[..count] == kept + [n];
    } else if end.Dropped? {
      dropped := freed + [n];
    }
  }

  /** One turn of the loop, with what it means for the loop's state. */
  method SendStep(q: VQueue, turns: seq<Turn>, n: nat, ghost kept: seq<Frame>, ghost freed: seq<Frame>,
                  ghost gets0: seq<nat>, ghost puts0: seq<UsedElem>)
    returns (end: TurnEnd)
    requires q.Valid() && q.connected && n < |turns| && Fitting(turns[n].memory, q.num)
    requires Progress(gets0, puts0, q.gets, q.puts, kept, freed, turns, n)
    requires forall i :: 0 <= i < |turns| ==> Fitting(turns[i].memory, q.num)
    requires GoThrough(turns, |gets0|, q.num, n)
    modifies q`lastAvail, q`gets, q`used, q`usedIdx, q`puts
    ensures q.Valid() && end == TurnAt(turns, |gets0|, q.num, n)
    ensures end.NoFrame? || end.NoChain? ==> Progress(gets0, puts0, q.gets, q.puts, kept, freed, turns, n)
    ensures end.Kept? || end.Dropped? ==> GoThrough(turns, |gets0|, q.num, n + 1)
    ensures end.Fail? ==> OneBehind(gets0, puts0, q.gets, q.puts, n + 1)
    ensures end.Kept? ==> Progress(gets0, puts0, q.gets, q.puts, kept + [n], freed, turns, n + 1)
    ensures end.Dropped? ==> Progress(gets0, puts0, q.gets, q.puts, kept, freed + [n], turns, n + 1)
  {
    ghost var gets, puts, num := q.gets, q.puts, q.num;
    end := SendTurn(q, turns[n]);
    TurnIsEnd(turns, |gets0|, num, n, |gets| % WRAP, end);
    if end.Fail? {
      assert q.gets[..|q.gets| - 1] == gets;
    } else if end.Kept? || end.Dropped? {
      ghost var head, len := turns[n].memory.ring[|gets| % WRAP % num], q.puts[|puts|].len;
      EndIsVerdict(turns[n], |gets| % WRAP, num);
      ProgressNext(gets0, puts0, gets, puts, kept, freed, turns, n, head, len);
      assert q.gets == gets + [head] && q.puts == puts + [UsedElem(head, len)];
    }
  }

  lemma TurnIsEnd(turns: seq<Turn>, base: nat, num: nat, n: nat, last: nat, end: TurnEnd)
    requires n < |turns| && 0 < num && forall i :: 0 <= i < |turns| ==> Fitting(turns[i].memory, num)
    requires last == (base + n) % WRAP && end == EndOf(turns[n], last, num) && GoThrough(turns, base, num, n)
    ensures end == TurnAt(turns, base, num, n)
    ensures end.Kept? || end.Dropped? ==> GoThrough(turns, base, num, n + 1)
  {
  }

  lemma EndIsVerdict(t: Turn, last: nat, num: nat)
    requires 0 < num && Fitting(t.memory, num) && (EndOf(t, last, num).Kept? || EndOf(t, last, num).Dropped?)
    ensures EndOf(t, last, num) ==
            Verdict(WalkFrom(t.memory.table, t.memory.ring[last % num], MAX_TX_IOVS, 0), t)
  {
  }

  /** What becomes of the frames when the loop ends in turn `n`. */
  method SendEnd(kept: seq<Frame>, freed: seq<Frame>, n: nat, end: TurnEnd,
                 ghost turns: seq<Turn>, ghost base: nat, ghost num: nat, ghost burst: nat)
    returns (r: Result, forwarded: seq<Frame>, all: seq<Frame>, allocs: nat)
    requires n < burst <= |turns| && 0 < num && forall i :: 0 <= i < |turns| ==> Fitting(turns[i].memory, num)
    requires GoThrough(turns, base, num, n) && end == TurnAt(turns, base, num, n)
    requires !end.Kept? && !end.Dropped? && Split(kept, freed, n)
    ensures r == match end case Fail(e) => Failed(e) case TurnPanic => Panicked case _ => Count(n)
    ensures allocs == (if end.NoFrame? then n else n + 1) && Stops(turns, base, num, burst, r, allocs)
    ensures r.Panicked? || Split(forwarded, all, allocs)
    ensures forwarded == if r.Count? then kept else []
  {
    SplitNext(kept, freed, n);
    if end.NoFrame? {
      return Count(n), kept, freed, n;
    }
    if end.TurnPanic? {
      return Panicked, [], freed, n + 1;
    }
    if end.NoChain? {
      return Count(n), kept, freed + [n], n + 1;
    }
    SplitAll(kept, freed + [n], n + 1);
    return Failed(end.error), [], freed + [n] + kept, n + 1;
  }

  // ---------------------------------------------------------- router to guest

  /** An entry of the egress queue. `linear`: it is, or could be made, one piece. */
  datatype Packet = Null | Packet(buf: nat, linear: bool, size: nat)

  datatype RxTurn = RxTurn(memory: Memory, mapped: bool, headerCopied: bool, dataCopied: bool)

  datatype RxEnd = RxNoChain | RxPanic | RxLost | RxReturned | RxDelivered

  function RxVerdict(walk: Walk, size: nat, t: RxTurn): RxEnd {
    if !walk.Done? then RxLost
    else if walk.write == [] || walk.write[0].len < HDR + size then RxReturned
    else if !t.mapped || !t.headerCopied || !t.dataCopied then RxReturned
    else RxDelivered
  }

  /** The chain at `head` takes a packet of `size` bytes: it is whole, its one writable
      segment has room for the packet and a header of 12 bytes, and mapping and
      copies are in order. */
  ghost predicate Takes(t: RxTurn, head: nat, size: nat) {
    && t.mapped && t.headerCopied && t.dataCopied
    && exists path :: IsChain(t.memory.table, head, path, 0, 1) && HasRoom(t.memory.table, path, 12 + size)
  }

  ghost predicate HasRoom(table: seq<Desc>, path: seq<nat>, size: nat)
    requires forall j :: 0 <= j < |path| ==> path[j] < |table|
  {
    var segments := Segments(table, path, true);
    |segments| == 1 && segments[0].len >= size
  }

  lemma {:induction false} WritesWithin(table: seq<Desc>, path: seq<nat>)
    requires forall j :: 0 <= j < |path| ==> path[j] < |table|
    ensures |Segments(table, path, true)| + |Segments(table, path, false)| == |path|
  {
    if path != [] {
      WritesWithin(table, path[1..]);
    }
  }

  /** A packet is delivered exactly if its chain takes it. Else the chain is returned
      empty, or lost if it is not whole. */
  lemma DeliveredIff(t: RxTurn, head: nat, size: nat)
    ensures var end := RxVerdict(WalkFrom(t.memory.table, head, 0, MAX_RX_IOVS), size, t);
            && (end.RxDelivered? <==> Takes(t, head, size))
            && (end.RxLost? <==> !exists path :: IsChain(t.memory.table, head, path, 0, 1))
            && (end.RxDelivered? || end.RxLost? || end.RxReturned?)
  {
    var table := t.memory.table;
    WalkSucceedsIff(table, head, 0, 1);
    if path :| IsChain(table, head, path, 0, 1) {
      WalkGivesSegments(table, head, 0, 1, path);
      forall other | IsChain(table, head, other, 0, 1)
        ensures other == path
      {
        SamePath(table, other, path);
      }
      WritesWithin(table, path);
    }
  }

  /** How a turn ends that looks for the chain with index `last`. */
  function RxEndOf(t: RxTurn, size: nat, last: nat, num: nat): RxEnd
    requires 0 < num && Fitting(t.memory, num)
  {
    if Pending(t.memory.availIdx, last) > num then RxPanic
    else if t.memory.again == last then RxNoChain
    else if t.memory.ring[last % num] >= num then RxPanic
    else RxVerdict(WalkFrom(t.memory.table, t.memory.ring[last % num], 0, MAX_RX_IOVS), size, t)
  }

  /** One packet of `size` bytes: its chain is returned filled, returned empty, or,
      when it cannot be walked, not returned. */
  method ReceiveTurn(q: VQueue, size: nat, t: RxTurn) returns (end: RxEnd)
    requires q.Valid() && q.connected && Fitting(t.memory, q.num)
    modifies q`lastAvail, q`gets, q`used, q`usedIdx, q`puts
    ensures q.Valid() && end == RxEndOf(t, size, old(q.lastAvail), q.num)
    ensures end.RxNoChain? ==> q.gets == old(q.gets) && q.puts == old(q.puts)
    ensures end.RxLost? || end.RxReturned? || end.RxDelivered? ==>
              var head := t.memory.ring[old(q.lastAvail) % q.num];
              && q.gets == old(q.gets) + [head] && head < q.num
              && q.puts == old(q.puts) +
                           (if end.RxLost? then [] else [UsedElem(head, if end.RxDelivered? then HDR + size else 0)])
  {
    var r := q.GetAvailBuf(t.memory, 0, MAX_RX_IOVS);
    if r.IndexPanic? || r.HeadPanic? {
      return RxPanic;
    }
    if r.Empty? {
      return RxNoChain;
    }
    if !r.walk.Done? {
      return RxLost;
    }
    var len := 0;
    if |r.walk.write| < 1 {
      end := RxReturned;
    } else if r.walk.write[0].len < HDR + size {
      end := RxReturned;
    } else if !t.mapped {
      end := RxReturned;
    } else if !t.headerCopied {
      end := RxReturned;
    } else if !t.dataCopied {
      end := RxReturned;
    } else {
      end, len := RxDelivered, HDR + size;
    }
    var ok := q.AddBuf(r.head, len, t.memory);
  }

  /** A packet with data to deliver; the others are skipped and count as processed. */
  predicate Deliverable(p: Packet) {
    p.Packet? && p.linear && p.size > 0
  }

  /** The buffers among `pkts`, in order. */
  ghost function Bufs(pkts: seq<Packet>): seq<nat> {
    if pkts == [] then []
    else
      var p := pkts[|pkts| - 1];
      Bufs(pkts[..|pkts| - 1]) + if p.Packet? then [p.buf] else []
  }

  /** The lengths that the guest is told, in order. */
  ghost function Lengths(pkts: seq<Packet>): seq<nat> {
    if pkts == [] then []
    else
      var p := pkts[|pkts| - 1];
      Lengths(pkts[..|pkts| - 1]) + if Deliverable(p) then [HDR + p.size] else []
  }

  ghost function Lens(elems: seq<UsedElem>): seq<nat> {
    seq(|elems|, i requires 0 <= i < |elems| => elems[i].len)
  }

  lemma PacketNext(pkts: seq<Packet>, i: nat)
    requires i < |pkts|
    ensures Bufs(pkts[..i + 1]) == Bufs(pkts[..i]) + if pkts[i].Packet? then [pkts[i].buf] else []
    ensures Lengths(pkts[..i + 1]) == Lengths(pkts[..i]) + if Deliverable(pkts[i]) then [HDR + pkts[i].size] else []
  {
    assert pkts[..i + 1][..i] == pkts[..i];
  }

  /** Chains taken and returned in step, the guest being told the given lengths. */
  ghost predicate Told(gets0: seq<nat>, puts0: seq<UsedElem>, gets: seq<nat>, puts: seq<UsedElem>, lens: seq<nat>) {
    InStep(gets0, puts0, gets, puts, |lens|) && Lens(puts[|puts0|..]) == lens
  }

  lemma ToldNext(gets0: seq<nat>, puts0: seq<UsedElem>, gets: seq<nat>, puts: seq<UsedElem>,
                 lens: seq<nat>, head: nat, len: nat)
    requires Told(gets0, puts0, gets, puts, lens)
    ensures Told(gets0, puts0, gets + [head], puts + [UsedElem(head, len)], lens + [len])
  {
    InStepNext(gets0, puts0, gets, puts, |lens|, head, len);
    var e := UsedElem(head, len);
    assert (puts + [e])[|puts0|..] == puts[|puts0|..] + [e];
    assert Lens(puts[|puts0|..] + [e]) == Lens(puts[|puts0|..]) + [len];
  }

  /** How the queue stands once `done` packets are processed and the loop is over:
      their chains are back with their lengths; one more chain may have been
      returned empty or, if it could not be walked, lost. */
  ghost predicate Settled(gets0: seq<nat>, puts0: seq<UsedElem>, gets: seq<nat>, puts: seq<UsedElem>,
                          done: seq<Packet>)
  {
    || Told(gets0, puts0, gets, puts, Lengths(done))
    || Told(gets0, puts0, gets, puts, Lengths(done) + [0])
    || (gets != [] && Told(gets0, puts0, gets[..|gets| - 1], puts, Lengths(done)))
  }

  /** What the loop does when it comes to `k`: it goes on, it dies, or, when there is no
      packet, the burst is used up or its chain does not take it, it halts. */
  datatype Course = Goes | Halts | Dies

  /** That of a packet of `size` bytes, for the chain with index `last`. */
  ghost function PacketCourse(t: RxTurn, last: nat, num: nat, size: nat): Course
    requires 0 < num && Fitting(t.memory, num)
  {
    if Pending(t.memory.availIdx, last) > num then Dies
    else if t.memory.again == last then Halts
    else if t.memory.ring[last % num] >= num then Dies
    else if Takes(t, t.memory.ring[last % num], size) then Goes
    else Halts
  }

  ghost function CourseAt(pkts: seq<Packet>, turns: seq<RxTurn>, base: nat, num: nat, k: nat): Course
    requires k <= |pkts| == |turns| && 0 < num && forall i :: 0 <= i < |turns| ==> Fitting(turns[i].memory, num)
  {
    if k == |pkts| || (k >= RX_BURST && Deliverable(pkts[k - 1])) then Halts
    else if !Deliverable(pkts[k]) then Goes
    else PacketCourse(turns[k], (base + |Lengths(pkts[..k])|) % WRAP, num, pkts[k].size)
  }

  /** The loop gets past the first `n` packets. */
  ghost predicate Passed(pkts: seq<Packet>, turns: seq<RxTurn>, base: nat, num: nat, n: nat)
    requires n <= |pkts| == |turns| && 0 < num && forall i :: 0 <= i < |turns| ==> Fitting(turns[i].memory, num)
  {
    forall k :: 0 <= k < n ==> CourseAt(pkts, turns, base, num, k).Goes?
  }

  /** Exactly the packets before `n` are processed. */
  ghost predicate EndsAt(pkts: seq<Packet>, turns: seq<RxTurn>, base: nat, num: nat, n: nat, how: Course)
    requires |pkts| == |turns| && 0 < num && forall i :: 0 <= i < |turns| ==> Fitting(turns[i].memory, num)
  {
    n <= |pkts| && Passed(pkts, turns, base, num, n) && CourseAt(pkts, turns, base, num, n) == how
  }

  /** The loop dies; the packets before the fatal one are freed. */
  ghost predicate DiesAfter(pkts: seq<Packet>, turns: seq<RxTurn>, base: nat, num: nat, freed: seq<nat>)
    requires |pkts| == |turns| && 0 < num && forall i :: 0 <= i < |turns| ==> Fitting(turns[i].memory, num)
  {
    exists k: nat :: EndsAt(pkts, turns, base, num, k, Dies) && freed == Bufs(pkts[..k])
  }

  /** Delivers packets to the guest. A count of `n` means that exactly the first `n`
      packets are freed and the others untouched. */
  method Receive(q: VQueue, driverOk: bool, start: Memory, pkts: seq<Packet>, turns: seq<RxTurn>)
    returns (r: Result, freed: seq<nat>)
    requires q.Valid() && start.availIdx < WRAP && |turns| == |pkts|
    requires forall i :: 0 <= i < |turns| ==> Fitting(turns[i].memory, q.num)
    modifies q`lastAvail, q`gets, q`used, q`usedIdx, q`puts
    ensures q.Valid()
    ensures r.NotReady? <==> !driverOk || !q.connected
    ensures r.NoAvail? <==> driverOk && q.connected && start.availIdx == old(q.lastAvail)
    ensures r.Retry? <==>
            driverOk && q.connected && 0 < Pending(start.availIdx, old(q.lastAvail)) < HALF_QUEUE
    ensures r.NotReady? || r.NoAvail? || r.Retry? || r.Count? || r.Panicked?
    ensures r.NotReady? || r.NoAvail? || r.Retry? ==> freed == [] && q.gets == old(q.gets) && q.puts == old(q.puts)
    ensures r.Count? ==>
              && EndsAt(pkts, turns, |old(q.gets)|, q.num, r.n, Halts) && freed == Bufs(pkts[..r.n])
              && Settled(old(q.gets), old(q.puts), q.gets, q.puts, pkts[..r.n])
    ensures r.Panicked? ==> DiesAfter(pkts, turns, |old(q.gets)|, q.num, freed)
  {
    freed := [];
    if !driverOk || !q.connected {
      return NotReady, [];
    }
    var space := Pending(start.availIdx, q.lastAvail);
    if space == 0 {
      return NoAvail, [];
    }
    if space < HALF_QUEUE {
      return Retry, [];
    }
    r, freed := ReceiveLoop(q, pkts, turns);
  }

  /** What the poll makes of an attempt to deliver: nothing was queued, there will be
      another round, there was no guest buffer, or none of these. */
  datatype Report = NothingQueued | AnotherRound | NoBuffer | GaveUp | Died

  /** The first packet was not taken: no chain, or one that is bad or too small. */
  ghost predicate FirstRefused(base: nat, pkts: seq<Packet>, turns: seq<RxTurn>, num: nat)
    requires |pkts| == |turns| && 0 < num && forall i :: 0 <= i < |turns| ==> Fitting(turns[i].memory, num)
  {
    pkts != [] && Deliverable(pkts[0]) && CourseAt(pkts, turns, base, num, 0).Halts?
  }

  lemma EndsFirst(base: nat, pkts: seq<Packet>, turns: seq<RxTurn>, num: nat, n: nat, how: Course)
    requires |pkts| == |turns| > 0 && 0 < num && forall i :: 0 <= i < |turns| ==> Fitting(turns[i].memory, num)
    requires EndsAt(pkts, turns, base, num, n, how)
    ensures FirstRefused(base, pkts, turns, num) <==> n == 0 && how.Halts?
    ensures Bufs(pkts[..0]) == []
  {
    if n > 0 {
      assert CourseAt(pkts, turns, base, num, 0).Goes?;
    }
  }

  /** One attempt of the poll to deliver a burst of the egress queue. It gives up exactly
      when the card is not ready or the first packet is not taken. */
  method Attempt(q: VQueue, driverOk: bool, start: Memory, pkts: seq<Packet>, turns: seq<RxTurn>)
    returns (report: Report, freed: seq<nat>)
    requires q.Valid() && start.availIdx < WRAP && |turns| == |pkts|
    requires forall i :: 0 <= i < |turns| ==> Fitting(turns[i].memory, q.num)
    modifies q`lastAvail, q`gets, q`used, q`usedIdx, q`puts
    ensures q.Valid() && (report.NothingQueued? <==> pkts == [])
    ensures report.NoBuffer? <==> pkts != [] && driverOk && q.connected && start.availIdx == old(q.lastAvail)
    ensures report.GaveUp? && driverOk && q.connected ==> FirstRefused(|old(q.gets)|, pkts, turns, q.num)
    ensures pkts != [] && (!driverOk || !q.connected) ==> report.GaveUp?
    ensures driverOk && q.connected && Pending(start.availIdx, old(q.lastAvail)) >= HALF_QUEUE ==>
              (FirstRefused(|old(q.gets)|, pkts, turns, q.num) ==> report.GaveUp?)
    ensures report.GaveUp? ==> freed == []
  {
    if |pkts| == 0 {
      return NothingQueued, [];
    }
    var r;
    ghost var base := |q.gets|;
    r, freed := Receive(q, driverOk, start, pkts, turns);
    if r.Count? {
      EndsFirst(base, pkts, turns, q.num, r.n, Halts);
    } else if r.Panicked? {
      ghost var k: nat :| EndsAt(pkts, turns, base, q.num, k, Dies);
      EndsFirst(base, pkts, turns, q.num, k, Dies);
    }
    if r.NoAvail? {
      report := NoBuffer;
    } else if r.Retry? || (r.Count? && r.n > 0) {
      report := AnotherRound;
    } else if r.Panicked? {
      report := Died;
    } else {
      report := GaveUp;
    }
  }

  method ReceiveLoop(q: VQueue, pkts: seq<Packet>, turns: seq<RxTurn>) returns (r: Result, freed: seq<nat>)
    requires q.Valid() && q.connected && |turns| == |pkts|
    requires forall i :: 0 <= i < |turns| ==> Fitting(turns[i].memory, q.num)
    modifies q`lastAvail, q`gets, q`used, q`usedIdx, q`puts
    ensures q.Valid() && (r.Count? || r.Panicked?)
    ensures r.Count? ==>
              && EndsAt(pkts, turns, |old(q.gets)|, q.num, r.n, Halts) && freed == Bufs(pkts[..r.n])
              && Settled(old(q.gets), old(q.puts), q.gets, q.puts, pkts[..r.n])
    ensures r.Panicked? ==> DiesAfter(pkts, turns, |old(q.gets)|, q.num, freed)
  {
    freed := [];
    var i, processed := 0, 0;
    ghost var gets0, puts0 := q.gets, q.puts;
    while i < |pkts|
      invariant 0 <= i <= |pkts| && processed == i
      invariant q.Valid() && q.connected
      invariant Receiving(gets0, puts0, q.gets, q.puts, q.num, freed, pkts, turns, i)
      invariant i > 0 && Deliverable(pkts[i - 1]) ==> i < RX_BURST
    {
      var end;
      end, freed := ReceiveNext(q, pkts, turns, i, freed, gets0, puts0);
      if end.RxPanic? {
        assert EndsAt(pkts, turns, |gets0|, q.num, i, Dies);
        return Panicked, freed;
      }
      if !end.RxDelivered? {
        return Count(processed), freed;
      }
      processed := processed + 1;
      if Deliverable(pkts[i]) && processed >= RX_BURST {
        return Count(processed), freed;
      }
      i := i + 1;
    }
    r := Count(processed);
  }

  /** The state of the loop when it comes to packet `i`. */
  ghost predicate Receiving(gets0: seq<nat>, puts0: seq<UsedElem>, gets: seq<nat>, puts: seq<UsedElem>, num: nat,
                            freed: seq<nat>, pkts: seq<Packet>, turns: seq<RxTurn>, i: nat)
    requires i <= |pkts| == |turns| && 0 < num && forall i :: 0 <= i < |turns| ==> Fitting(turns[i].memory, num)
  {
    && freed == Bufs(pkts[..i]) && Told(gets0, puts0, gets, puts, Lengths(pkts[..i]))
    && Passed(pkts, turns, |gets0|, num, i)
  }

  lemma CourseIsEnd(t: RxTurn, last: nat, num: nat, size: nat)
    requires 0 < num && Fitting(t.memory, num)
    ensures var end := RxEndOf(t, size, last, num);
            PacketCourse(t, last, num, size) ==
            if end.RxDelivered? then Goes else if end.RxPanic? then Dies else Halts
  {
    if t.memory.ring[last % num] < num {
      DeliveredIff(t, t.memory.ring[last % num], size);
    }
  }

  /** Packet `i`, with what it means for the loop's state; one that has nothing to
      deliver counts as delivered. */
  method ReceiveNext(q: VQueue, pkts: seq<Packet>, turns: seq<RxTurn>, i: nat, freed: seq<nat>,
                     ghost gets0: seq<nat>, ghost puts0: seq<UsedElem>)
    returns (end: RxEnd, more: seq<nat>)
    requires q.Valid() && q.connected && i < |pkts| == |turns|
    requires forall i :: 0 <= i < |turns| ==> Fitting(turns[i].memory, q.num)
    requires Receiving(gets0, puts0, q.gets, q.puts, q.num, freed, pkts, turns, i)
    requires i > 0 && Deliverable(pkts[i - 1]) ==> i < RX_BURST
    modifies q`lastAvail, q`gets, q`used, q`usedIdx, q`puts
    ensures q.Valid()
    ensures end.RxDelivered? ==> Receiving(gets0, puts0, q.gets, q.puts, q.num, more, pkts, turns, i + 1)
    ensures !end.RxDelivered? ==> more == freed
    ensures CourseAt(pkts, turns, |gets0|, q.num, i) ==
            if end.RxDelivered? then Goes else if end.RxPanic? then Dies else Halts
    ensures !end.RxDelivered? && !end.RxPanic? ==> Settled(gets0, puts0, q.gets, q.puts, pkts[..i])
  {
    PacketNext(pkts, i);
    end, more := RxDelivered, freed;
    if Deliverable(pkts[i]) {
      end := ReceiveStep(q, pkts[i].size, turns[i], gets0, puts0, Lengths(pkts[..i]));
      CourseIsEnd(turns[i], (|gets0| + |Lengths(pkts[..i])|) % WRAP, q.num, pkts[i].size);
    }
    if end.RxDelivered? && pkts[i].Packet? {
      more := freed + [pkts[i].buf];
    }
  }

  method ReceiveStep(q: VQueue, size: nat, t: RxTurn,
                     ghost gets0: seq<nat>, ghost puts0: seq<UsedElem>, ghost lens: seq<nat>)
    returns (end: RxEnd)
    requires q.Valid() && q.connected && Fitting(t.memory, q.num) && Told(gets0, puts0, q.gets, q.puts, lens)
    modifies q`lastAvail, q`gets, q`used, q`usedIdx, q`puts
    ensures q.Valid() && end == RxEndOf(t, size, (|gets0| + |lens|) % WRAP, q.num)
    ensures end.RxNoChain? ==> Told(gets0, puts0, q.gets, q.puts, lens)
    ensures end.RxLost? ==> q.gets != [] && Told(gets0, puts0, q.gets[..|q.gets| - 1], q.puts, lens)
    ensures end.RxReturned? ==> Told(gets0, puts0, q.gets, q.puts, lens + [0])
    ensures end.RxDelivered? ==> Told(gets0, puts0, q.gets, q.puts, lens + [HDR + size])
  {
    ghost var gets, puts := q.gets, q.puts;
    end := ReceiveTurn(q, size, t);
    if end.RxLost? {
      assert q.gets[..|q.gets| - 1] == gets;
    } else if end.RxReturned? {
      ToldNext(gets0, puts0, gets, puts, lens, q.gets[|gets|], 0);
    } else if end.RxDelivered? {
      ToldNext(gets0, puts0, gets, puts, lens, q.gets[|gets|], HDR + size);
    }
  }
}
