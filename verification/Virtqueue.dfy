/** The device side of a split virtqueue (sections 2.4.5 and 2.4.6 of Virtio
    1.0): 16-bit free-running ring indices and the walk along a descriptor chain
    in guest memory. Guest memory is whatever the guest left there; it is fixed
    for the duration of one call. */
module Virtqueue {

  /** A descriptor: `write` and `more` are the device-writable and next flags. */
  datatype Desc = Desc(addr: nat, len: nat, next: nat, write: bool, more: bool)

  datatype Segment = Segment(addr: nat, len: nat)

  /** `BadChain`: the chain leaves the table. `TooBig`: more segments than fit. */
  datatype Walk = Done(read: seq<Segment>, write: seq<Segment>) | BadChain | TooBig

  /** The indices run modulo 2^16. */
  const WRAP := 0x1_0000

  // -------------------------------------------------------------- chain walk

  function WalkFrom(table: seq<Desc>, i: nat, readRoom: nat, writeRoom: nat): Walk
    decreases readRoom + writeRoom
  {
    if i >= |table| then BadChain else
    var d := table[i];
    if (if d.write then writeRoom else readRoom) == 0 then TooBig
    else if !d.more then Cons(d, Done([], []))
    else if d.write then Cons(d, WalkFrom(table, d.next, readRoom, writeRoom - 1))
    else Cons(d, WalkFrom(table, d.next, readRoom - 1, writeRoom))
  }

  function Cons(d: Desc, w: Walk): Walk {
    if !w.Done? then w
    else if d.write then w.(write := [Segment(d.addr, d.len)] + w.write)
    else w.(read := [Segment(d.addr, d.len)] + w.read)
  }

  ghost predicate Links(table: seq<Desc>, path: seq<nat>, j: nat)
    requires j + 1 < |path| && path[j] < |table|
  {
    table[path[j]].more && path[j + 1] == table[path[j]].next
  }

  /** A chain prefix: in-range descriptors, each but the last linking to the next. */
  ghost predicate IsPath(table: seq<Desc>, path: seq<nat>) {
    && path != []
    && (forall j :: 0 <= j < |path| ==> path[j] < |table|)
    && (forall j :: 0 <= j < |path| - 1 ==> Links(table, path, j))
  }

  /** The segments of one direction along a path, in order. */
  ghost function Segments(table: seq<Desc>, path: seq<nat>, write: bool): seq<Segment>
    requires forall j :: 0 <= j < |path| ==> path[j] < |table|
  {
    if path == [] then []
    else
      var d := table[path[0]];
      (if d.write == write then [Segment(d.addr, d.len)] else []) + Segments(table, path[1..], write)
  }

  ghost predicate Fits(table: seq<Desc>, path: seq<nat>, readRoom: nat, writeRoom: nat)
    requires forall j :: 0 <= j < |path| ==> path[j] < |table|
  {
    |Segments(table, path, false)| <= readRoom && |Segments(table, path, true)| <= writeRoom
  }

  /** A whole chain that starts at `head` and fits. */
  ghost predicate IsChain(table: seq<Desc>, head: nat, path: seq<nat>, readRoom: nat, writeRoom: nat) {
    && IsPath(table, path) && path[0] == head && !table[path[|path| - 1]].more
    && Fits(table, path, readRoom, writeRoom)
  }

  lemma PathCons(table: seq<Desc>, head: nat, rest: seq<nat>)
    requires head < |table| && IsPath(table, rest) && table[head].more && table[head].next == rest[0]
    ensures IsPath(table, [head] + rest)
  {
    var path := [head] + rest;
    forall j | 0 <= j < |path| - 1
      ensures Links(table, path, j)
    {
      assert j > 0 ==> Links(table, rest, j - 1);
    }
  }

  lemma PathTail(table: seq<Desc>, path: seq<nat>)
    requires IsPath(table, path) && |path| > 1
    ensures IsPath(table, path[1..]) && path[1] == table[path[0]].next && table[path[0]].more
  {
    assert Links(table, path, 0);
    forall j | 0 <= j < |path| - 2
      ensures Links(table, path[1..], j)
    {
      assert Links(table, path, j + 1);
    }
  }

  lemma SegmentsCons(table: seq<Desc>, head: nat, rest: seq<nat>, write: bool)
    requires head < |table| && forall j :: 0 <= j < |rest| ==> rest[j] < |table|
    ensures var d := table[head];
            Segments(table, [head] + rest, write)
            == (if d.write == write then [Segment(d.addr, d.len)] else []) + Segments(table, rest, write)
  {
    assert ([head] + rest)[1..] == rest;
  }

  /** A successful walk follows a whole chain that fits, and returns its
      read-only and its write-only segments in order. */
  lemma {:induction false} DoneFollowsChain(table: seq<Desc>, head: nat, readRoom: nat, writeRoom: nat)
    returns (path: seq<nat>)
    requires WalkFrom(table, head, readRoom, writeRoom).Done?
    ensures IsChain(table, head, path, readRoom, writeRoom)
    ensures WalkFrom(table, head, readRoom, writeRoom)
         == Done(Segments(table, path, false), Segments(table, path, true))
    decreases readRoom + writeRoom
  {
    var d := table[head];
    var rest: seq<nat> := [];
    if d.more {
      if d.write {
        rest := DoneFollowsChain(table, d.next, readRoom, writeRoom - 1);
      } else {
        rest := DoneFollowsChain(table, d.next, readRoom - 1, writeRoom);
      }
      PathCons(table, head, rest);
    }
    path := [head] + rest;
    SegmentsCons(table, head, rest, false);
    SegmentsCons(table, head, rest, true);
  }

  /** A chain has room for its head, and a head that is not the last is followed by
      the rest of the chain. */
  lemma ChainTail(table: seq<Desc>, head: nat, readRoom: nat, writeRoom: nat, path: seq<nat>) returns (rest: seq<nat>)
    requires IsChain(table, head, path, readRoom, writeRoom)
    ensures head < |table| && (if table[head].write then writeRoom else readRoom) > 0
    ensures table[head].more && table[head].write ==>
              |rest| < |path| && IsChain(table, table[head].next, rest, readRoom, writeRoom - 1)
    ensures table[head].more && !table[head].write ==>
              |rest| < |path| && IsChain(table, table[head].next, rest, readRoom - 1, writeRoom)
  {
    rest := path[1..];
    if table[head].more {
      PathTail(table, path);
    }
  }

  lemma WalkGoesOn(table: seq<Desc>, i: nat, readRoom: nat, writeRoom: nat)
    requires i < |table| && (if table[i].write then writeRoom else readRoom) > 0
    requires table[i].more ==>
               if table[i].write then WalkFrom(table, table[i].next, readRoom, writeRoom - 1).Done?
               else WalkFrom(table, table[i].next, readRoom - 1, writeRoom).Done?
    ensures WalkFrom(table, i, readRoom, writeRoom).Done?
  {
  }

  /** Conversely, whenever such a chain exists the walk succeeds. */
  lemma {:induction false} ChainIsWalked(table: seq<Desc>, head: nat, readRoom: nat, writeRoom: nat, path: seq<nat>)
    requires IsChain(table, head, path, readRoom, writeRoom)
    ensures WalkFrom(table, head, readRoom, writeRoom).Done?
    decreases |path|
  {
    var rest := ChainTail(table, head, readRoom, writeRoom, path);
    if table[head].more {
      if table[head].write {
        ChainIsWalked(table, table[head].next, readRoom, writeRoom - 1, rest);
      } else {
        ChainIsWalked(table, table[head].next, readRoom - 1, writeRoom, rest);
      }
    }
    WalkGoesOn(table, head, readRoom, writeRoom);
  }

  /** The walk succeeds exactly on chains that end within the table and fit the
      caller's segment lists; on a cyclic or overlong chain it stops and fails. */
  lemma WalkSucceedsIff(table: seq<Desc>, head: nat, readRoom: nat, writeRoom: nat)
    ensures WalkFrom(table, head, readRoom, writeRoom).Done? <==>
            exists path: seq<nat> :: IsChain(table, head, path, readRoom, writeRoom)
  {
    if WalkFrom(table, head, readRoom, writeRoom).Done? {
      var path := DoneFollowsChain(table, head, readRoom, writeRoom);
    }
    if path: seq<nat> :| IsChain(table, head, path, readRoom, writeRoom) {
      ChainIsWalked(table, head, readRoom, writeRoom, path);
    }
  }

  /** A path fits exactly if its tail fits in what the head leaves. */
  /** A table has one whole chain from a head at most. */
  lemma {:induction false} SamePath(table: seq<Desc>, p: seq<nat>, q: seq<nat>)
    requires IsPath(table, p) && IsPath(table, q) && p[0] == q[0]
    requires !table[p[|p| - 1]].more && !table[q[|q| - 1]].more
    ensures p == q
    decreases |p|
  {
    if |p| > 1 {
      PathTail(table, p);
    }
    if |q| > 1 {
      PathTail(table, q);
    }
    if |p| > 1 && |q| > 1 {
      SamePath(table, p[1..], q[1..]);
      assert p == [p[0]] + p[1..] && q == [q[0]] + q[1..];
    }
  }

  /** Walking a chain gives its segments. */
  lemma WalkGivesSegments(table: seq<Desc>, head: nat, readRoom: nat, writeRoom: nat, path: seq<nat>)
    requires IsChain(table, head, path, readRoom, writeRoom)
    ensures WalkFrom(table, head, readRoom, writeRoom)
         == Done(Segments(table, path, false), Segments(table, path, true))
  {
    ChainIsWalked(table, head, readRoom, writeRoom, path);
    var found := DoneFollowsChain(table, head, readRoom, writeRoom);
    SamePath(table, path, found);
  }

  lemma FitsCons(table: seq<Desc>, head: nat, rest: seq<nat>, readRoom: nat, writeRoom: nat)
    requires head < |table| && (forall j :: 0 <= j < |rest| ==> rest[j] < |table|)
    ensures var d := table[head];
            Fits(table, [head] + rest, readRoom, writeRoom)
            <==> if d.write then writeRoom > 0 && Fits(table, rest, readRoom, writeRoom - 1)
            else readRoom > 0 && Fits(table, rest, readRoom - 1, writeRoom)
  {
    SegmentsCons(table, head, rest, false);
    SegmentsCons(table, head, rest, true);
  }

  /** Why a walk fails: `BadChain` means that a path that fits links out of the
      table, `TooBig` that a path that fits continues with one segment too many. */
  ghost predicate Explains(table: seq<Desc>, w: Walk, path: seq<nat>, readRoom: nat, writeRoom: nat)
    requires IsPath(table, path)
  {
    var n := |path| - 1;
    && (w.BadChain? ==> Fits(table, path, readRoom, writeRoom) && table[path[n]].more && table[path[n]].next >= |table|)
    && (w.TooBig? ==> Fits(table, path[..n], readRoom, writeRoom) && !Fits(table, path, readRoom, writeRoom))
  }

  /** An explanation for the rest of the chain explains the whole. */
  lemma ExplainsCons(table: seq<Desc>, w: Walk, head: nat, rest: seq<nat>, readRoom: nat, writeRoom: nat)
    requires head < |table| && IsPath(table, rest) && table[head].more && table[head].next == rest[0]
    requires if table[head].write then writeRoom > 0 && Explains(table, w, rest, readRoom, writeRoom - 1)
             else readRoom > 0 && Explains(table, w, rest, readRoom - 1, writeRoom)
    ensures IsPath(table, [head] + rest) && Explains(table, w, [head] + rest, readRoom, writeRoom)
  {
    PathCons(table, head, rest);
    var cut := rest[..|rest| - 1];
    assert ([head] + rest)[..|rest|] == [head] + cut;
    FitsCons(table, head, rest, readRoom, writeRoom);
    FitsCons(table, head, cut, readRoom, writeRoom);
  }

  /** Every failure from a valid head is explained. */
  lemma {:induction false} FailureIsExplained(table: seq<Desc>, head: nat, readRoom: nat, writeRoom: nat)
    returns (path: seq<nat>)
    requires head < |table| && !WalkFrom(table, head, readRoom, writeRoom).Done?
    ensures IsPath(table, path) && path[0] == head
    ensures Explains(table, WalkFrom(table, head, readRoom, writeRoom), path, readRoom, writeRoom)
    decreases readRoom + writeRoom
  {
    var d := table[head];
    if (if d.write then writeRoom else readRoom) == 0 || d.next >= |table| {
      path := [head] + [];
      assert path[..0] == [];
      FitsCons(table, head, [], readRoom, writeRoom);
    } else {
      var rest;
      if d.write {
        rest := FailureIsExplained(table, d.next, readRoom, writeRoom - 1);
      } else {
        rest := FailureIsExplained(table, d.next, readRoom - 1, writeRoom);
      }
      ExplainsCons(table, WalkFrom(table, head, readRoom, writeRoom), head, rest, readRoom, writeRoom);
      path := [head] + rest;
    }
  }

  // ------------------------------------------------------------ device queue

  /** Lengths are summed in a 32-bit size. */
  const SIZE_WRAP := 0x1_0000_0000

  ghost function Total(segments: seq<Segment>): nat {
    if segments == [] then 0 else Total(segments[..|segments| - 1]) + segments[|segments| - 1].len
  }

  /** The running sum as the walk keeps it. */
  function Size(segments: seq<Segment>): nat {
    if segments == [] then 0 else Add(Size(segments[..|segments| - 1]), segments[|segments| - 1].len)
  }

  function Add(a: nat, b: nat): nat {
    (a + b) % SIZE_WRAP
  }

  /** The recorded size is the summed length, up to the 32-bit wrap. */
  lemma {:induction false} SizeIsTotal(segments: seq<Segment>)
    ensures Size(segments) == Total(segments) % SIZE_WRAP
  {
    if segments != [] {
      var n := |segments| - 1;
      SizeIsTotal(segments[..n]);
      AddWraps(Total(segments[..n]), segments[n].len);
    }
  }

  lemma AddWraps(total: nat, len: nat)
    ensures Add(total % SIZE_WRAP, len) == (total + len) % SIZE_WRAP
  {
  }

  function Glue(read: seq<Segment>, write: seq<Segment>, w: Walk): Walk {
    if w.Done? then Done(read + w.read, write + w.write) else w
  }

  /** One descriptor moved from the rest of the walk to the lists built so far. */
  lemma GlueStep(table: seq<Desc>, i: nat, readRoom: nat, writeRoom: nat, read: seq<Segment>, write: seq<Segment>)
    requires i < |table| && (if table[i].write then writeRoom else readRoom) > 0
    ensures var d := table[i];
            var read' := if d.write then read else read + [Segment(d.addr, d.len)];
            var write' := if d.write then write + [Segment(d.addr, d.len)] else write;
            Glue(read, write, WalkFrom(table, i, readRoom, writeRoom))
            == if !d.more then Done(read', write')
            else if d.write then Glue(read', write', WalkFrom(table, d.next, readRoom, writeRoom - 1))
            else Glue(read', write', WalkFrom(table, d.next, readRoom - 1, writeRoom))
  {
    var d := table[i];
    var one := [Segment(d.addr, d.len)];
    assert one + [] == one && read + [] == read && write + [] == write;
    if d.more {
      var rest :=
        if d.write then WalkFrom(table, d.next, readRoom, writeRoom - 1)
        else WalkFrom(table, d.next, readRoom - 1, writeRoom);
      if rest.Done? {
        assert write + (one + rest.write) == write + one + rest.write;
        assert read + (one + rest.read) == read + one + rest.read;
      }
    }
  }

  /** The walk's state when it comes to descriptor `i`. */
  ghost predicate Walked(table: seq<Desc>, head: nat, readRoom: nat, writeRoom: nat,
                         i: nat, read: seq<Segment>, write: seq<Segment>, more: bool)
  {
    && |read| <= readRoom && |write| <= writeRoom
    && WalkFrom(table, head, readRoom, writeRoom)
       == if more then Glue(read, write, WalkFrom(table, i, readRoom - |read|, writeRoom - |write|))
          else Done(read, write)
  }

  lemma WalkedNext(table: seq<Desc>, head: nat, readRoom: nat, writeRoom: nat,
                   i: nat, read: seq<Segment>, write: seq<Segment>)
    requires Walked(table, head, readRoom, writeRoom, i, read, write, true)
    requires i < |table| && if table[i].write then |write| < writeRoom else |read| < readRoom
    ensures var d := table[i];
            var read' := if d.write then read else read + [Segment(d.addr, d.len)];
            var write' := if d.write then write + [Segment(d.addr, d.len)] else write;
            Walked(table, head, readRoom, writeRoom, d.next, read', write', d.more)
  {
    GlueStep(table, i, readRoom - |read|, writeRoom - |write|, read, write);
  }

  lemma SizeStep(segments: seq<Segment>, s: Segment)
    ensures Size(segments + [s]) == Add(Size(segments), s.len)
  {
    assert (segments + [s])[..|segments|] == segments;
  }

  /** The do-while loop that fills the two segment lists. */
  method WalkChain(table: seq<Desc>, head: nat, readRoom: nat, writeRoom: nat)
    returns (w: Walk, readLen: nat, writeLen: nat)
    ensures w == WalkFrom(table, head, readRoom, writeRoom)
    ensures w.Done? ==> readLen == Size(w.read) && writeLen == Size(w.write)
  {
    var i: nat, more := head, true;
    var read: seq<Segment>, write: seq<Segment> := [], [];
    readLen, writeLen := 0, 0;
    while more
      invariant Walked(table, head, readRoom, writeRoom, i, read, write, more)
      invariant readLen == Size(read) && writeLen == Size(write)
      decreases more, readRoom - |read| + writeRoom - |write|
    {
      if i >= |table| {
        return BadChain, readLen, writeLen;
      }
      var d := table[i];
      var segment := Segment(d.addr, d.len);
      if d.write {
        if |write| >= writeRoom {
          return TooBig, readLen, writeLen;
        }
        WalkedNext(table, head, readRoom, writeRoom, i, read, write);
        SizeStep(write, segment);
        write := write + [segment];
        writeLen := Add(writeLen, d.len);
      } else {
        if |read| >= readRoom {
          return TooBig, readLen, writeLen;
        }
        WalkedNext(table, head, readRoom, writeRoom, i, read, write);
        SizeStep(read, segment);
        read := read + [segment];
        readLen := Add(readLen, d.len);
      }
      i, more := d.next, d.more;
    }
    w := Done(read, write);
  }

  /** The guest's memory as one turn finds it. The available and the used index are
      both read twice and may change in between. */
  datatype Memory = Memory(
    availIdx: nat, again: nat, ring: seq<nat>, table: seq<Desc>, usedIdx: nat, usedAgain: nat)

  ghost predicate Fitting(m: Memory, num: nat) {
    && m.availIdx < WRAP && m.again < WRAP && m.usedIdx < WRAP && m.usedAgain < WRAP
    && |m.ring| == num && |m.table| == num
  }

  lemma NextIndex(k: nat)
    ensures (k % WRAP + 1) % WRAP == (k + 1) % WRAP
  {
  }

  /** How far the free-running 16-bit index `idx` is ahead of `last`. */
  function Pending(idx: nat, last: nat): nat {
    (idx - last) % WRAP
  }

  datatype Got = Closed | Empty | IndexPanic | HeadPanic | Got(head: nat, walk: Walk, readLen: nat, writeLen: nat)

  /** What mapping the rings comes to: not mappable (the old mapping stays), mapped
      with an unexpected layout (dropped), or mapped. */
  datatype Mapping = Unmapped | BadLayout | Mapped

  datatype UsedElem = UsedElem(id: nat, len: nat)

  class VQueue {
    const num: nat
    var connected: bool
    var lastAvail: nat
    var usedIdx: nat
    var used: seq<UsedElem>

    /** The chain heads taken since the last tear-down, and those returned since the
        last set-up. */
    ghost var gets: seq<nat>
    ghost var puts: seq<UsedElem>

    ghost predicate Valid()
      reads this
    {
      && 0 < num <= 256 && |used| == num
      && lastAvail == |gets| % WRAP && usedIdx < WRAP
    }

    constructor (num: nat)
      requires 0 < num <= 256
      ensures Valid() && !connected && this.num == num && gets == [] && puts == []
    {
      this.num, this.used := num, seq(num, _ => UsedElem(0, 0));
      connected, lastAvail, usedIdx := false, 0, 0;
      gets, puts := [], [];
    }

    /** Sets the rings up over guest memory that holds `used` and `usedIdx`. The index
        of the next chain to take is kept: only a tear-down starts it again, so a
        guest that sets up twice goes on where it was. */
    method Setup(mapping: Mapping, used: seq<UsedElem>, usedIdx: nat)
      requires Valid() && |used| == num && usedIdx < WRAP
      modifies this
      ensures Valid() && lastAvail == old(lastAvail) && gets == old(gets)
      ensures connected == if mapping.Unmapped? then old(connected) else mapping.Mapped?
      ensures mapping.Mapped? ==> this.used == used && this.usedIdx == usedIdx && puts == []
      ensures !mapping.Mapped? ==> this.used == old(this.used) && puts == old(puts)
    {
      if mapping.Mapped? {
        this.used, this.usedIdx := used, usedIdx;
        puts := [];
      }
      if !mapping.Unmapped? {
        connected := mapping.Mapped?;
      }
    }

    method Teardown()
      requires Valid()
      modifies this`connected, this`lastAvail, this`gets
      ensures Valid() && !connected && gets == []
    {
      connected, lastAvail := false, 0;
      gets := [];
    }

    /** Takes the next available chain. An index is consumed exactly when
        something is available and the distance is in range, whatever becomes of
        the chain. */
    method GetAvailBuf(m: Memory, readRoom: nat, writeRoom: nat) returns (r: Got)
      requires Valid() && Fitting(m, num)
      modifies this`lastAvail, this`gets
      ensures Valid()
      ensures r.Closed? <==> !connected
      ensures connected ==> (r.IndexPanic? <==> Pending(m.availIdx, old(lastAvail)) > num)
      ensures connected ==> (r.Empty? <==> !r.IndexPanic? && m.again == old(lastAvail))
      ensures gets == if r.HeadPanic? || r.Got? then old(gets) + [m.ring[old(lastAvail) % num]] else old(gets)
      ensures r.HeadPanic? ==> m.ring[old(lastAvail) % num] >= num
      ensures r.Got? ==>
                && r.head == m.ring[old(lastAvail) % num] < num
                && r.walk == WalkFrom(m.table, r.head, readRoom, writeRoom)
                && (r.walk.Done? ==>
                      r.readLen == Size(r.walk.read) && r.writeLen == Size(r.walk.write))
    {
      if !connected {
        return Closed;
      }
      if Pending(m.availIdx, lastAvail) > num {
        return IndexPanic;
      }
      if lastAvail == m.again {
        return Empty;
      }
      var head := m.ring[lastAvail % num];
      NextIndex(|gets|);
      lastAvail := (lastAvail + 1) % WRAP;
      gets := gets + [head];
      if head >= num {
        return HeadPanic;
      }
      var w, readLen, writeLen := WalkChain(m.table, head, readRoom, writeRoom);
      return Got(head, w, readLen, writeLen);
    }

    /** Puts a chain on the used ring, in the slot that the index in guest memory names;
        the index that is written back is the one found then. */
    method AddBuf(head: nat, len: nat, m: Memory) returns (ok: bool)
      requires Valid() && Fitting(m, num)
      modifies this`used, this`usedIdx, this`puts
      ensures Valid()
      ensures ok <==> connected && head < num
      ensures puts == if ok then old(puts) + [UsedElem(head, len)] else old(puts)
      ensures used == if ok then old(used)[m.usedIdx % num := UsedElem(head, len)] else old(used)
      ensures usedIdx == if ok then (m.usedAgain + 1) % WRAP else old(usedIdx)
    {
      ok := connected && head < num;
      if ok {
        used := used[m.usedIdx % num := UsedElem(head, len)];
        usedIdx := (m.usedAgain + 1) % WRAP;
        puts := puts + [UsedElem(head, len)];
      }
    }
  }
}
