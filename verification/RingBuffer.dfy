/** The 2048-byte ring buffer between the TLS layer and the socket proxy: two
    indices and a flag that is set only by a put that wants more than fits. */
module RingBuffer {
  import opened Arith
  import opened Cyclic

  type byte = bv8

  const SIZE: nat := 2048

  ghost function Sent(contents: seq<byte>, src: seq<byte>): nat
    requires |contents| <= SIZE
  {
    Min(|src|, SIZE - |contents|)
  }

  /** What a put leaves waiting: the old bytes and what fits of the new ones,
      but nothing at all after a put of exactly the remaining space. */
  ghost function AfterPut(contents: seq<byte>, src: seq<byte>): seq<byte>
    requires |contents| <= SIZE
  {
    if |src| == SIZE - |contents| then [] else contents + src[..Sent(contents, src)]
  }

  class SwBuffer {
    const buffer: array<byte>
    var head: nat
    var tail: nat
    var full: bool

    ghost predicate Valid()
      reads this
    {
      buffer.Length == SIZE && head < SIZE && tail < SIZE && (full ==> head == tail)
    }

    /** The bytes waiting to be read, oldest first. */
    ghost function Contents(): seq<byte>
      requires Valid()
      reads this, buffer
    {
      Window(buffer[..], head, DataLeft())
    }

    constructor ()
      ensures Valid() && fresh(buffer) && Contents() == []
    {
      buffer := new byte[SIZE];
      head, tail, full := 0, 0, false;
    }

    function SpaceLeft(): (space: nat)
      requires Valid()
      reads this
      ensures space + DataLeft() == SIZE
    {
      if head == tail then (if full then 0 else SIZE)
      else if tail < head then head - tail
      else SIZE - tail + head
    }

    function DataLeft(): (data: nat)
      requires Valid()
      reads this
      ensures data <= SIZE
    {
      if head == tail then (if full then SIZE else 0)
      else if head < tail then tail - head
      else SIZE - head + tail
    }

    method Move(at: nat, data: seq<byte>)
      requires buffer.Length == SIZE && at + |data| <= SIZE
      modifies buffer
      ensures buffer[..] == old(buffer[..])[..at] + data + old(buffer[..])[at + |data|..]
    {
      forall k | 0 <= k < |data| {
        buffer[at + k] := data[k];
      }
    }

    /** Copies `data` in at the tail, in two parts where it passes the end. */
    method CopyIn(data: seq<byte>)
      requires Valid() && |data| <= SpaceLeft()
      modifies buffer
      ensures buffer[..] == Written(old(buffer[..]), tail, data)
    {
      if tail < head || |data| <= SIZE - tail {
        Move(tail, data);
      } else {
        var tillEnd := SIZE - tail;
        Move(tail, data[..tillEnd]);
        Move(0, data[tillEnd..]);
      }
      assert buffer[..] == Written(old(buffer[..]), tail, data);
    }

    /** Appends what fits of `src`; aborts on a full buffer. A put of exactly the
        remaining space leaves the buffer looking empty. */
    method Put(src: seq<byte>) returns (aborted: bool, sent: nat)
      requires Valid()
      modifies this, buffer
      ensures Valid()
      ensures aborted <==> old(|Contents()|) == SIZE
      ensures aborted ==> Contents() == old(Contents())
      ensures !aborted ==> sent == Sent(old(Contents()), src) && Contents() == AfterPut(old(Contents()), src)
    {
      if full {
        return true, 0;
      }
      aborted := false;
      var space := SpaceLeft();
      sent := |src|;
      if |src| > space {
        sent := space;
      }
      WindowGrows(buffer[..], head, DataLeft(), src[..sent]);
      CopyIn(src[..sent]);
      if |src| > space {
        full := true;
      }
      tail := (tail + sent) % SIZE;
    }

    /** Removes up to `len` bytes from the front; aborts on an empty buffer. */
    method Get(len: nat) returns (aborted: bool, data: seq<byte>)
      requires Valid()
      modifies this
      ensures Valid()
      ensures aborted <==> old(Contents()) == []
      ensures aborted ==> Contents() == old(Contents())
      ensures !aborted ==>
                var n := Min(len, old(|Contents()|));
                data == old(Contents())[..n] && Contents() == old(Contents())[n..]
    {
      if head == tail && !full {
        return true, [];
      }
      aborted := false;
      var n := Min(len, DataLeft());
      WindowSplits(buffer[..], head, DataLeft(), n);
      WindowPieces(buffer[..], head, n);
      if head < tail || n <= SIZE - head {
        data := buffer[head..head + n];
      } else {
        var tillEnd := SIZE - head;
        data := buffer[head..] + buffer[..n - tillEnd];
      }
      if n > 0 {
        full := false;
      }
      head := (head + n) % SIZE;
    }
  }

  // -------------------------------------------------------------- whole runs

  datatype Op = PutOp(src: seq<byte>) | GetOp(len: nat)

  /** A buffer with the bytes put and got so far. */
  datatype Channel = Channel(contents: seq<byte>, accepted: seq<byte>, delivered: seq<byte>)

  datatype Outcome = Aborted | Go(channel: Channel)

  const EMPTY := Channel([], [], [])

  ghost function Step(c: Channel, op: Op): Outcome
    requires |c.contents| <= SIZE
  {
    match op
    case PutOp(src) =>
      if |c.contents| == SIZE then Aborted
      else Go(Channel(AfterPut(c.contents, src), c.accepted + src[..Sent(c.contents, src)], c.delivered))
    case GetOp(len) =>
      if c.contents == [] then Aborted
      else
        var n := Min(len, |c.contents|);
        Go(Channel(c.contents[n..], c.accepted, c.delivered + c.contents[..n]))
  }

  ghost function Run(c: Channel, ops: seq<Op>): (out: Outcome)
    requires |c.contents| <= SIZE
    ensures out.Go? ==> |out.channel.contents| <= SIZE
    decreases |ops|
  {
    if ops == [] then Go(c)
    else
      var out := Step(c, ops[0]);
      if out.Go? then Run(out.channel, ops[1..]) else out
  }

  /** Some put of the run asks for exactly the space that is left. */
  ghost predicate FillsExactly(c: Channel, ops: seq<Op>)
    requires |c.contents| <= SIZE
    decreases |ops|
  {
    && ops != []
    && Step(c, ops[0]).Go?
    && ((ops[0].PutOp? && |ops[0].src| == SIZE - |c.contents|) || FillsExactly(Step(c, ops[0]).channel, ops[1..]))
  }

  ghost predicate Intact(c: Channel) {
    c.accepted == c.delivered + c.contents
  }

  lemma StepKeepsIntact(c: Channel, op: Op)
    requires |c.contents| <= SIZE && Intact(c) && Step(c, op).Go?
    requires op.PutOp? ==> |op.src| != SIZE - |c.contents|
    ensures Intact(Step(c, op).channel)
  {
  }

  lemma {:induction false} RunKeepsIntact(c: Channel, ops: seq<Op>)
    requires |c.contents| <= SIZE && Intact(c) && Run(c, ops).Go? && !FillsExactly(c, ops)
    ensures Intact(Run(c, ops).channel)
    decreases |ops|
  {
    if ops != [] {
      StepKeepsIntact(c, ops[0]);
      RunKeepsIntact(Step(c, ops[0]).channel, ops[1..]);
    }
  }

  /** Bytes that were accepted and are neither delivered nor waiting. */
  ghost function Lost(c: Channel): int {
    |c.accepted| - |c.delivered| - |c.contents|
  }

  lemma {:induction false} LossesAdd(c: Channel, ops: seq<Op>)
    requires |c.contents| <= SIZE && Run(c, ops).Go?
    ensures Lost(Run(c, ops).channel) >= Lost(c) + if FillsExactly(c, ops) then SIZE else 0
    decreases |ops|
  {
    if ops != [] {
      var c' := Step(c, ops[0]).channel;
      assert Lost(c') >= Lost(c) + if ops[0].PutOp? && |ops[0].src| == SIZE - |c.contents| then SIZE else 0;
      LossesAdd(c', ops[1..]);
    }
  }

  /** Over any run that does not abort, what was put is what was got followed by
      what still waits, in order, exactly when no put asked for exactly the space
      that was left. */
  lemma OrderIffNoExactFill(ops: seq<Op>)
    requires Run(EMPTY, ops).Go?
    ensures Intact(Run(EMPTY, ops).channel) <==> !FillsExactly(EMPTY, ops)
  {
    if FillsExactly(EMPTY, ops) {
      LossesAdd(EMPTY, ops);
    } else {
      RunKeepsIntact(EMPTY, ops);
    }
  }

  /** Filling an empty buffer exactly makes it look as it was before. */
  lemma ExactFillVanishes(src: seq<byte>)
    requires |src| == SIZE
    ensures Step(EMPTY, PutOp(src)) == Go(Channel([], src, []))
  {
    assert src[..SIZE] == src;
  }
}
