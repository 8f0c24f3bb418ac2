/** What the configuration of the virtual network card is after any sequence of guest
    writes, told from the writes alone: every field is the value of the latest
    write that concerns it. */
module VirtioHistory {
  import opened Virtqueue
  import opened VirtioConfig

  /** The writes since set-up; `wanted` is the ring size requested at set-up. */
  datatype History = History(wanted: nat, ws: seq<Write>)

  /** What a write can be. Some events depend on the queue or feature word selected when it comes. */
  datatype Event =
    | SetsStatus
    | Resets
    | SelectsQueue
    | SelectsWord
    | Asks(word: nat)
    | Negotiates
    | Requests(queue: nat)
    | Resizes(queue: nat)
    | Enables(queue: nat)
    | Connects(queue: nat)

  predicate Hits(w: Write, offset: nat) { w.size == 4 && w.offset == offset }

  function LowByte(v: nat): set<nat> { set b: nat | b < 8 && Bit(v, b) }

  /** Write `i` is such an event. */
  ghost predicate Is(h: History, e: Event, i: nat)
    requires i < |h.ws|
    decreases i, 3
  {
    var w := h.ws[i];
    match e
    case SetsStatus => Hits(w, 0x70)
    case Resets => Hits(w, 0x70) && LowByte(w.value) == {}
    case SelectsQueue => Hits(w, 0x30) && w.value < 2
    case SelectsWord => Hits(w, 0x24)
    case Asks(word) => Hits(w, 0x20) && Word(h, i) == word
    case Negotiates => Hits(w, 0x70) && Bit(w.value, 3) && 3 !in Status(h, i)
    case Requests(q) => Hits(w, 0x38) && Selected(h, i) == q
    case Resizes(q) =>
      && Selected(h, i) == q && (Hits(w, 0x38) || (Hits(w, 0x44) && w.value != 0))
      && 1 <= SizeFor(h, q, i) <= 256
    case Enables(q) => Hits(w, 0x44) && Selected(h, i) == q
    case Connects(q) => Hits(w, 0x44) && Selected(h, i) == q && w.value != 0 && !w.mapping.Unmapped?
  }

  /** The last of the first `n` writes that is such an event, or -1. */
  ghost function Latest(h: History, e: Event, n: nat): (i: int)
    requires n <= |h.ws|
    ensures -1 <= i < n
    decreases n, 0
  {
    if n == 0 then -1 else if Is(h, e, n - 1) then n - 1 else Latest(h, e, n - 1)
  }

  // -------------------------------- what the first `n` writes have made of each field

  ghost function Status(h: History, n: nat): set<nat>
    requires n <= |h.ws|
    decreases n, 1
  {
    var i := Latest(h, SetsStatus, n);
    if i >= 0 then LowByte(h.ws[i].value) else {}
  }

  ghost function Word(h: History, n: nat): nat
    requires n <= |h.ws|
    decreases n, 1
  {
    var i := Latest(h, SelectsWord, n);
    if i >= 0 && h.ws[i].value != 0 then 1 else 0
  }

  ghost function Asked(h: History, word: nat, n: nat): nat
    requires n <= |h.ws|
    decreases n, 1
  {
    var i := Latest(h, Asks(word), n);
    if i >= 0 then h.ws[i].value else 0
  }

  /** The offered features that were asked for when the driver last negotiated. */
  ghost function Features(h: History, n: nat): set<nat>
    requires n <= |h.ws|
    decreases n, 2
  {
    var i := Latest(h, Negotiates, n);
    if i <= Latest(h, Resets, n) then {}
    else set b | b in {3, 5, 16, 32} && BitOf(Asked(h, 0, i), Asked(h, 1, i), b)
  }

  ghost function Selected(h: History, n: nat): nat
    requires n <= |h.ws|
    decreases n, 1
  {
    var i := Latest(h, SelectsQueue, n);
    if i > Latest(h, Resets, n) then h.ws[i].value else 0
  }

  /** The size last requested for a queue; a reset does not forget it. */
  ghost function Requested(h: History, q: nat, n: nat): nat
    requires n <= |h.ws|
    decreases n, 1
  {
    var i := Latest(h, Requests(q), n);
    if i >= 0 then h.ws[i].value % 0x1_0000 else h.wanted
  }

  /** The size that write `i` would give the queue. */
  ghost function SizeFor(h: History, q: nat, i: nat): int
    requires i < |h.ws|
    decreases i, 2
  {
    if h.ws[i].offset == 0x38 then Signed(h.ws[i].value) else Requested(h, q, i)
  }

  ghost function Num(h: History, q: nat, n: nat): int
    requires n <= |h.ws|
    decreases n, 3
  {
    var i := Latest(h, Resizes(q), n);
    if i > Latest(h, Resets, n) then SizeFor(h, q, i) else 256
  }

  ghost predicate Enabled(h: History, q: nat, n: nat)
    requires n <= |h.ws|
  {
    var i := Latest(h, Enables(q), n);
    i > Latest(h, Resets, n) && h.ws[i].value != 0
  }

  ghost predicate Connected(h: History, q: nat, n: nat)
    requires n <= |h.ws|
  {
    var i := Latest(h, Connects(q), n);
    i > Latest(h, Resets, n) && h.ws[i].mapping.Mapped?
  }

  /** The size that the rings had when the last attempt to map them was over. */
  ghost function Laid(h: History, q: nat, n: nat): int
    requires n <= |h.ws|
  {
    var i := Latest(h, Connects(q), n);
    if i > Latest(h, Resets, n) then Num(h, q, i + 1) else 0
  }

  ghost predicate QueueIs(h: History, q: nat, n: nat, v: Queue)
    requires n <= |h.ws|
  {
    && v.num == Num(h, q, n) && v.wanted == Requested(h, q, n)
    && v.enabled == Enabled(h, q, n) && v.connected == Connected(h, q, n) && v.laid == Laid(h, q, n)
  }

  ghost predicate RegistersAre(h: History, n: nat, c: Conf)
    requires n <= |h.ws|
  {
    && c.status == Status(h, n) && c.isr == {} && c.started == (2 in Status(h, n)) && c.features == Features(h, n)
    && c.guestSel == Word(h, n) && c.guestLow == Asked(h, 0, n) && c.guestHigh == Asked(h, 1, n)
    && c.queueSel == Selected(h, n)
  }

  /** The configuration is what the first `n` writes say. */
  ghost predicate Recorded(h: History, n: nat, c: Conf)
    requires n <= |h.ws|
  {
    RegistersAre(h, n, c) && |c.queues| == 2 && QueueIs(h, 0, n, c.queues[0]) && QueueIs(h, 1, n, c.queues[1])
  }

  // ------------------------------------------------------------------- one write

  lemma LowByteIs(v: nat)
    ensures LowByte(v) == set i | i in Bits(v) && i < 8
  {
  }

  /** The latest event is one, and none came after it. */
  lemma {:induction false} LatestIs(h: History, e: Event, n: nat)
    requires n <= |h.ws|
    ensures var i := Latest(h, e, n);
            (i >= 0 ==> Is(h, e, i)) && forall k :: i < k < n && 0 <= k ==> !Is(h, e, k)
    decreases n
  {
    if n > 0 && !Is(h, e, n - 1) {
      LatestIs(h, e, n - 1);
    }
  }

  lemma NextLatest(h: History, e: Event, n: nat)
    requires n < |h.ws|
    ensures Latest(h, e, n + 1) == if Is(h, e, n) then n else Latest(h, e, n)
  {
  }

  /** An event since the last reset, after one more write. */
  lemma NextSince(h: History, e: Event, n: nat)
    requires n < |h.ws|
    ensures Latest(h, e, n + 1) > Latest(h, Resets, n + 1) <==>
            if Is(h, e, n) then !Is(h, Resets, n)
            else !Is(h, Resets, n) && Latest(h, e, n) > Latest(h, Resets, n)
    ensures Latest(h, e, n + 1) == if Is(h, e, n) then n else Latest(h, e, n)
  {
    NextLatest(h, e, n);
    NextLatest(h, Resets, n);
  }

  lemma StatusNext(h: History, n: nat)
    requires n < |h.ws|
    ensures Status(h, n + 1) == if Hits(h.ws[n], 0x70) then LowByte(h.ws[n].value) else Status(h, n)
  {
    NextLatest(h, SetsStatus, n);
  }

  lemma WordNext(h: History, n: nat)
    requires n < |h.ws|
    ensures Word(h, n + 1) == if !Hits(h.ws[n], 0x24) then Word(h, n) else if h.ws[n].value != 0 then 1 else 0
  {
    NextLatest(h, SelectsWord, n);
  }

  lemma AskedNext(h: History, word: nat, n: nat)
    requires n < |h.ws|
    ensures Asked(h, word, n + 1) ==
            if Hits(h.ws[n], 0x20) && Word(h, n) == word then h.ws[n].value else Asked(h, word, n)
  {
    NextLatest(h, Asks(word), n);
  }

  lemma SelectedNext(h: History, n: nat)
    requires n < |h.ws|
    ensures Selected(h, n + 1) ==
            if Is(h, Resets, n) then 0
            else if Hits(h.ws[n], 0x30) && h.ws[n].value < 2 then h.ws[n].value
            else Selected(h, n)
  {
    NextSince(h, SelectsQueue, n);
  }

  lemma FeaturesNext(h: History, n: nat)
    requires n < |h.ws|
    ensures Features(h, n + 1) ==
            if Is(h, Resets, n) then {}
            else if Is(h, Negotiates, n) then set b | b in {3, 5, 16, 32} && BitOf(Asked(h, 0, n), Asked(h, 1, n), b)
            else Features(h, n)
  {
    NextSince(h, Negotiates, n);
  }

  /** A status write, as the history has it. */
  lemma StatusWrite(h: History, n: nat, c: Conf)
    requires n < |h.ws| && RegistersAre(h, n, c) && Shaped(c) && Hits(h.ws[n], 0x70)
    ensures var out := SetStatus(c, h.ws[n].value);
            && (out.Panic? <==> Is(h, Negotiates, n) && !Bit(Asked(h, 0, n), 5))
            && (out.Go? ==>
                  && out.conf.status == LowByte(h.ws[n].value)
                  && out.conf.started == (2 in LowByte(h.ws[n].value))
                  && out.conf.features ==
                     (if Is(h, Negotiates, n) then
                        set b | b in {3, 5, 16, 32} && BitOf(Asked(h, 0, n), Asked(h, 1, n), b)
                      else c.features)
                  && out.conf == c.(status := out.conf.status, started := out.conf.started,
                                 features := out.conf.features))
  {
    var v := h.ws[n].value;
    LowByteIs(v);
    assert FEATURES_OK in Bits(v) <==> Bit(v, 3);
    assert F_MAC in Wanted(c) <==> BitOf(c.guestLow, c.guestHigh, F_MAC);
    WantedOffered(c);
  }

  lemma WantedOffered(c: Conf)
    ensures Wanted(c) * OFFERED == set b | b in {3, 5, 16, 32} && BitOf(c.guestLow, c.guestHigh, b)
  {
  }

  /** Writes to other registers leave the status and the features alone. */
  lemma StatusStays(h: History, n: nat)
    requires n < |h.ws| && !Hits(h.ws[n], 0x70)
    ensures Status(h, n + 1) == Status(h, n) && Features(h, n + 1) == Features(h, n)
    ensures Selected(h, n + 1) ==
            if Hits(h.ws[n], 0x30) && h.ws[n].value < 2 then h.ws[n].value else Selected(h, n)
  {
    StatusNext(h, n);
    FeaturesNext(h, n);
    SelectedNext(h, n);
  }

  /** A write to another register than the status. */
  ghost predicate Plain(c: Conf, w: Write, t: Conf) {
    && t.status == c.status && t.started == c.started && t.features == c.features && t.isr <= c.isr
    && t.guestSel == (if !Hits(w, 0x24) then c.guestSel else if w.value != 0 then 1 else 0)
    && t.guestLow == (if Hits(w, 0x20) && c.guestSel == 0 then w.value else c.guestLow)
    && t.guestHigh == (if Hits(w, 0x20) && c.guestSel != 0 then w.value else c.guestHigh)
    && t.queueSel == (if Hits(w, 0x30) && w.value < 2 then w.value else c.queueSel)
  }

  lemma WriteIsPlain(c: Conf, w: Write)
    requires Shaped(c) && After(c, w).Go? && !Hits(w, 0x70)
    ensures Plain(c, w, After(c, w).conf)
  {
  }

  lemma PlainNext(h: History, n: nat, c: Conf, t: Conf)
    requires n < |h.ws| && RegistersAre(h, n, c) && Plain(c, h.ws[n], t) && !Hits(h.ws[n], 0x70)
    ensures RegistersAre(h, n + 1, t)
  {
    StatusStays(h, n);
    WordNext(h, n);
    AskedNext(h, 0, n);
    AskedNext(h, 1, n);
  }

  lemma StatusWritten(h: History, n: nat, c: Conf)
    requires n < |h.ws| && RegistersAre(h, n, c) && Shaped(c) && After(c, h.ws[n]).Go? && Hits(h.ws[n], 0x70)
    ensures RegistersAre(h, n + 1, After(c, h.ws[n]).conf)
  {
    StatusNext(h, n);
    WordNext(h, n);
    AskedNext(h, 0, n);
    AskedNext(h, 1, n);
    SelectedNext(h, n);
    FeaturesNext(h, n);
    StatusWrite(h, n, c);
  }

  lemma RegistersNext(h: History, n: nat, c: Conf)
    requires n < |h.ws| && RegistersAre(h, n, c) && Shaped(c) && After(c, h.ws[n]).Go?
    ensures RegistersAre(h, n + 1, After(c, h.ws[n]).conf)
  {
    if Hits(h.ws[n], 0x70) {
      StatusWritten(h, n, c);
    } else {
      WriteIsPlain(c, h.ws[n]);
      PlainNext(h, n, c, After(c, h.ws[n]).conf);
    }
  }

  // ---------------------------------------------------------------------- queues

  lemma RequestedNext(h: History, q: nat, n: nat)
    requires n < |h.ws|
    ensures Requested(h, q, n + 1) ==
            if Hits(h.ws[n], 0x38) && Selected(h, n) == q then h.ws[n].value % 0x1_0000 else Requested(h, q, n)
  {
    NextLatest(h, Requests(q), n);
  }

  lemma NumNext(h: History, q: nat, n: nat)
    requires n < |h.ws|
    ensures Num(h, q, n + 1) ==
            if Is(h, Resets, n) then 256 else if Is(h, Resizes(q), n) then SizeFor(h, q, n) else Num(h, q, n)
  {
    NextSince(h, Resizes(q), n);
  }

  lemma EnabledNext(h: History, q: nat, n: nat)
    requires n < |h.ws|
    ensures Enabled(h, q, n + 1) <==>
            if Is(h, Resets, n) then false
            else if Hits(h.ws[n], 0x44) && Selected(h, n) == q then h.ws[n].value != 0
            else Enabled(h, q, n)
  {
    NextSince(h, Enables(q), n);
  }

  lemma ConnectedNext(h: History, q: nat, n: nat)
    requires n < |h.ws|
    ensures Connected(h, q, n + 1) <==>
            if Is(h, Resets, n) then false
            else if Is(h, Connects(q), n) then h.ws[n].mapping.Mapped?
            else Connected(h, q, n)
    ensures Laid(h, q, n + 1) ==
            if Is(h, Resets, n) then 0 else if Is(h, Connects(q), n) then Num(h, q, n + 1) else Laid(h, q, n)
  {
    NextSince(h, Connects(q), n);
  }

  /** What a write makes of queue `q`, in terms of the registers it hits. */
  ghost predicate QueueMoved(c: Conf, w: Write, q: nat, v: Queue, t: Queue) {
    var here := c.queueSel == q;
    var size := if w.offset == 0x38 then Signed(w.value) else v.wanted;
    var sized := here && (Hits(w, 0x38) || (Hits(w, 0x44) && w.value != 0)) && 1 <= size <= 256;
    var mapped := here && Hits(w, 0x44) && w.value != 0 && !w.mapping.Unmapped?;
    && t.num == (if sized then size else v.num)
    && t.wanted == (if here && Hits(w, 0x38) then w.value % 0x1_0000 else v.wanted)
    && t.enabled == (if here && Hits(w, 0x44) then w.value != 0 else v.enabled)
    && t.connected == (if mapped then w.mapping.Mapped? else v.connected)
    && t.laid == (if mapped then t.num else v.laid)
  }

  lemma QueueMoves(c: Conf, w: Write, q: nat)
    requires WellFormed(c) && q < 2 && After(c, w).Go? && !Hits(w, 0x70)
    ensures Shaped(After(c, w).conf) && QueueMoved(c, w, q, c.queues[q], After(c, w).conf.queues[q])
  {
  }

  lemma QueueNext(h: History, q: nat, n: nat, c: Conf, v: Queue, t: Queue)
    requires n < |h.ws| && !Hits(h.ws[n], 0x70)
    requires c.queueSel == Selected(h, n) && QueueIs(h, q, n, v) && QueueMoved(c, h.ws[n], q, v, t)
    ensures QueueIs(h, q, n + 1, t)
  {
    RequestedNext(h, q, n);
    NumNext(h, q, n);
    EnabledNext(h, q, n);
    ConnectedNext(h, q, n);
  }

  lemma QueueOnStatus(h: History, q: nat, n: nat, v: Queue)
    requires n < |h.ws| && Hits(h.ws[n], 0x70) && QueueIs(h, q, n, v)
    ensures QueueIs(h, q, n + 1, if LowByte(h.ws[n].value) == {} then Queue(256, false, 0, v.wanted, false) else v)
  {
    RequestedNext(h, q, n);
    NumNext(h, q, n);
    EnabledNext(h, q, n);
    ConnectedNext(h, q, n);
  }

  lemma QueuesNext(h: History, n: nat, c: Conf)
    requires n < |h.ws| && WellFormed(c) && Recorded(h, n, c) && After(c, h.ws[n]).Go?
    ensures var t := After(c, h.ws[n]).conf;
            |t.queues| == 2 && QueueIs(h, 0, n + 1, t.queues[0]) && QueueIs(h, 1, n + 1, t.queues[1])
  {
    var w, t := h.ws[n], After(c, h.ws[n]).conf;
    if Hits(w, 0x70) {
      QueueOnStatus(h, 0, n, c.queues[0]);
      QueueOnStatus(h, 1, n, c.queues[1]);
      LowByteIs(w.value);
    } else {
      QueueMoves(c, w, 0);
      QueueMoves(c, w, 1);
      QueueNext(h, 0, n, c, c.queues[0], t.queues[0]);
      QueueNext(h, 1, n, c, c.queues[1], t.queues[1]);
    }
  }

  lemma {:induction false} HistoryFrom(h: History, n: nat, c: Conf)
    requires n <= |h.ws| && WellFormed(c) && Recorded(h, n, c) && Run(c, h.ws[n..]).Go?
    ensures Recorded(h, |h.ws|, Run(c, h.ws[n..]).conf)
    decreases |h.ws| - n
  {
    if n < |h.ws| {
      assert h.ws[n..][1..] == h.ws[n + 1..];
      WriteKeepsWellFormed(c, h.ws[n]);
      RegistersNext(h, n, c);
      QueuesNext(h, n, c);
      HistoryFrom(h, n + 1, After(c, h.ws[n]).conf);
    }
  }

  lemma InitiallyRecorded(h: History)
    ensures Recorded(h, 0, Initial(h.wanted))
  {
  }

  /** The configuration is what the guest wrote: after any writes since set-up that do not
      panic, the status is the last one written; the selected queue is the last one
      selected since the last reset; the features are the offered ones among those
      asked for at the last negotiation; and the size, the request, the
      readiness and the mapping of each ring come from the last such write that
      was made while that queue was selected. */
  lemma ConfigurationIsWritten(h: History)
    requires Run(Initial(h.wanted), h.ws).Go?
    ensures Recorded(h, |h.ws|, Run(Initial(h.wanted), h.ws).conf)
  {
    InitiallyRecorded(h);
    assert h.ws[0..] == h.ws;
    HistoryFrom(h, 0, Initial(h.wanted));
  }

  /** The next write panics exactly if it negotiates without the MAC feature having been
      asked for, or accesses the configuration bytes with an odd size. */
  lemma WritePanicsIff(h: History, w: Write)
    requires Run(Initial(h.wanted), h.ws).Go?
    ensures var c := Run(Initial(h.wanted), h.ws).conf;
            var n := |h.ws|;
            Shaped(c) &&
            (After(c, w).Panic? <==>
             || (Hits(w, 0x70) && Bit(w.value, 3) && 3 !in Status(h, n) && !Bit(Asked(h, 0, n), 5))
             || (w.offset >= 0x100 && w.offset + w.size <= 0x10c && w.size != 1 && w.size != 2 && w.size != 4))
  {
    ConfigurationIsWritten(h);
    ConfigurationStaysWellFormed(h.wanted, h.ws);
    if Hits(w, 0x70) {
      var c := Run(Initial(h.wanted), h.ws).conf;
      assert FEATURES_OK in Bits(w.value) <==> Bit(w.value, 3);
      assert F_MAC in Wanted(c) <==> BitOf(c.guestLow, c.guestHigh, F_MAC);
    }
  }

  /** A reset is among the writes. */
  ghost predicate AnyReset(ws: seq<Write>) {
    exists i :: 0 <= i < |ws| && Hits(ws[i], 0x70) && LowByte(ws[i].value) == {}
  }

  /** Some write acknowledges the interrupt. */
  ghost predicate Acknowledged(ws: seq<Write>, b: nat) {
    exists i :: 0 <= i < |ws| && Hits(ws[i], 0x64) && b < 32 && Bit(ws[i].value, b)
  }

  /** An interrupt stays pending exactly until the guest acknowledges it or resets the device. */
  lemma {:induction false} PendingIff(c: Conf, ws: seq<Write>, b: nat)
    requires WellFormed(c) && Run(c, ws).Go?
    ensures b in Run(c, ws).conf.isr <==> b in c.isr && !Acknowledged(ws, b) && !AnyReset(ws)
    decreases |ws|
  {
    if ws != [] {
      var w, t := ws[0], After(c, ws[0]).conf;
      WriteKeepsWellFormed(c, w);
      PendingAfter(c, w, b);
      PendingIff(t, ws[1..], b);
      assert ws == [w] + ws[1..];
      assert Acknowledged(ws, b) <==> (Hits(w, 0x64) && b < 32 && Bit(w.value, b)) || Acknowledged(ws[1..], b);
      assert AnyReset(ws) <==> (Hits(w, 0x70) && LowByte(w.value) == {}) || AnyReset(ws[1..]);
    }
  }

  lemma PendingAfter(c: Conf, w: Write, b: nat)
    requires Shaped(c) && After(c, w).Go?
    ensures b in After(c, w).conf.isr <==>
            b in c.isr && !(Hits(w, 0x64) && b < 32 && Bit(w.value, b)) && !(Hits(w, 0x70) && LowByte(w.value) == {})
  {
    LowByteIs(w.value);
  }
}
