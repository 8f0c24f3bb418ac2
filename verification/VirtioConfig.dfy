/** The configuration registers of the virtual network card (section 4.2.2 of
    Virtio 1.0): what a sequence of guest writes can make of the negotiated
    features, the device status and the ring sizes. `After` is the specification,
    `VnicMmio` the handler. */
module VirtioConfig {
  import opened Virtqueue

  const DRIVER_FEATURES := 0x020
  const DRIVER_FEATURES_SEL := 0x024
  const QUEUE_SEL := 0x030
  const QUEUE_NUM := 0x038
  const QUEUE_READY := 0x044
  const INTERRUPT_ACK := 0x064
  const STATUS := 0x070
  const CONFIG := 0x100

  const CONFIG_LEN := 12
  const QUEUES := 2
  const MAX_SIZE := 256

  // Bit positions.
  const DRIVER_OK := 2
  const FEATURES_OK := 3
  const F_MTU := 3
  const F_MAC := 5
  const F_STATUS := 16
  const F_VERSION_1 := 32

  /** The offered features. */
  const OFFERED: set<nat> := {F_VERSION_1, F_MTU, F_MAC, F_STATUS}

  function Bit(v: nat, i: nat): bool {
    if i == 0 then v % 2 == 1 else Bit(v / 2, i - 1)
  }

  /** The one bits of a 32-bit value. */
  function Bits(v: nat): set<nat> {
    set i: nat | i < 32 && Bit(v, i)
  }

  /** A bit of a 64-bit value given in two halves. */
  function BitOf(low: nat, high: nat, i: nat): bool {
    if i < 32 then Bit(low, i) else Bit(high, i - 32)
  }

  /** A 32-bit value read as a signed integer. */
  function Signed(v: nat): int {
    if v < 0x8000_0000 then v else v - 0x1_0000_0000
  }

  datatype Write = Write(offset: nat, size: nat, value: nat, mapping: Mapping)

  /** `laid`: the size the connected rings were laid out and mapped for. */
  datatype Queue = Queue(num: nat, connected: bool, laid: nat, wanted: nat, enabled: bool)

  datatype Conf = Conf(
    status: set<nat>, isr: set<nat>, started: bool, features: set<nat>,
    guestSel: nat, guestLow: nat, guestHigh: nat,
    queueSel: nat, queues: seq<Queue>)

  datatype Outcome = Panic | Go(conf: Conf)

  function Registered(wanted: nat): Queue {
    Queue(MAX_SIZE, false, 0, wanted, false)
  }

  function Initial(wanted: nat): Conf {
    Conf({}, {}, false, {}, 0, 0, 0, 0, [Registered(wanted), Registered(wanted)])
  }

  /** A queue neither appears nor vanishes, and keeps its size on a bad request. */
  function SetNum(q: Queue, num: int): Queue {
    if (num != 0) != (q.num != 0) || num > MAX_SIZE || num < 0 then q else q.(num := num)
  }

  function SetRings(q: Queue, mapping: Mapping): Queue {
    if q.num == 0 || mapping.Unmapped? then q else q.(connected := mapping.Mapped?, laid := q.num)
  }

  function ResetQueue(q: Queue): Queue {
    q.(connected := false, laid := 0, num := MAX_SIZE, enabled := false)
  }

  /** The features the driver has written so far. */
  function Wanted(c: Conf): set<nat> {
    set i: nat | i < 64 && BitOf(c.guestLow, c.guestHigh, i)
  }

  /** What a status write does before it may reset: negotiate, then take over the
      low byte. The version check tests the mask 32, which is the bit of the MAC
      feature. */
  function SetStatus(c: Conf, v: nat): Outcome {
    var bits := Bits(v);
    var status := set i | i in bits && i < 8;
    var negotiates := FEATURES_OK in bits && FEATURES_OK !in c.status;
    if negotiates && F_MAC !in Wanted(c) * OFFERED then Panic
    else
      Go(c.(features := if negotiates then Wanted(c) * OFFERED else c.features,
         started := if (DRIVER_OK in c.status) != (DRIVER_OK in status) then DRIVER_OK in status else c.started,
         status := status))
  }

  function Reset(c: Conf): Conf
    requires Shaped(c)
  {
    c.(status := {}, isr := {}, started := false, features := {}, queueSel := 0,
    queues := [ResetQueue(c.queues[0]), ResetQueue(c.queues[1])])
  }

  function After(c: Conf, w: Write): Outcome
    requires Shaped(c)
  {
    if w.offset >= CONFIG then
      if w.offset - CONFIG + w.size <= CONFIG_LEN && w.size !in {1, 2, 4} then Panic else Go(c)
    else if w.size != 4 then Go(c)
    else if w.offset == DRIVER_FEATURES then
      if c.guestSel == 0 then Go(c.(guestLow := w.value)) else Go(c.(guestHigh := w.value))
    else if w.offset == DRIVER_FEATURES_SEL then Go(c.(guestSel := if w.value != 0 then 1 else 0))
    else if w.offset == QUEUE_SEL then if w.value < QUEUES then Go(c.(queueSel := w.value)) else Go(c)
    else if w.offset == QUEUE_NUM then
      var q := SetNum(c.queues[c.queueSel], Signed(w.value));
      Go(c.(queues := c.queues[c.queueSel := q.(wanted := w.value % 0x1_0000)]))
    else if w.offset == QUEUE_READY then
      var q := c.queues[c.queueSel];
      if w.value == 0 then Go(c.(queues := c.queues[c.queueSel := q.(enabled := false)]))
      else Go(c.(queues := c.queues[c.queueSel := SetRings(SetNum(q, q.wanted), w.mapping).(enabled := true)]))
    else if w.offset == INTERRUPT_ACK then Go(c.(isr := c.isr - Bits(w.value)))
    else if w.offset == STATUS then
      var out := SetStatus(c, w.value);
      if out.Go? && out.conf.status == {} then Go(Reset(out.conf)) else out
    else Go(c)
  }

  // -------------------------------------------------------------- the handler

  class VnicMmio {
    var status: set<nat>
    var isr: set<nat>
    var started: bool
    var features: set<nat>
    var guestSel: nat
    var guestLow: nat
    var guestHigh: nat
    var queueSel: nat
    var queues: seq<Queue>

    ghost function View(): Conf
      reads this
    {
      Conf(status, isr, started, features, guestSel, guestLow, guestHigh, queueSel, queues)
    }

    constructor (wanted: nat)
      ensures View() == Initial(wanted)
    {
      status, isr, started, features := {}, {}, false, {};
      guestSel, guestLow, guestHigh, queueSel := 0, 0, 0, 0;
      queues := [Registered(wanted), Registered(wanted)];
    }

    /** Negotiates unless negotiation is over. */
    method SetFeatures(wanted: set<nat>) returns (panic: bool)
      modifies this`features
      ensures panic <==> FEATURES_OK !in status && F_MAC !in wanted * OFFERED
      ensures !panic ==> features == if FEATURES_OK in status then old(features) else wanted * OFFERED
    {
      panic := false;
      if FEATURES_OK !in status {
        features := wanted * OFFERED;
        panic := F_MAC !in features;
      }
    }

    /** The reset of the device and of the register bank. */
    method ResetDevice()
      requires Shaped(View())
      modifies this
      ensures View() == Reset(old(View()))
    {
      status, started, features, queueSel, isr := {}, false, {}, 0, {};
      ghost var before := queues;
      var i := 0;
      while i < QUEUES
        invariant 0 <= i <= QUEUES && |queues| == QUEUES
        invariant forall k :: 0 <= k < QUEUES ==> queues[k] == if k < i then ResetQueue(before[k]) else before[k]
        invariant View() ==
                  old(View()).(status := {}, started := false, features := {}, queueSel := 0,
                  isr := {}, queues := queues)
      {
        queues := queues[i := ResetQueue(queues[i])];
        i := i + 1;
      }
    }

    method WriteStatus(v: nat) returns (panic: bool)
      requires Shaped(View())
      modifies this
      ensures panic <==> SetStatus(old(View()), v).Panic?
      ensures !panic ==>
                var c := SetStatus(old(View()), v).conf;
                View() == if c.status == {} then Reset(c) else c
    {
      panic := false;
      var bits := Bits(v);
      if FEATURES_OK in bits {
        panic := SetFeatures(set i: nat | i < 64 && BitOf(guestLow, guestHigh, i));
        if panic {
          return;
        }
      }
      var next := set i | i in bits && i < 8;
      if (DRIVER_OK in status) != (DRIVER_OK in next) {
        started := DRIVER_OK in next;
      }
      status := next;
      assert View() == SetStatus(old(View()), v).conf;
      if status == {} {
        ResetDevice();
      }
    }

    /** A guest write, as the specification says. */
    method HandleWrite(w: Write) returns (panic: bool)
      requires Shaped(View())
      modifies this
      ensures panic <==> After(old(View()), w).Panic?
      ensures !panic ==> Go(View()) == After(old(View()), w)
    {
      panic := false;
      if w.offset >= CONFIG {
        panic := w.offset - CONFIG + w.size <= CONFIG_LEN && w.size !in {1, 2, 4};
      } else if w.size != 4 {
      } else if w.offset == DRIVER_FEATURES {
        if guestSel == 0 {
          guestLow := w.value;
        } else {
          guestHigh := w.value;
        }
      } else if w.offset == DRIVER_FEATURES_SEL {
        guestSel := if w.value != 0 then 1 else 0;
      } else if w.offset == QUEUE_SEL {
        if w.value < QUEUES {
          queueSel := w.value;
        }
      } else if w.offset == QUEUE_NUM {
        var q := SetNum(queues[queueSel], Signed(w.value));
        queues := queues[queueSel := q.(wanted := w.value % 0x1_0000)];
      } else if w.offset == QUEUE_READY {
        var q := queues[queueSel];
        if w.value != 0 {
          q := SetNum(q, q.wanted);
          q := SetRings(q, w.mapping);
        }
        queues := queues[queueSel := q.(enabled := w.value != 0)];
      } else if w.offset == INTERRUPT_ACK {
        isr := isr - Bits(w.value);
      } else if w.offset == STATUS {
        panic := WriteStatus(w.value);
      }
    }
  }

  // ---------------------------------------------------------------- invariant

  predicate Shaped(c: Conf) {
    c.queueSel < QUEUES == |c.queues|
  }

  ghost predicate WellFormed(c: Conf) {
    && Shaped(c)
    && (forall k :: 0 <= k < QUEUES ==> 1 <= c.queues[k].num <= MAX_SIZE)
    && c.features <= OFFERED
    && (FEATURES_OK in c.status ==> F_MAC in c.features)
    && (c.started <==> DRIVER_OK in c.status)
  }

  lemma StatusKeepsWellFormed(c: Conf, v: nat)
    requires WellFormed(c)
    ensures SetStatus(c, v).Go? ==> WellFormed(SetStatus(c, v).conf)
  {
  }

  lemma ReplaceKeepsWellFormed(c: Conf, q: Queue)
    requires WellFormed(c) && 1 <= q.num <= MAX_SIZE
    ensures WellFormed(c.(queues := c.queues[c.queueSel := q]))
  {
  }

  lemma WriteKeepsWellFormed(c: Conf, w: Write)
    requires WellFormed(c)
    ensures After(c, w).Go? ==> WellFormed(After(c, w).conf)
  {
    if w.size == 4 && w.offset == STATUS {
      StatusKeepsWellFormed(c, w.value);
    } else if w.size == 4 && (w.offset == QUEUE_NUM || w.offset == QUEUE_READY) {
      var q := After(c, w).conf.queues[c.queueSel];
      assert 1 <= q.num <= MAX_SIZE;
      ReplaceKeepsWellFormed(c, q);
    }
  }

  function Run(c: Conf, writes: seq<Write>): Outcome
    requires Shaped(c)
    decreases |writes|
  {
    if writes == [] then Go(c)
    else
      var out := After(c, writes[0]);
      if out.Go? && Shaped(out.conf) then Run(out.conf, writes[1..]) else out
  }

  lemma {:induction false} RunKeepsWellFormed(c: Conf, writes: seq<Write>)
    requires WellFormed(c)
    ensures Run(c, writes).Go? ==> WellFormed(Run(c, writes).conf)
    decreases |writes|
  {
    if writes != [] {
      WriteKeepsWellFormed(c, writes[0]);
      if After(c, writes[0]).Go? {
        RunKeepsWellFormed(After(c, writes[0]).conf, writes[1..]);
      }
    }
  }

  /** After any guest writes that do not panic the selected queue exists, every
      ring has 1 to 256 entries, only offered features are negotiated, the MAC
      feature is among them once FEATURES_OK is set, and the device is started
      exactly while DRIVER_OK is set. */
  lemma ConfigurationStaysWellFormed(wanted: nat, writes: seq<Write>)
    ensures Run(Initial(wanted), writes).Go? ==> WellFormed(Run(Initial(wanted), writes).conf)
  {
    RunKeepsWellFormed(Initial(wanted), writes);
  }

  // -------------------------------------------------------------- ring layout

  /** Every connected ring has the size it was laid out for. */
  predicate LaidOut(c: Conf)
    requires Shaped(c)
  {
    forall k :: 0 <= k < QUEUES && c.queues[k].connected ==> c.queues[k].num == c.queues[k].laid
  }

  /** The write gives the connected ring it selects another size without laying it out
      again: a size that is accepted, or a set-up that takes over an accepted size and
      then cannot map the rings. */
  predicate Resizes(c: Conf, w: Write)
    requires Shaped(c)
  {
    var q := c.queues[c.queueSel];
    var size :=
      if w.offset == QUEUE_NUM then Signed(w.value)
      else if w.offset == QUEUE_READY && w.value != 0 && w.mapping.Unmapped? then q.wanted
      else q.num;
    w.size == 4 && q.connected && 1 <= size <= MAX_SIZE && size != q.laid
  }

  lemma LayoutKeptIff(c: Conf, w: Write)
    requires WellFormed(c) && LaidOut(c) && After(c, w).Go? && Shaped(After(c, w).conf)
    ensures LaidOut(After(c, w).conf) <==> !Resizes(c, w)
  {
    var t := After(c, w).conf;
    var k := c.queueSel;
    if w.size == 4 && (w.offset == QUEUE_NUM || w.offset == QUEUE_READY) {
      assert t.queues == c.queues[k := t.queues[k]];
    }
  }

  ghost predicate AlwaysLaidOut(c: Conf, writes: seq<Write>)
    requires Shaped(c)
    decreases |writes|
  {
    && LaidOut(c)
    && (writes == [] || var out := After(c, writes[0]);
                        out.Go? && Shaped(out.conf) ==> AlwaysLaidOut(out.conf, writes[1..]))
  }

  /** No write of the run resizes a ring that is connected when it comes. */
  ghost predicate NeverResizes(c: Conf, writes: seq<Write>)
    requires Shaped(c)
    decreases |writes|
  {
    writes == [] || var out := After(c, writes[0]);
                    out.Go? && Shaped(out.conf) ==> !Resizes(c, writes[0]) && NeverResizes(out.conf, writes[1..])
  }

  lemma {:induction false} LayoutHoldsFrom(c: Conf, writes: seq<Write>)
    requires WellFormed(c) && LaidOut(c)
    ensures AlwaysLaidOut(c, writes) <==> NeverResizes(c, writes)
    decreases |writes|
  {
    if writes != [] && After(c, writes[0]).Go? {
      WriteKeepsWellFormed(c, writes[0]);
      LayoutKeptIff(c, writes[0]);
      var t := After(c, writes[0]).conf;
      if LaidOut(t) {
        LayoutHoldsFrom(t, writes[1..]);
      }
    }
  }

  /** The size of a connected ring is the one it was laid out with, throughout a run
      of guest writes, exactly when no write of the run resizes a connected ring:
      nothing stops a guest from writing QUEUE_NUM after QUEUE_READY. */
  lemma RingSizeIsStableIff(wanted: nat, writes: seq<Write>)
    ensures AlwaysLaidOut(Initial(wanted), writes) <==> NeverResizes(Initial(wanted), writes)
  {
    LayoutHoldsFrom(Initial(wanted), writes);
  }

  /** Two writes after start-up suffice to resize a connected ring. */
  lemma ResizeIsReachable()
    ensures !AlwaysLaidOut(Initial(MAX_SIZE), [Write(QUEUE_READY, 4, 1, Mapped), Write(QUEUE_NUM, 4, 1, Mapped)])
  {
    var ready, num := Write(QUEUE_READY, 4, 1, Mapped), Write(QUEUE_NUM, 4, 1, Mapped);
    var c := After(Initial(MAX_SIZE), ready).conf;
    assert c.queues[0] == Registered(MAX_SIZE).(connected := true, laid := MAX_SIZE, enabled := true);
    assert Resizes(c, num);
    assert [ready, num][1..] == [num];
    assert !NeverResizes(c, [num]);
    RingSizeIsStableIff(MAX_SIZE, [ready, num]);
  }

  // ------------------------------------------------------------- negotiation

  /** FEATURES_OK is set in every state of the run, the last one included. */
  ghost predicate StaysNegotiated(c: Conf, writes: seq<Write>)
    requires Shaped(c)
    decreases |writes|
  {
    && FEATURES_OK in c.status
    && (writes == [] ||
        (After(c, writes[0]).Go? && Shaped(After(c, writes[0]).conf)
         && StaysNegotiated(After(c, writes[0]).conf, writes[1..])))
  }

  lemma WriteKeepsFeatures(c: Conf, w: Write)
    requires Shaped(c) && FEATURES_OK in c.status
    requires After(c, w).Go? && FEATURES_OK in After(c, w).conf.status
    ensures After(c, w).conf.features == c.features
  {
  }

  /** The negotiated features do not change while FEATURES_OK stays set. */
  lemma {:induction false} FeaturesAreFrozen(c: Conf, writes: seq<Write>)
    requires Shaped(c) && StaysNegotiated(c, writes)
    ensures Run(c, writes).Go? && Run(c, writes).conf.features == c.features
    decreases |writes|
  {
    if writes != [] {
      var c' := After(c, writes[0]).conf;
      assert FEATURES_OK in c'.status;
      WriteKeepsFeatures(c, writes[0]);
      FeaturesAreFrozen(c', writes[1..]);
    }
  }

  /** A write that sets FEATURES_OK panics exactly when the driver did not ask for
      the MAC feature, whatever it asked for about the version. */
  lemma NegotiationPanicsIff(c: Conf, v: nat, mapping: Mapping)
    requires Shaped(c) && FEATURES_OK !in c.status && FEATURES_OK in Bits(v)
    ensures After(c, Write(STATUS, 4, v, mapping)).Panic? <==> !Bit(c.guestLow, F_MAC)
  {
    assert F_MAC in Wanted(c) <==> BitOf(c.guestLow, c.guestHigh, F_MAC);
  }

  /** So a driver without VERSION_1 can negotiate, and one with nothing else cannot. */
  lemma VersionIsNotChecked(mapping: Mapping)
    ensures var c := Initial(0).(guestLow := 0x20);
            var out := After(c, Write(STATUS, 4, 8, mapping));
            out.Go? && F_VERSION_1 !in out.conf.features && FEATURES_OK in out.conf.status
    ensures After(Initial(0).(guestHigh := 1), Write(STATUS, 4, 8, mapping)).Panic?
  {
    var c := Initial(0).(guestLow := 0x20);
    assert Bit(8, FEATURES_OK) && Bit(0x20, F_MAC) && !Bit(0, F_MAC) && !Bit(0, 0);
    assert FEATURES_OK in Bits(8);
    NegotiationPanicsIff(c, 8, mapping);
    NegotiationPanicsIff(Initial(0).(guestHigh := 1), 8, mapping);
    assert F_VERSION_1 in Wanted(c) <==> BitOf(0x20, 0, F_VERSION_1);
    var status := set i | i in Bits(8) && i < 8;
    assert FEATURES_OK in status;
  }
}
