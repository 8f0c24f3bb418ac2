/** The trap handler that lets the normal-world half of the FEC driver touch the
    real registers only along the expected restart and stop sequences. It
    merges the secure register bits and disables and enables the two FEC NAPI
    contexts on the way. `Access` is the specification, `FecTrap` the handler. */
module FecTraps {
  import opened Napi

  /** A register value, as the set of its one bits. */
  type Reg = set<int>

  const IEVENT := 0x004
  const IMASK := 0x008
  const ECNTRL := 0x024
  const MII_DATA := 0x040
  const MII_SPEED := 0x044
  const R_CNTRL := 0x084
  const X_CNTRL := 0x0c4
  const X_WMRK := 0x144
  const R_FIFO_RSEM := 0x194

  const ZERO: Reg := {}
  const ONE: Reg := {0}
  const TWO: Reg := {1}
  const FOUR: Reg := {2}
  const OPEN_SIGNAL: Reg := {0, 1, 2, 3, 5}  // 47
  const SHUTDOWN_SIGNAL: Reg := {4, 5}       // 48
  const ALL_ONES: Reg := set b | 0 <= b < 32

  const EV_GRA: Reg := {28}
  const EV_MII: Reg := {23}
  const DEFAULT_IMASK: Reg := {1, 3, 5, 7, 23, 25, 27}
  const RSEM_V: Reg := {2, 7}                // 0x84
  const FCE: Reg := {5}
  const RCNTL_BASE: Reg := {2, 22, 23, 24, 25, 26}  // maximum frame size 1984 and MII mode
  const RCNTL_CHECKS: Reg := {5, 30}         // length check and flow control
  const HALF_DUPLEX: Reg := {1}
  const RCNTL_NW_BITS: Reg := {6, 8, 9}
  const ETHEREN: Reg := {1}
  const ENDIAN_SWAP: Reg := {8}
  const SPEED_1000: Reg := {5}
  const RMII: Reg := {8}
  const LOW_HALF: Reg := set b | 0 <= b < 16

  datatype Primary =
    | Error | Uninit | Probed | Opening | PostOpen
    | Restarted | Stopped | Running | ShuttingDown | ShutDown

  datatype Sub =
    | SubNone
    | RestartReset | RestartInit | RestartMiiMode | RestartMiiSpeed | RestartFce
    | RestartRcntrl | RestartEcntrl | RestartImaskRun | RestartImaskMii
    | StopGetRmii | StopXmit | StopGetIevent | StopReset | StopMiiImask | StopMiiSpeed | StopEcntrl
  {
    predicate InRestart() {
      RestartReset? || RestartInit? || RestartMiiMode? || RestartMiiSpeed? || RestartFce?
      || RestartRcntrl? || RestartEcntrl? || RestartImaskRun? || RestartImaskMii?
    }

    predicate InStop() {
      StopGetRmii? || StopXmit? || StopGetIevent? || StopReset? || StopMiiImask? || StopMiiSpeed? || StopEcntrl?
    }
  }

  /** A trapped access. A read traps twice: before it, and after it with the
      value the hardware returned. */
  datatype Kind = Write | ReadBefore | ReadAfter
  datatype Trapped = Trapped(kind: Kind, offset: int, value: Reg, size: int)

  datatype State = State(pri: Primary, sub: Sub, rcntl: Reg, ecntl: Reg, rmii: Reg)

  /** `Denied`: the access is not carried out. `Allowed(value)`: carried out with
      this value, or for a read, this value is returned. `NwPanic`: unexpected
      normal-world behaviour. */
  datatype Verdict = Denied | Allowed(value: Reg) | NwPanic

  /** What the access does to the two NAPI contexts: it disables or enables both. */
  datatype Call = NoCall | DisableCall | EnableCall

  datatype Result = Result(state: State, verdict: Verdict, call: Call)

  const PROBED := State(Probed, SubNone, ZERO, ZERO, ZERO)

  predicate Live(p: Primary) { p.Restarted? || p.Stopped? || p.Running? }

  /** The phases between operations, in which the contexts are to be enabled. */
  predicate On(s: State) { (Live(s.pri) || s.pri.ShuttingDown?) && s.sub.SubNone? }

  // -------------------------------------------------------------------- spec

  function Just(s: State, v: Verdict): Result { Result(s, v, NoCall) }

  function Next(s: State, sub: Sub, v: Reg): Result { Just(s.(sub := sub), Allowed(v)) }

  /** One write of the restart sequence. */
  function RestartStep(s: State, off: int, v: Reg): Result {
    var bad := Just(s, NwPanic);
    match s.sub
    case RestartReset => if off == IEVENT && v == ALL_ONES then Next(s, RestartInit, v) else bad
    case RestartInit =>
      if off == X_CNTRL && v == FOUR then Next(s, RestartMiiMode, v)
      else if off == X_CNTRL && v == ZERO then Next(s.(rcntl := s.rcntl + HALF_DUPLEX), RestartMiiMode, v)
      else bad
    case RestartMiiMode => if off == MII_SPEED then Next(s, RestartMiiSpeed, v) else bad
    case RestartMiiSpeed =>
      if off == R_FIFO_RSEM && v == RSEM_V then Next(s, RestartFce, v)
      else if off == R_CNTRL then
        Next(s.(rcntl := ZERO), RestartRcntrl, v * RCNTL_NW_BITS + (s.rcntl + RCNTL_CHECKS - FCE))
      else bad
    case RestartFce =>
      if off == R_CNTRL then
        Next(s.(rcntl := ZERO), RestartRcntrl, v * RCNTL_NW_BITS + (s.rcntl + RCNTL_CHECKS + FCE))
      else bad
    case RestartRcntrl =>
      if off == ECNTRL then
        Next(s.(ecntl := ZERO), RestartEcntrl, v * SPEED_1000 + (s.ecntl + ENDIAN_SWAP))
      else bad
    case RestartEcntrl =>
      if off != IMASK || (v != DEFAULT_IMASK && v != EV_MII) then bad
      else if s.pri.Opening? then
        Just(s.(pri := PostOpen, sub := if v == DEFAULT_IMASK then RestartImaskRun else RestartImaskMii), Allowed(v))
      else if v != DEFAULT_IMASK then Just(s.(pri := Running, sub := SubNone), NwPanic)
      else Result(s.(pri := Running, sub := SubNone), Allowed(v), EnableCall)
    case _ => bad
  }

  /** One access of the stop sequence. */
  function StopStep(s: State, a: Trapped): Result {
    var bad := Just(s, NwPanic);
    var v := a.value;
    match s.sub
    case StopXmit =>
      if a.offset != IEVENT || a.kind.Write? then bad
      else if a.kind.ReadBefore? then Just(s, Allowed(v))
      else Next(s, StopGetIevent, v * EV_GRA)
    case _ =>
      if !a.kind.Write? then bad
      else if s.sub.StopGetRmii? && a.offset == X_CNTRL && v == ONE then Next(s, StopXmit, v)
      else if (s.sub.StopGetRmii? || s.sub.StopGetIevent?) && a.offset == ECNTRL && v == ONE then Next(s, StopReset, v)
      else if s.sub.StopReset? && a.offset == IMASK && v == EV_MII then Next(s, StopMiiImask, v)
      else if s.sub.StopMiiImask? && a.offset == MII_SPEED then Next(s, StopMiiSpeed, v)
      else if s.sub.StopMiiSpeed? && a.offset == ECNTRL && v == TWO then Next(s, StopEcntrl, v)
      else if s.sub.StopEcntrl? && a.offset == R_CNTRL && v == s.rmii then
        Result(s.(rmii := ZERO, pri := Stopped, sub := SubNone), Allowed(v), EnableCall)
      else bad
  }

  /** The first access of a restart or a stop, or the shutdown signal. */
  function IdleStep(s: State, a: Trapped): Result {
    if a == Trapped(Write, X_WMRK, SHUTDOWN_SIGNAL, a.size) then Just(s.(pri := ShuttingDown), Denied)
    else if a.offset == R_CNTRL && a.kind.ReadBefore? then Just(s, Allowed(a.value))
    else if a.offset == R_CNTRL && a.kind.ReadAfter? then
      Result(s.(rmii := a.value * RMII, sub := StopGetRmii), Allowed(a.value * RMII), DisableCall)
    else if a.offset == ECNTRL && a.value == ONE && a.kind.Write? then
      Result(s.(rcntl := RCNTL_BASE, ecntl := ETHEREN, sub := RestartReset), Allowed(ONE), DisableCall)
    else Just(s, NwPanic)
  }

  /** Accesses of the MDIO callbacks, let through in any phase. */
  predicate IsMdio(s: State, a: Trapped) {
    a.offset == MII_DATA || (a.offset == IEVENT && !a.kind.Write? && !s.sub.StopXmit?)
  }

  function MdioValue(a: Trapped): Reg {
    if !a.kind.ReadAfter? then a.value
    else if a.offset == MII_DATA then a.value * LOW_HALF
    else a.value * EV_MII
  }

  function Access(s: State, a: Trapped): Result {
    var bad := Just(s, NwPanic);
    if a.size != 4 || s.pri.Error? || s.pri.ShutDown? then Just(s, Denied)
    else if s.pri.Probed? && a.offset == MII_SPEED && a.kind.Write? then Just(s, Allowed(a.value))
    else if IsMdio(s, a) then Just(s, Allowed(MdioValue(a)))
    else if s.pri.Probed? then
      if s.sub.SubNone? && a.offset == ECNTRL && a.value == ONE && a.kind.Write? then
        Just(s.(rcntl := RCNTL_BASE, ecntl := ETHEREN, pri := Opening, sub := RestartReset), Allowed(ONE))
      else bad
    else if Live(s.pri) then
      if s.sub.SubNone? then IdleStep(s, a)
      else if s.sub.InStop() then StopStep(s, a)
      else if a.kind.Write? then RestartStep(s, a.offset, a.value)
      else bad
    else if s.pri.Opening? then
      if s.sub.InRestart() && a.kind.Write? then RestartStep(s, a.offset, a.value) else bad
    else if s.pri.PostOpen? then
      if a.offset == X_WMRK && a.value == OPEN_SIGNAL && a.kind.Write? &&
         (s.sub.RestartImaskRun? || s.sub.RestartImaskMii?) then
        Result(s.(pri := if s.sub.RestartImaskRun? then Running else Restarted, sub := SubNone), Denied, EnableCall)
      else bad
    else bad
  }

  /** The handler's state after a sequence of accesses, while nothing panics. */
  function Run(s: State, accesses: seq<Trapped>): Result
    decreases |accesses|
  {
    if accesses == [] then Just(s, Denied)
    else
      var r := Access(s, accesses[0]);
      if r.verdict.NwPanic? then r else Run(r.state, accesses[1..])
  }

  // -------------------------------------------------------------- invariants

  /** Which sub-states occur, and what the pending secure bits are there. */
  ghost predicate Shaped(s: State) {
    && (s.pri.Probed? || s.pri.ShuttingDown? ==> s.sub.SubNone?)
    && (s.pri.Opening? ==> s.sub.InRestart())
    && (s.pri.PostOpen? <==> s.sub.RestartImaskRun? || s.sub.RestartImaskMii?)
    && (s.pri.Error? || s.pri.Uninit? || s.pri.ShutDown? ==> s.sub.SubNone?)
    && (s.sub.RestartReset? || s.sub.RestartInit? ==> s.rcntl == RCNTL_BASE)
    && (s.sub.RestartMiiMode? || s.sub.RestartMiiSpeed? || s.sub.RestartFce? ==>
          s.rcntl == RCNTL_BASE || s.rcntl == RCNTL_BASE + HALF_DUPLEX)
    && (s.sub.InRestart() && !s.sub.RestartEcntrl? && !s.pri.PostOpen? ==> s.ecntl == ETHEREN)
    && s.rmii <= RMII
  }

  /** The NAPI calls follow the phases: a disable comes exactly when an operation
      begins and an enable exactly when one ends. */
  ghost predicate Balanced(s: State, r: Result) {
    match r.call
    case NoCall => On(s) == On(r.state)
    case DisableCall => On(s) && !On(r.state)
    case EnableCall => !On(s) && On(r.state)
  }

  ghost predicate Good(s: State, r: Result) {
    !r.verdict.NwPanic? ==> Shaped(r.state) && Balanced(s, r)
  }

  lemma RestartKeepsInv(s: State, off: int, v: Reg)
    requires Shaped(s) && (Live(s.pri) || s.pri.Opening?) && s.sub.InRestart()
    ensures Good(s, RestartStep(s, off, v))
  {
    match s.sub
    case RestartInit =>
    case RestartEcntrl =>
    case _ =>
  }

  lemma StopKeepsInv(s: State, a: Trapped)
    requires Shaped(s) && Live(s.pri) && s.sub.InStop()
    ensures Good(s, StopStep(s, a))
  {
  }

  lemma IdleKeepsInv(s: State, a: Trapped)
    requires Shaped(s) && Live(s.pri) && s.sub.SubNone?
    ensures Good(s, IdleStep(s, a))
  {
  }

  lemma AccessKeepsInv(s: State, a: Trapped)
    requires Shaped(s)
    ensures Good(s, Access(s, a))
  {
    if s.sub.InRestart() && (Live(s.pri) || s.pri.Opening?) {
      RestartKeepsInv(s, a.offset, a.value);
    } else if s.sub.InStop() && Live(s.pri) {
      StopKeepsInv(s, a);
    } else if Live(s.pri) {
      IdleKeepsInv(s, a);
    }
  }

  lemma {:induction false} RunKeepsInv(s: State, accesses: seq<Trapped>)
    requires Shaped(s)
    ensures !Run(s, accesses).verdict.NwPanic? ==> Shaped(Run(s, accesses).state)
    decreases |accesses|
  {
    if accesses != [] {
      AccessKeepsInv(s, accesses[0]);
      if !Access(s, accesses[0]).verdict.NwPanic? {
        RunKeepsInv(Access(s, accesses[0]).state, accesses[1..]);
      }
    }
  }

  // -------------------------------------------------------------- confinement

  /** What may reach a register: `req` was requested, `v` is committed. */
  predicate WriteConfined(off: int, req: Reg, v: Reg) {
    || ((off == MII_DATA || off == MII_SPEED) && v == req)
    || (off == IEVENT && v == ALL_ONES)
    || (off == IMASK && (v == DEFAULT_IMASK || v == EV_MII))
    || (off == X_CNTRL && (v == ZERO || v == ONE || v == FOUR))
    || (off == R_FIFO_RSEM && v == RSEM_V)
    || (off == ECNTRL &&
        (v == ONE || v == TWO || v == ETHEREN + ENDIAN_SWAP || v == ETHEREN + ENDIAN_SWAP + SPEED_1000))
    || (off == R_CNTRL && (v <= RMII || RcntrlMerged(req, v)))
  }

  /** The secure bits, plus only bits 6, 8 and 9 of the request. */
  predicate RcntrlMerged(req: Reg, v: Reg) {
    && v * RCNTL_NW_BITS == req * RCNTL_NW_BITS
    && RCNTL_BASE + {30} <= v - RCNTL_NW_BITS <= RCNTL_BASE + {30} + HALF_DUPLEX + FCE
  }

  /** What the normal world may learn from a register. */
  predicate ReadConfined(off: int, v: Reg) {
    || (off == MII_DATA && v <= LOW_HALF)
    || (off == IEVENT && v <= EV_MII + EV_GRA)
    || (off == R_CNTRL && v <= RMII)
  }

  ghost predicate Confined(a: Trapped, verdict: Verdict) {
    verdict.Allowed? ==>
      match a.kind
      case Write => WriteConfined(a.offset, a.value, verdict.value)
      case ReadBefore => a.offset == MII_DATA || a.offset == IEVENT || a.offset == R_CNTRL
      case ReadAfter => ReadConfined(a.offset, verdict.value)
  }

  lemma MergeStaysSecure(req: Reg, secure: Reg)
    requires secure == RCNTL_BASE || secure == RCNTL_BASE + HALF_DUPLEX
    ensures RcntrlMerged(req, req * RCNTL_NW_BITS + (secure + RCNTL_CHECKS - FCE))
    ensures RcntrlMerged(req, req * RCNTL_NW_BITS + (secure + RCNTL_CHECKS + FCE))
  {
  }

  lemma RestartIsConfined(s: State, off: int, v: Reg)
    requires Shaped(s) && (Live(s.pri) || s.pri.Opening?) && s.sub.InRestart()
    ensures RestartStep(s, off, v).verdict.Allowed? ==> WriteConfined(off, v, RestartStep(s, off, v).verdict.value)
  {
    match s.sub
    case RestartMiiSpeed => MergeStaysSecure(v, s.rcntl);
    case RestartFce => MergeStaysSecure(v, s.rcntl);
    case RestartRcntrl => assert v * SPEED_1000 == ZERO || v * SPEED_1000 == SPEED_1000;
    case _ =>
  }

  lemma StopIsConfined(s: State, a: Trapped)
    requires Shaped(s) && Live(s.pri) && s.sub.InStop()
    ensures Confined(a, StopStep(s, a).verdict)
  {
  }

  lemma MdioIsConfined(s: State, a: Trapped)
    requires IsMdio(s, a)
    ensures Confined(a, Allowed(MdioValue(a)))
  {
  }

  lemma AccessIsConfined(s: State, a: Trapped)
    requires Shaped(s)
    ensures Confined(a, Access(s, a).verdict)
  {
    if IsMdio(s, a) {
      MdioIsConfined(s, a);
    } else if s.sub.InRestart() && (Live(s.pri) || s.pri.Opening?) {
      RestartIsConfined(s, a.offset, a.value);
    } else if s.sub.InStop() && Live(s.pri) {
      StopIsConfined(s, a);
    }
  }

  lemma ConfinedIsNotPromiscuous(req: Reg, v: Reg)
    requires WriteConfined(R_CNTRL, req, v)
    ensures 3 !in v
  {
    assert 3 in v ==> 3 in v - RCNTL_NW_BITS;
  }

  /** Committed registers are confined: after any sequence of accesses, the next
      one, if it is let through, hits one of eight registers with a value of the
      secure world's choosing up to the granted bits, and a read reveals only
      the granted bits. In particular promiscuous mode is never switched on. */
  lemma CommittedRegistersAreConfined(accesses: seq<Trapped>, a: Trapped)
    requires !Run(PROBED, accesses).verdict.NwPanic?
    ensures var verdict := Access(Run(PROBED, accesses).state, a).verdict;
            && Confined(a, verdict)
            && (verdict.Allowed? && a.kind.Write? && a.offset == R_CNTRL ==> 3 !in verdict.value)
  {
    RunKeepsInv(PROBED, accesses);
    AccessIsConfined(Run(PROBED, accesses).state, a);
    if Access(Run(PROBED, accesses).state, a).verdict.Allowed? && a.kind.Write? && a.offset == R_CNTRL {
      ConfinedIsNotPromiscuous(a.value, Access(Run(PROBED, accesses).state, a).verdict.value);
    }
  }

  // ----------------------------------------------------------------- shutdown

  /** The shutdown path is not implemented: once the normal world has announced a
      shutdown, every access except the MDIO ones panics, so the stop sequence
      that follows it never gets anywhere. */
  lemma ShutdownPanics(s: State, a: Trapped)
    requires s.pri.ShuttingDown? && Shaped(s)
    ensures Access(s, a).verdict.NwPanic? <==> a.size == 4 && !IsMdio(s, a)
    ensures Access(s, a).state == s
  {
  }

  // ------------------------------------------------------------------ handler

  /** How a trap ends: with a verdict, in a panic inside a NAPI call, or still in the
      waiting loop of `napi_disable`. */
  datatype Ending = Finished(verdict: Verdict) | NapiPanicked | StillWaiting

  ghost predicate Matches(e: Ending, s: State, r: Result) {
    e.Finished? ==> s == r.state && e.verdict == r.verdict
  }

  class FecTrap {
    var pri: Primary
    var sub: Sub
    var rcntl: Reg
    var ecntl: Reg
    var rmii: Reg
    const rx: NapiStruct
    const tx: NapiStruct

    function View(): State
      reads this
    {
      State(pri, sub, rcntl, ecntl, rmii)
    }

    /** The contexts are disabled with nothing scheduled. */
    ghost predicate Off()
      reads rx, tx
    {
      rx.disable && !rx.sched && tx.disable && !tx.sched
    }

    /** The contexts agree with the phase. */
    ghost predicate Valid()
      reads this, rx, tx
    {
      rx != tx && Shaped(View()) && if On(View()) then !rx.disable && !tx.disable else Off()
    }

    constructor ()
      ensures Valid() && View() == PROBED && fresh(rx) && fresh(tx)
    {
      pri, sub, rcntl, ecntl, rmii := Probed, SubNone, ZERO, ZERO, ZERO;
      rx := new NapiStruct();
      tx := new NapiStruct();
    }

    /** `fec_enet_adjust_link_sw_restart_pre` and `_stop_pre`. */
    method DisableNapis(rounds: nat) returns (panicked: bool, done: bool)
      requires rx != tx
      modifies rx, tx
      ensures panicked ==> old(rx.disable) || old(tx.disable)
      ensures old(rx.disable) || (done && old(tx.disable)) ==> panicked
      ensures !panicked && done ==> Off()
    {
      panicked, done := DisableNapi(rx, rounds);
      if panicked || !done {
        return;
      }
      panicked, done := DisableNapi(tx, rounds);
      rx.Meanwhile();
      done := done || panicked;
    }

    /** `fec_enet_open_sw`, `_restart_post` and `_stop_post`. */
    method EnableNapis() returns (panicked: bool)
      requires rx != tx
      modifies rx, tx
      ensures panicked <==> EnablePanics(old(tx.View())) || EnablePanics(old(rx.View()))
      ensures !panicked ==> !rx.disable && !tx.disable
    {
      panicked := tx.Enable();
      if panicked {
        return;
      }
      panicked := rx.Enable();
    }

    method EmulateRestart(a: Trapped) returns (e: Ending)
      requires rx != tx && Off() && (pri.Opening? || Live(pri))
      modifies this, rx, tx
      ensures e.Finished?
      ensures Matches(e, View(),
                      if a.kind.Write? then RestartStep(old(View()), a.offset, a.value) else Just(old(View()), NwPanic))
      ensures a.kind.Write? && RestartStep(old(View()), a.offset, a.value).call.EnableCall? ==>
                !rx.disable && !tx.disable
      ensures !a.kind.Write? || !RestartStep(old(View()), a.offset, a.value).call.EnableCall? ==> Off()
    {
      if !a.kind.Write? {
        return Finished(NwPanic);
      }
      var v := a.value;
      match sub {
        case RestartReset =>
          if a.offset != IEVENT || v != ALL_ONES {
            return Finished(NwPanic);
          }
          sub := RestartInit;
        case RestartInit =>
          if a.offset != X_CNTRL || (v != FOUR && v != ZERO) {
            return Finished(NwPanic);
          }
          if v == ZERO {
            rcntl := rcntl + HALF_DUPLEX;
          }
          sub := RestartMiiMode;
        case RestartMiiMode =>
          if a.offset != MII_SPEED {
            return Finished(NwPanic);
          }
          sub := RestartMiiSpeed;
        case RestartMiiSpeed =>
          if a.offset == R_FIFO_RSEM {
            if v != RSEM_V {
              return Finished(NwPanic);
            }
            sub := RestartFce;
          } else if a.offset == R_CNTRL {
            rcntl := rcntl + RCNTL_CHECKS - FCE;
            v := v * RCNTL_NW_BITS + rcntl;
            rcntl := ZERO;
            sub := RestartRcntrl;
          } else {
            return Finished(NwPanic);
          }
        case RestartFce =>
          if a.offset != R_CNTRL {
            return Finished(NwPanic);
          }
          rcntl := rcntl + RCNTL_CHECKS + FCE;
          v := v * RCNTL_NW_BITS + rcntl;
          rcntl := ZERO;
          sub := RestartRcntrl;
        case RestartRcntrl =>
          if a.offset != ECNTRL {
            return Finished(NwPanic);
          }
          ecntl := ecntl + ENDIAN_SWAP;
          v := v * SPEED_1000 + ecntl;
          ecntl := ZERO;
          sub := RestartEcntrl;
        case RestartEcntrl =>
          if a.offset != IMASK || (v != DEFAULT_IMASK && v != EV_MII) {
            return Finished(NwPanic);
          }
          if pri.Opening? {
            pri := PostOpen;
            sub := if v == DEFAULT_IMASK then RestartImaskRun else RestartImaskMii;
          } else {
            pri, sub := Running, SubNone;
            if v != DEFAULT_IMASK {
              return Finished(NwPanic);
            }
            var panicked := EnableNapis();
            assert !panicked;
          }
        case _ => return Finished(NwPanic);
      }
      return Finished(Allowed(v));
    }

    method EmulateStop(a: Trapped) returns (e: Ending)
      requires rx != tx && Off() && Live(pri) && sub.InStop()
      modifies this, rx, tx
      ensures e.Finished? && Matches(e, View(), StopStep(old(View()), a))
      ensures if StopStep(old(View()), a).call.EnableCall? then !rx.disable && !tx.disable else Off()
    {
      var v := a.value;
      if sub.StopXmit? {
        if a.offset != IEVENT || a.kind.Write? {
          return Finished(NwPanic);
        }
        if a.kind.ReadBefore? {
          return Finished(Allowed(v));
        }
        sub := StopGetIevent;
        return Finished(Allowed(v * EV_GRA));
      }
      if !a.kind.Write? {
        return Finished(NwPanic);
      }
      match sub {
        case StopGetRmii =>
          if a.offset == X_CNTRL && v == ONE {
            sub := StopXmit;
          } else if a.offset == ECNTRL && v == ONE {
            sub := StopReset;
          } else {
            return Finished(NwPanic);
          }
        case StopGetIevent =>
          if a.offset != ECNTRL || v != ONE {
            return Finished(NwPanic);
          }
          sub := StopReset;
        case StopReset =>
          if a.offset != IMASK || v != EV_MII {
            return Finished(NwPanic);
          }
          sub := StopMiiImask;
        case StopMiiImask =>
          if a.offset != MII_SPEED {
            return Finished(NwPanic);
          }
          sub := StopMiiSpeed;
        case StopMiiSpeed =>
          if a.offset != ECNTRL || v != TWO {
            return Finished(NwPanic);
          }
          sub := StopEcntrl;
        case StopEcntrl =>
          if a.offset != R_CNTRL || v != rmii {
            return Finished(NwPanic);
          }
          rmii := ZERO;
          pri, sub := Stopped, SubNone;
          var panicked := EnableNapis();
          assert !panicked;
      }
      return Finished(Allowed(v));
    }

    /** The whole trap, at any moment of whatever producers and workers do: it
        refines `Access`, no NAPI call of it panics, and the contexts agree with
        the phase again when it has finished. */
    method EmuCheck(a: Trapped, rounds: nat) returns (e: Ending)
      requires Valid()
      modifies this, rx, tx
      ensures !e.NapiPanicked? && Matches(e, View(), Access(old(View()), a))
      ensures e.StillWaiting? ==> Access(old(View()), a).call.DisableCall?
      ensures e.Finished? && !e.verdict.NwPanic? ==> Valid()
    {
      rx.Meanwhile();
      tx.Meanwhile();
      AccessKeepsInv(View(), a);
      if a.size != 4 || pri.Error? || pri.ShutDown? {
        return Finished(Denied);
      }
      if pri.Probed? && a.offset == MII_SPEED && a.kind.Write? {
        return Finished(Allowed(a.value));
      }
      if a.offset == MII_DATA {
        return Finished(Allowed(if a.kind.ReadAfter? then a.value * LOW_HALF else a.value));
      }
      if a.offset == IEVENT && !a.kind.Write? && !sub.StopXmit? {
        return Finished(Allowed(if a.kind.ReadBefore? then a.value else a.value * EV_MII));
      }
      if pri.Probed? {
        if !sub.SubNone? || a.offset != ECNTRL || a.value != ONE || !a.kind.Write? {
          return Finished(NwPanic);
        }
        rcntl, ecntl := RCNTL_BASE, ETHEREN;
        pri, sub := Opening, RestartReset;
        return Finished(Allowed(ONE));
      } else if pri.Opening? {
        if !sub.InRestart() {
          return Finished(NwPanic);
        }
        e := EmulateRestart(a);
      } else if pri.PostOpen? {
        e := FinishOpen(a);
      } else if !Live(pri) {
        return Finished(NwPanic);
      } else if sub.InStop() {
        e := EmulateStop(a);
      } else if !sub.SubNone? {
        e := EmulateRestart(a);
      } else {
        e := BeginOperation(a, rounds);
      }
    }

    /** The virtual access that ends an open. */
    method FinishOpen(a: Trapped) returns (e: Ending)
      requires rx != tx && Off() && pri.PostOpen? && a.size == 4 && !IsMdio(View(), a)
      modifies this, rx, tx
      ensures e.Finished? && Matches(e, View(), Access(old(View()), a))
      ensures if Access(old(View()), a).call.EnableCall? then !rx.disable && !tx.disable else Off()
    {
      if a.offset != X_WMRK || a.value != OPEN_SIGNAL || !a.kind.Write? {
        return Finished(NwPanic);
      }
      if sub.RestartImaskRun? {
        pri := Running;
      } else if sub.RestartImaskMii? {
        pri := Restarted;
      } else {
        return Finished(NwPanic);
      }
      sub := SubNone;
      var panicked := EnableNapis();
      assert !panicked;
      return Finished(Denied);
    }

    method BeginOperation(a: Trapped, rounds: nat) returns (e: Ending)
      requires rx != tx && !rx.disable && !tx.disable && Live(pri) && sub.SubNone?
      modifies this, rx, tx
      ensures !e.NapiPanicked? && Matches(e, View(), IdleStep(old(View()), a))
      ensures e.StillWaiting? ==> IdleStep(old(View()), a).call.DisableCall?
      ensures e.Finished? ==>
                if IdleStep(old(View()), a).call.DisableCall? then Off() else !rx.disable && !tx.disable
    {
      if a.offset == X_WMRK && a.value == SHUTDOWN_SIGNAL && a.kind.Write? {
        pri := ShuttingDown;
        return Finished(Denied);
      }
      if a.offset == R_CNTRL {
        if a.kind.ReadBefore? {
          return Finished(Allowed(a.value));
        }
        if a.kind.Write? {
          return Finished(NwPanic);
        }
        var panicked, done := DisableNapis(rounds);
        assert !panicked;
        if !done {
          return StillWaiting;
        }
        rmii := a.value * RMII;
        sub := StopGetRmii;
        return Finished(Allowed(rmii));
      }
      if a.offset == ECNTRL && a.value == ONE && a.kind.Write? {
        var panicked, done := DisableNapis(rounds);
        assert !panicked;
        if !done {
          return StillWaiting;
        }
        rcntl, ecntl := RCNTL_BASE, ETHEREN;
        sub := RestartReset;
        return Finished(Allowed(ONE));
      }
      return Finished(NwPanic);
    }
  }
}
