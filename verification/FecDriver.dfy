/** The register traffic of the normal-world FEC driver, run against the trap
    handler: open, link-change restarts and link-down stops, each access a step,
    with MDIO traffic interleaved anywhere. Every value the driver may choose
    and every value the hardware may return is a parameter. */
module FecDriver {
  import opened FecTraps
  import FecScripts

  /** What one `fec_restart` is called with: `rcntl` holds the interface and
      10 Mbit bits, `ecntl` the gigabit bit. */
  datatype Params = Params(opening: bool, fullDuplex: bool, pause: bool, rcntl: Reg, ecntl: Reg, speed: Reg, link: bool)

  /** The driver's next register access. */
  datatype Pc =
    | Unopened
    | Ready
    | ClearEvents(p: Params)
    | SetDuplex(p: Params)
    | SetSpeed(p: Params)
    | SetPause(p: Params)
    | SetRcntrl(p: Params)
    | SetEcntrl(p: Params)
    | SetImask(p: Params)
    | Announce
    | GracefulStop(mode: Reg)
    | AwaitStop(mode: Reg)
    | ResetMac(mode: Reg)
    | MaskEvents(mode: Reg)
    | KeepSpeed(mode: Reg)
    | KeepEnabled(mode: Reg, speed: Reg)
    | RestoreMode(mode: Reg, speed: Reg)

  /** The last operation: a restart, or a stop in which the receive control register
      held `mode` and the MDIO clock was set to `speed`. */
  datatype Setting = NotSet | Up(p: Params) | Down(mode: Reg, speed: Reg)

  /** `link`: the driver's idea of the link. `rmii`: the mode bit `fec_stop` read. `last`:
      the last operation that is over up to the open signal. */
  datatype Driver = Driver(pc: Pc, link: bool, rmii: Reg, last: Setting)

  /** `regs`: what was last written to each hardware register. */
  datatype System = System(trap: State, drv: Driver, regs: map<int, Reg>)

  /** `DriverStep(hw)` performs the driver's next access; `hw` is what the
      hardware returns if it is a read. MDIO writes and reads, and the event read
      of an MDIO timeout, may come at any time. */
  datatype Action =
    | Open(fullDuplex: bool, pause: bool, rcntl: Reg, ecntl: Reg, speed: Reg)
    | LinkUp(fullDuplex: bool, pause: bool, rcntl: Reg, ecntl: Reg, speed: Reg)
    | LinkDown(hw: Reg)
    | DriverStep(hw: Reg, speed: Reg)
    | MdioWrite(v: Reg)
    | MdioRead(hw: Reg)
    | MdioTimeout(hw: Reg)

  datatype Outcome = Refused | Panicked | Go(sys: System)

  const INITIAL := System(PROBED, Driver(Unopened, false, ZERO, NotSet), map[])

  function Put(t: State, off: int, v: Reg): Result { Access(t, Trapped(Write, off, v, 4)) }

  /** A register read: both traps, with the value the driver gets to see. */
  function Get(t: State, off: int, hw: Reg): Result {
    var r := Access(t, Trapped(ReadBefore, off, ZERO, 4));
    if r.verdict.Allowed? then Access(r.state, Trapped(ReadAfter, off, hw, 4)) else r
  }

  /** A write, after which the driver stands at `d`. */
  function Writes(s: System, off: int, v: Reg, d: Driver): Outcome {
    var r := Put(s.trap, off, v);
    if r.verdict.NwPanic? then Panicked
    else Go(System(r.state, d, if r.verdict.Allowed? then s.regs[off := r.verdict.value] else s.regs))
  }

  function Reads(s: System, off: int, hw: Reg, d: Driver): Outcome {
    var r := Get(s.trap, off, hw);
    if r.verdict.NwPanic? then Panicked else Go(System(r.state, d, s.regs))
  }

  predicate Restarting(pc: Pc) {
    || pc.ClearEvents? || pc.SetDuplex? || pc.SetSpeed? || pc.SetPause? || pc.SetRcntrl?
    || pc.SetEcntrl? || pc.SetImask? || pc.Announce?
  }

  predicate Stopping(pc: Pc) {
    || pc.GracefulStop? || pc.AwaitStop? || pc.ResetMac? || pc.MaskEvents?
    || pc.KeepSpeed? || pc.KeepEnabled? || pc.RestoreMode?
  }

  /** The driver's next access and where it stands after it. */
  datatype Move = Writing(off: int, v: Reg, next: Driver) | Reading(off: int, next: Driver)

  function MoveOf(d: Driver, speed: Reg): Move
    requires Restarting(d.pc) || Stopping(d.pc)
  {
    match d.pc
    case ClearEvents(p) => Writing(IEVENT, ALL_ONES, d.(pc := SetDuplex(p)))
    case SetDuplex(p) => Writing(X_CNTRL, if p.fullDuplex then FOUR else ZERO, d.(pc := SetSpeed(p)))
    case SetSpeed(p) => Writing(MII_SPEED, p.speed, d.(pc := if p.pause then SetPause(p) else SetRcntrl(p)))
    case SetPause(p) => Writing(R_FIFO_RSEM, RSEM_V, d.(pc := SetRcntrl(p)))
    case SetRcntrl(p) => Writing(R_CNTRL, p.rcntl, d.(pc := SetEcntrl(p)))
    case SetEcntrl(p) => Writing(ECNTRL, p.ecntl, d.(pc := SetImask(p)))
    case SetImask(p) =>
      Writing(IMASK, if p.link then DEFAULT_IMASK else EV_MII,
              d.(pc := if p.opening then Announce else Ready, last := Up(p)))
    case Announce => Writing(X_WMRK, OPEN_SIGNAL, d.(pc := Ready))
    case GracefulStop(m) => Writing(X_CNTRL, ONE, d.(pc := AwaitStop(m)))
    case AwaitStop(m) => Reading(IEVENT, d.(pc := ResetMac(m)))
    case ResetMac(m) => Writing(ECNTRL, ONE, d.(pc := MaskEvents(m)))
    case MaskEvents(m) => Writing(IMASK, EV_MII, d.(pc := KeepSpeed(m)))
    case KeepSpeed(m) => Writing(MII_SPEED, speed, d.(pc := KeepEnabled(m, speed)))
    case KeepEnabled(m, sp) => Writing(ECNTRL, TWO, d.(pc := RestoreMode(m, sp)))
    case RestoreMode(m, sp) => Writing(R_CNTRL, d.rmii, d.(pc := Ready, link := false, last := Down(m, sp)))
  }

  function DriverNext(s: System, hw: Reg, speed: Reg): Outcome {
    if !Restarting(s.drv.pc) && !Stopping(s.drv.pc) then Refused
    else
      match MoveOf(s.drv, speed)
      case Writing(off, v, next) => Writes(s, off, v, next)
      case Reading(off, next) => Reads(s, off, hw, next)
  }

  function Step(s: System, a: Action): Outcome {
    var d := s.drv;
    match a
    case Open(fd, pause, r, e, sp) =>
      if !d.pc.Unopened? then Refused
      else Writes(s, ECNTRL, ONE, d.(pc := ClearEvents(Params(true, fd, pause, r, e, sp, d.link))))
    case LinkUp(fd, pause, r, e, sp) =>
      if !d.pc.Ready? then Refused
      else Writes(s, ECNTRL, ONE, d.(pc := ClearEvents(Params(false, fd, pause, r, e, sp, true)), link := true))
    case LinkDown(hw) =>
      if !d.pc.Ready? || !d.link then Refused
      else
        var r := Get(s.trap, R_CNTRL, hw);
        var seen := if r.verdict.Allowed? then r.verdict.value else ZERO;
        Reads(s, R_CNTRL, hw, d.(pc := GracefulStop(hw), rmii := seen * RMII))
    case DriverStep(hw, speed) => DriverNext(s, hw, speed)
    case MdioWrite(v) => Writes(s, MII_DATA, v, d)
    case MdioRead(hw) => Reads(s, MII_DATA, hw, d)
    case MdioTimeout(hw) => Reads(s, IEVENT, hw, d)
  }

  function Run(s: System, actions: seq<Action>): Outcome
    decreases |actions|
  {
    if actions == [] then Go(s)
    else
      match Step(s, actions[0])
      case Go(t) => Run(t, actions[1..])
      case o => o
  }

  // --------------------------------------------------------------- simulation

  /** Where the handler stands while the driver is about to make its next
      access. During a graceful stop an MDIO timeout may already have taken the
      event read that the handler was waiting for. */
  ghost predicate Tracks(t: State, d: Driver) {
    match d.pc
    case Unopened => t.pri.Probed?
    case Ready => Live(t.pri) && t.sub.SubNone? && (t.pri.Running? <==> d.link)
    case ClearEvents(p) => t.sub.RestartReset? && InPhase(t, p, d)
    case SetDuplex(p) => t.sub.RestartInit? && InPhase(t, p, d)
    case SetSpeed(p) => t.sub.RestartMiiMode? && InPhase(t, p, d) && Duplex(t, p)
    case SetPause(p) => p.pause && t.sub.RestartMiiSpeed? && InPhase(t, p, d) && Duplex(t, p)
    case SetRcntrl(p) =>
      (if p.pause then t.sub.RestartFce? else t.sub.RestartMiiSpeed?) && InPhase(t, p, d) && Duplex(t, p)
    case SetEcntrl(p) => t.sub.RestartRcntrl? && InPhase(t, p, d)
    case SetImask(p) => t.sub.RestartEcntrl? && InPhase(t, p, d)
    case Announce => t.pri.PostOpen? && (t.sub.RestartImaskRun? <==> d.link)
    case GracefulStop(m) => t.sub.StopGetRmii? && InStop(t, d, m)
    case AwaitStop(m) => (t.sub.StopXmit? || t.sub.StopGetIevent?) && InStop(t, d, m)
    case ResetMac(m) => t.sub.StopGetIevent? && InStop(t, d, m)
    case MaskEvents(m) => t.sub.StopReset? && InStop(t, d, m)
    case KeepSpeed(m) => t.sub.StopMiiImask? && InStop(t, d, m)
    case KeepEnabled(m, _) => t.sub.StopMiiSpeed? && InStop(t, d, m)
    case RestoreMode(m, _) => t.sub.StopEcntrl? && InStop(t, d, m)
  }

  ghost predicate InStop(t: State, d: Driver, mode: Reg) {
    Live(t.pri) && t.rmii == d.rmii == mode * RMII
  }

  /** The pending secure bits agree with the duplex setting. */
  ghost predicate Duplex(t: State, p: Params) {
    t.rcntl == if p.fullDuplex then RCNTL_BASE else RCNTL_BASE + HALF_DUPLEX
  }

  ghost predicate InPhase(t: State, p: Params, d: Driver) {
    && (if p.opening then t.pri.Opening? else Live(t.pri) && p.link)
    && p.link == d.link
  }

  ghost predicate Sim(s: System) { Shaped(s.trap) && Tracks(s.trap, s.drv) }

  ghost predicate Sane(r: Result) { !r.verdict.NwPanic? ==> Shaped(r.state) }

  lemma PutIsGood(t: State, off: int, v: Reg)
    requires Shaped(t)
    ensures Sane(Put(t, off, v))
  {
    AccessKeepsInv(t, Trapped(Write, off, v, 4));
  }

  lemma GetIsGood(t: State, off: int, hw: Reg)
    requires Shaped(t)
    ensures Sane(Get(t, off, hw))
  {
    AccessKeepsInv(t, Trapped(ReadBefore, off, ZERO, 4));
    var r := Access(t, Trapped(ReadBefore, off, ZERO, 4));
    if r.verdict.Allowed? {
      AccessKeepsInv(r.state, Trapped(ReadAfter, off, hw, 4));
    }
  }

  lemma StepKeepsInv(s: System, a: Action)
    requires Shaped(s.trap) && Step(s, a).Go?
    ensures Shaped(Step(s, a).sys.trap)
  {
    var t := s.trap;
    forall off, v ensures Sane(Put(t, off, v)) {
      PutIsGood(t, off, v);
    }
    forall off, v ensures Sane(Get(t, off, v)) {
      GetIsGood(t, off, v);
    }
  }

  ghost predicate Tracked(o: Outcome) {
    o.Go? && Tracks(o.sys.trap, o.sys.drv)
  }

  /** The handler accepts every access of a restart. */
  lemma RestartIsTracked(s: System, hw: Reg, speed: Reg)
    requires Sim(s) && Restarting(s.drv.pc)
    ensures Tracked(DriverNext(s, hw, speed))
  {
    match s.drv.pc
    case ClearEvents(_) =>
    case SetDuplex(_) =>
    case SetSpeed(_) =>
    case SetPause(_) =>
    case SetRcntrl(_) =>
    case SetEcntrl(_) =>
    case SetImask(_) =>
    case Announce =>
  }

  /** The handler accepts every access of a stop. */
  lemma StopIsTracked(s: System, hw: Reg, speed: Reg)
    requires Sim(s) && Stopping(s.drv.pc)
    ensures Tracked(DriverNext(s, hw, speed))
  {
    match s.drv.pc
    case GracefulStop(_) =>
    case AwaitStop(_) =>
    case ResetMac(_) =>
    case MaskEvents(_) =>
    case KeepSpeed(_) =>
    case KeepEnabled(_, _) =>
    case RestoreMode(_, _) =>
  }

  lemma MdioIsTracked(s: System, a: Action)
    requires Sim(s) && (a.MdioWrite? || a.MdioRead? || a.MdioTimeout?)
    ensures Tracked(Step(s, a))
  {
    if a.MdioTimeout? && s.trap.sub.StopXmit? {
      assert s.drv.pc.AwaitStop?;
    }
  }

  /** The first access of every operation is accepted. */
  lemma OperationsAreTracked(s: System, a: Action)
    requires Sim(s) && (a.Open? || a.LinkUp? || a.LinkDown?)
    ensures Step(s, a).Refused? || Tracked(Step(s, a))
  {
    if a.LinkDown? {
      assert a.hw * RMII * RMII == a.hw * RMII;
    }
  }

  lemma StepKeepsSim(s: System, a: Action)
    requires Sim(s)
    ensures Step(s, a) != Panicked
    ensures Step(s, a).Go? ==> Sim(Step(s, a).sys)
  {
    match a {
      case DriverStep(hw, speed) =>
        if Stopping(s.drv.pc) {
          StopIsTracked(s, hw, speed);
        } else if Restarting(s.drv.pc) {
          RestartIsTracked(s, hw, speed);
        }
      case MdioWrite(_) => MdioIsTracked(s, a);
      case MdioRead(_) => MdioIsTracked(s, a);
      case MdioTimeout(_) => MdioIsTracked(s, a);
      case _ => OperationsAreTracked(s, a);
    }
    if Step(s, a).Go? {
      StepKeepsInv(s, a);
    }
  }

  lemma {:induction false} RunKeepsSim(s: System, actions: seq<Action>)
    requires Sim(s)
    ensures Run(s, actions) != Panicked
    ensures Run(s, actions).Go? ==> Sim(Run(s, actions).sys)
    decreases |actions|
  {
    if actions != [] {
      StepKeepsSim(s, actions[0]);
      if Step(s, actions[0]).Go? {
        RunKeepsSim(Step(s, actions[0]).sys, actions[1..]);
      }
    }
  }

  /** The driver is accepted: an open followed by any link changes, for any
      duplex, speed and pause setting and any values read back, with MDIO traffic
      anywhere, never panics; between operations the handler is back at rest,
      and running exactly when the driver has a link. */
  lemma DriverIsAccepted(actions: seq<Action>)
    ensures Run(INITIAL, actions) != Panicked
    ensures Run(INITIAL, actions).Go? ==>
              var s := Run(INITIAL, actions).sys;
              s.drv.pc.Ready? ==> Live(s.trap.pri) && s.trap.sub.SubNone? && (s.trap.pri.Running? <==> s.drv.link)
  {
    RunKeepsSim(INITIAL, actions);
  }

  /** The open must be complete: a link-change restart that starts before the
      driver's open signal has been written does panic. */
  lemma EarlyLinkChangePanics(s: System)
    requires Sim(s) && s.drv.pc.Announce?
    ensures Writes(s, ECNTRL, ONE, s.drv) == Panicked
  {
  }

  /** The accesses that an operation has left at most. */
  function Left(pc: Pc): nat {
    match pc
    case Unopened => 0
    case Ready => 0
    case ClearEvents(_) => 8
    case SetDuplex(_) => 7
    case SetSpeed(_) => 6
    case SetPause(_) => 5
    case SetRcntrl(_) => 4
    case SetEcntrl(_) => 3
    case SetImask(_) => 2
    case Announce => 1
    case GracefulStop(_) => 7
    case AwaitStop(_) => 6
    case ResetMac(_) => 5
    case MaskEvents(_) => 4
    case KeepSpeed(_) => 3
    case KeepEnabled(_, _) => 2
    case RestoreMode(_, _) => 1
  }

  lemma MoveLowers(d: Driver, speed: Reg)
    requires Restarting(d.pc) || Stopping(d.pc)
    ensures Left(MoveOf(d, speed).next.pc) < Left(d.pc) && !MoveOf(d, speed).next.pc.Unopened?
  {
  }

  lemma StepLowers(s: System, a: Action)
    requires Sim(s) && a.DriverStep? && !s.drv.pc.Unopened? && !s.drv.pc.Ready?
    ensures Step(s, a).Go? && Sim(Step(s, a).sys)
    ensures !Step(s, a).sys.drv.pc.Unopened? && Left(Step(s, a).sys.drv.pc) < Left(s.drv.pc)
  {
    StepKeepsSim(s, a);
    MoveLowers(s.drv, a.speed);
  }

  /** Every operation that has begun ends after at most eight accesses, whatever is read. */
  lemma {:induction false} OperationEnds(s: System, inputs: seq<(Reg, Reg)>) returns (n: nat)
    requires Sim(s) && !s.drv.pc.Unopened? && |inputs| >= Left(s.drv.pc)
    ensures n <= Left(s.drv.pc)
    ensures var o := Run(s, Steps(inputs[..n])); o.Go? && Sim(o.sys) && o.sys.drv.pc.Ready?
    decreases Left(s.drv.pc)
  {
    if s.drv.pc.Ready? {
      n := 0;
    } else {
      var a := DriverStep(inputs[0].0, inputs[0].1);
      StepLowers(s, a);
      var k := OperationEnds(Step(s, a).sys, inputs[1..]);
      n := k + 1;
      assert inputs[..n][1..] == inputs[1..][..k];
      assert Steps(inputs[..n]) == [a] + Steps(inputs[1..][..k]);
    }
  }

  /** Driver steps that get these values from the hardware and these speeds. */
  function Steps(inputs: seq<(Reg, Reg)>): seq<Action> {
    seq(|inputs|, i requires 0 <= i < |inputs| => DriverStep(inputs[i].0, inputs[i].1))
  }

  // ---------------------------------------------------------------- registers

  ghost predicate Holds(regs: map<int, Reg>, off: int, v: Reg) { off in regs && regs[off] == v }

  /** What the receive control register is to hold: the maximum frame size, MII mode and
      the length check, flow control if pause frames are on, the half-duplex bit if
      the link is not full duplex, and the driver's choice of the bits 6, 8 and 9. */
  ghost function ReceiveControl(p: Params): Reg {
    p.rcntl * {6, 8, 9} + {2, 22, 23, 24, 25, 26, 30}
    + (if p.pause then {5} else {}) + (if p.fullDuplex then {} else {1})
  }

  /** The first `n` registers of a restart are set as its parameters say. */
  ghost predicate SetUp(regs: map<int, Reg>, p: Params, n: nat) {
    && (n >= 1 ==> Holds(regs, X_CNTRL, if p.fullDuplex then {2} else {}))
    && (n >= 2 ==> Holds(regs, MII_SPEED, p.speed))
    && (n >= 3 && p.pause ==> Holds(regs, R_FIFO_RSEM, {2, 7}))
    && (n >= 4 ==> Holds(regs, R_CNTRL, ReceiveControl(p)))
    && (n >= 5 ==> Holds(regs, ECNTRL, p.ecntl * {5} + {1, 8}))
    && (n >= 6 ==> Holds(regs, IMASK, if p.link then {1, 3, 5, 7, 23, 25, 27} else {23}))
  }

  /** And those of a stop. */
  ghost predicate SetDown(regs: map<int, Reg>, mode: Reg, speed: Reg, n: nat) {
    && (n >= 1 ==> Holds(regs, X_CNTRL, {0}))
    && (n >= 2 ==> Holds(regs, IMASK, {23}))
    && (n >= 3 ==> Holds(regs, MII_SPEED, speed))
    && (n >= 4 ==> Holds(regs, ECNTRL, {1}))
    && (n >= 5 ==> Holds(regs, R_CNTRL, mode * {8}))
  }

  ghost predicate RegsFit(s: System) {
    match s.drv.pc
    case SetSpeed(p) => SetUp(s.regs, p, 1)
    case SetPause(p) => SetUp(s.regs, p, 2)
    case SetRcntrl(p) => SetUp(s.regs, p, 3)
    case SetEcntrl(p) => SetUp(s.regs, p, 4)
    case SetImask(p) => SetUp(s.regs, p, 5)
    case AwaitStop(m) => SetDown(s.regs, m, {}, 1)
    case ResetMac(m) => SetDown(s.regs, m, {}, 1)
    case MaskEvents(m) => SetDown(s.regs, m, {}, 1)
    case KeepSpeed(m) => SetDown(s.regs, m, {}, 2)
    case KeepEnabled(m, speed) => SetDown(s.regs, m, speed, 3)
    case RestoreMode(m, speed) => SetDown(s.regs, m, speed, 4)
    case Announce => s.drv.last.Up? && LastFits(s)
    case Ready => LastFits(s)
    case _ => true
  }

  /** The registers are set as the last operation requires. */
  ghost predicate LastFits(s: System) {
    match s.drv.last
    case NotSet => false
    case Up(p) => p.link == s.drv.link && SetUp(s.regs, p, 6)
    case Down(mode, speed) => !s.drv.link && SetDown(s.regs, mode, speed, 5)
  }

  /** What the next write is to put into its register. */
  ghost function Commit(d: Driver, speed: Reg): Reg
    requires (Restarting(d.pc) || Stopping(d.pc)) && MoveOf(d, speed).Writing?
  {
    match d.pc
    case SetRcntrl(p) => ReceiveControl(p)
    case SetEcntrl(p) => p.ecntl * {5} + {1, 8}
    case _ => MoveOf(d, speed).v
  }

  lemma RcntrlCommits(t: State, p: Params, d: Driver)
    requires Shaped(t) && InPhase(t, p, d) && Duplex(t, p)
    requires if p.pause then t.sub.RestartFce? else t.sub.RestartMiiSpeed?
    ensures Put(t, R_CNTRL, p.rcntl).verdict == Allowed(ReceiveControl(p))
  {
    FecScripts.MergedBits(p.rcntl, p.fullDuplex);
    assert Put(t, R_CNTRL, p.rcntl) == RestartStep(t, R_CNTRL, p.rcntl);
  }

  lemma EcntrlCommits(t: State, p: Params, d: Driver)
    requires Shaped(t) && InPhase(t, p, d) && t.sub.RestartRcntrl?
    ensures Put(t, ECNTRL, p.ecntl).verdict == Allowed(p.ecntl * {5} + {1, 8})
  {
    assert p.ecntl * SPEED_1000 + (ETHEREN + ENDIAN_SWAP) == p.ecntl * {5} + {1, 8};
    assert Put(t, ECNTRL, p.ecntl) == RestartStep(t, ECNTRL, p.ecntl);
  }

  /** Every write of the driver is carried out with the intended value. */
  lemma WriteCommits(s: System, speed: Reg)
    requires Sim(s) && (Restarting(s.drv.pc) || Stopping(s.drv.pc)) && MoveOf(s.drv, speed).Writing?
    ensures var m := MoveOf(s.drv, speed);
            Put(s.trap, m.off, m.v).verdict == if m.off == X_WMRK then Denied else Allowed(Commit(s.drv, speed))
  {
    match s.drv.pc
    case SetRcntrl(p) => RcntrlCommits(s.trap, p, s.drv);
    case SetEcntrl(p) => EcntrlCommits(s.trap, p, s.drv);
    case _ =>
  }

  /** The registers after the next move. */
  ghost function Regs(s: System, speed: Reg): map<int, Reg>
    requires Restarting(s.drv.pc) || Stopping(s.drv.pc)
  {
    var m := MoveOf(s.drv, speed);
    if m.Reading? || m.off == X_WMRK then s.regs else s.regs[m.off := Commit(s.drv, speed)]
  }

  lemma RestartSets(s: System, t: State, speed: Reg)
    requires RegsFit(s) && Restarting(s.drv.pc) && Tracks(s.trap, s.drv)
    ensures RegsFit(System(t, MoveOf(s.drv, speed).next, Regs(s, speed)))
  {
  }

  lemma StopSets(s: System, t: State, speed: Reg)
    requires RegsFit(s) && Stopping(s.drv.pc) && Tracks(s.trap, s.drv)
    ensures RegsFit(System(t, MoveOf(s.drv, speed).next, Regs(s, speed)))
  {
  }

  lemma DriverSets(s: System, hw: Reg, speed: Reg)
    requires Sim(s) && RegsFit(s) && DriverNext(s, hw, speed).Go?
    ensures RegsFit(DriverNext(s, hw, speed).sys)
  {
    if Restarting(s.drv.pc) {
      RestartSets(s, DriverNext(s, hw, speed).sys.trap, speed);
    } else {
      StopSets(s, DriverNext(s, hw, speed).sys.trap, speed);
    }
    if MoveOf(s.drv, speed).Writing? {
      WriteCommits(s, speed);
    }
  }

  lemma OthersSet(s: System, a: Action)
    requires Sim(s) && RegsFit(s) && !a.DriverStep? && Step(s, a).Go?
    ensures RegsFit(Step(s, a).sys)
  {
    StepKeepsSim(s, a);
  }

  lemma {:induction false} RunKeepsRegs(s: System, actions: seq<Action>)
    requires Sim(s) && RegsFit(s) && Run(s, actions).Go?
    ensures RegsFit(Run(s, actions).sys)
    decreases |actions|
  {
    if actions != [] {
      var a := actions[0];
      StepKeepsSim(s, a);
      if a.DriverStep? {
        DriverSets(s, a.hw, a.speed);
      } else {
        OthersSet(s, a);
      }
      RunKeepsRegs(Step(s, a).sys, actions[1..]);
    }
  }

  /** The interface is configured as the driver wants it: whatever link changes and MDIO traffic
      have come and whatever was read back, between operations every register holds what the
      last operation's parameters say, up to the secure bits. */
  lemma RegistersAreSet(actions: seq<Action>)
    requires Run(INITIAL, actions).Go? && Run(INITIAL, actions).sys.drv.pc.Ready?
    ensures LastFits(Run(INITIAL, actions).sys)
  {
    RunKeepsRegs(INITIAL, actions);
  }
}
