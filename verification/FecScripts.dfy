/** What the trap handler lets through, in terms of whole operations: the scripts of
    register accesses that make up a restart and a stop, and what each access is to
    put on the bus. The handler is proved to follow exactly these scripts. */
module FecScripts {
  import opened FecTraps

  /** An operation, with the values that the normal world or the hardware chooses.
      `mode` and `events` are what the hardware returns. */
  datatype Script =
    | Restart(opening: bool, full: bool, pause: bool, speed: Reg, rcntl: Reg, ecntl: Reg, link: bool)
    | Stop(graceful: bool, mode: Reg, events: Reg, keptSpeed: Reg)

  function Put(offset: int, v: Reg): Trapped { Trapped(Write, offset, v, 4) }

  function Got(offset: int, v: Reg): Trapped { Trapped(ReadAfter, offset, v, 4) }

  /** The accesses of an operation, in order. */
  function Accesses(x: Script): seq<Trapped> {
    match x
    case Restart(opening, full, pause, speed, rcntl, ecntl, link) =>
      [Put(ECNTRL, {0}), Put(IEVENT, ALL_ONES), Put(X_CNTRL, if full then {2} else {}), Put(MII_SPEED, speed)]
      + (if pause then [Put(R_FIFO_RSEM, {2, 7})] else [])
      + [Put(R_CNTRL, rcntl), Put(ECNTRL, ecntl), Put(IMASK, if link then {1, 3, 5, 7, 23, 25, 27} else {23})]
      + (if opening then [Put(X_WMRK, {0, 1, 2, 3, 5})] else [])
    case Stop(graceful, mode, events, keptSpeed) =>
      [Got(R_CNTRL, mode)]
      + (if graceful then [Put(X_CNTRL, {0}), Got(IEVENT, events)] else [])
      + [Put(ECNTRL, {0}), Put(IMASK, {23}), Put(MII_SPEED, keptSpeed), Put(ECNTRL, {1}),
         Put(R_CNTRL, mode * {8})]
  }

  /** What access `k` writes to the register, or for a read, reveals. In a restart the
      receive control register gets the maximum frame size, MII mode and the length check,
      flow control if pause frames are on and the half-duplex bit if the link is not
      full duplex; of the request only the bits 6, 8 and 9 remain. */
  function Committed(x: Script, k: nat): Reg
    requires k < |Accesses(x)|
  {
    var a := Accesses(x)[k];
    match x
    case Restart(_, full, pause, _, rcntl, ecntl, _) =>
      if a.offset == R_CNTRL then
        rcntl * {6, 8, 9} + {2, 22, 23, 24, 25, 26, 30} + (if pause then {5} else {}) + (if full then {} else {1})
      else if a.offset == ECNTRL && k > 0 then ecntl * {5} + {1, 8}
      else a.value
    case Stop(_, mode, events, _) =>
      if k == 0 then mode * {8} else if a.kind.ReadAfter? then events * {28} else a.value
  }

  /** Which operations may come: first an open; then restarts that bring the link up, and stops. */
  predicate Legal(x: Script, isOpen: bool) {
    match x
    case Restart(opening, _, _, _, _, _, link) => opening == !isOpen && (opening || link)
    case Stop(_, _, _, _) => isOpen
  }

  /** How far the normal world has got: the interface was opened, a shutdown was
      announced, and the accesses of the operation under way. */
  datatype Progress = Progress(isOpen: bool, down: bool, log: seq<Trapped>)

  const START := Progress(false, false, [])

  /** The handler waits for the event register to be read. */
  predicate Awaiting(g: Progress) { |g.log| == 2 && g.log[1] == Put(X_CNTRL, {0}) }

  /** Accesses that are let through but do not belong to an operation. */
  predicate Passing(g: Progress, a: Trapped) {
    || a.offset == MII_DATA
    || (a.offset == IEVENT && (a.kind.ReadBefore? || (a.kind.ReadAfter? && !Awaiting(g))))
    || (a.offset == MII_SPEED && a.kind.Write? && !g.isOpen && g.log == [])
    || (a.offset == R_CNTRL && a.kind.ReadBefore? && g.isOpen && !g.down && g.log == [])
  }

  /** What such an access writes or reveals. */
  function PassingValue(a: Trapped): Reg {
    if !a.kind.ReadAfter? then a.value
    else if a.offset == IEVENT then a.value * {23}
    else a.value * {0, 1, 2, 3, 4, 5, 6, 7, 8, 9, 10, 11, 12, 13, 14, 15}
  }

  predicate AnnouncesShutdown(g: Progress, a: Trapped) {
    g.isOpen && !g.down && g.log == [] && a == Put(X_WMRK, {4, 5})
  }

  /** The access is the next one of script `x`. */
  predicate NextOf(g: Progress, a: Trapped, x: Script) {
    !g.down && Legal(x, g.isOpen) && g.log + [a] <= Accesses(x)
  }

  /** ... and its last. */
  ghost predicate Completes(g: Progress, a: Trapped) {
    exists x :: NextOf(g, a, x) && g.log + [a] == Accesses(x)
  }

  ghost function After(g: Progress, a: Trapped): Progress {
    if a.size != 4 || Passing(g, a) then g
    else if AnnouncesShutdown(g, a) then g.(down := true)
    else if Completes(g, a) then Progress(true, false, [])
    else g.(log := g.log + [a])
  }

  ghost function AfterAll(g: Progress, accesses: seq<Trapped>): Progress
    decreases |accesses|
  {
    if accesses == [] then g else AfterAll(After(g, accesses[0]), accesses[1..])
  }

  // ----------------------------------------------------------- the handler's state

  ghost predicate InRestart(log: seq<Trapped>) { log != [] && log[0].kind.Write? }

  /** The sub-state that the accesses of an operation lead to. */
  ghost function SubAt(log: seq<Trapped>): Sub {
    if log == [] then SubNone
    else
      var last := log[|log| - 1];
      if InRestart(log) then
        if |log| == 1 then RestartReset
        else if last.offset == IEVENT then RestartInit
        else if last.offset == X_CNTRL then RestartMiiMode
        else if last.offset == MII_SPEED then RestartMiiSpeed
        else if last.offset == R_FIFO_RSEM then RestartFce
        else if last.offset == R_CNTRL then RestartRcntrl
        else if last.offset == ECNTRL then RestartEcntrl
        else if last.value == EV_MII then RestartImaskMii
        else RestartImaskRun
      else
      if |log| == 1 then StopGetRmii
      else if last.offset == X_CNTRL then StopXmit
      else if last.offset == IEVENT then StopGetIevent
      else if last.offset == IMASK then StopMiiImask
      else if last.offset == MII_SPEED then StopMiiSpeed
      else if last.value == ONE then StopReset
      else StopEcntrl
  }

  /** The pending secure bits. */
  ghost function RcntlAt(log: seq<Trapped>): Reg {
    var sub := SubAt(log);
    if sub.RestartReset? || sub.RestartInit? then RCNTL_BASE
    else if (sub.RestartMiiMode? || sub.RestartMiiSpeed? || sub.RestartFce?) && |log| > 2 then
      if log[2].value == ZERO then RCNTL_BASE + HALF_DUPLEX else RCNTL_BASE
    else ZERO
  }

  ghost function EcntlAt(log: seq<Trapped>): Reg {
    var sub := SubAt(log);
    if InRestart(log) && !sub.RestartEcntrl? && !sub.RestartImaskRun? && !sub.RestartImaskMii? then ETHEREN else ZERO
  }

  ghost function RmiiAt(log: seq<Trapped>): Reg {
    if log == [] || InRestart(log) then ZERO else log[0].value * RMII
  }

  ghost predicate PhaseAt(pri: Primary, g: Progress) {
    if g.isOpen then if g.down then pri.ShuttingDown? && g.log == [] else Live(pri)
    else if g.log == [] then pri.Probed?
    else if SubAt(g.log).RestartImaskRun? || SubAt(g.log).RestartImaskMii? then pri.PostOpen?
    else pri.Opening?
  }

  /** The accesses so far begin a legal operation that is not over. */
  ghost predicate Under(g: Progress, x: Script) { Legal(x, g.isOpen) && g.log < Accesses(x) }

  /** The handler's state is what the progress says. */
  ghost predicate Stands(s: State, g: Progress) {
    PhaseAt(s.pri, g) && s == State(s.pri, SubAt(g.log), RcntlAt(g.log), EcntlAt(g.log), RmiiAt(g.log))
  }

  ghost predicate At(s: State, g: Progress) {
    Stands(s, g) && (g.down ==> g.isOpen && g.log == []) && exists x :: Under(g, x)
  }

  /** The next access of `x` is let through with what the script commits, and the handler has moved on. */
  ghost predicate Advanced(r: Result, g: Progress, x: Script)
    requires Under(g, x)
  {
    var a := Accesses(x)[|g.log|];
    && r.verdict == (if a.offset == X_WMRK then Denied else Allowed(Committed(x, |g.log|)))
    && Stands(r.state, if g.log + [a] == Accesses(x) then Progress(true, false, []) else g.(log := g.log + [a]))
  }

  // ------------------------------------------------------------------- a restart

  /** Which of the nine accesses of a restart is number `k`: the pause setting may be left out. */
  ghost function Place(x: Script, k: nat): nat
    requires x.Restart?
  {
    if x.pause || k < 4 then k else k + 1
  }

  ghost function RestartAccess(x: Script, place: nat): Trapped
    requires x.Restart?
  {
    match place
    case 0 => Put(ECNTRL, ONE)
    case 1 => Put(IEVENT, ALL_ONES)
    case 2 => Put(X_CNTRL, if x.full then FOUR else ZERO)
    case 3 => Put(MII_SPEED, x.speed)
    case 4 => Put(R_FIFO_RSEM, RSEM_V)
    case 5 => Put(R_CNTRL, x.rcntl)
    case 6 => Put(ECNTRL, x.ecntl)
    case 7 => Put(IMASK, if x.link then DEFAULT_IMASK else EV_MII)
    case _ => Put(X_WMRK, OPEN_SIGNAL)
  }

  ghost function RestartSub(x: Script, place: nat): Sub
    requires x.Restart?
  {
    match place
    case 0 => SubNone
    case 1 => RestartReset
    case 2 => RestartInit
    case 3 => RestartMiiMode
    case 4 => RestartMiiSpeed
    case 5 => if x.pause then RestartFce else RestartMiiSpeed
    case 6 => RestartRcntrl
    case 7 => RestartEcntrl
    case _ => if x.link then RestartImaskRun else RestartImaskMii
  }

  ghost function RestartRcntl(x: Script, place: nat): Reg
    requires x.Restart?
  {
    if 3 <= place <= 5 && !x.full then RCNTL_BASE + HALF_DUPLEX else if 1 <= place <= 5 then RCNTL_BASE else ZERO
  }

  lemma RestartForm(x: Script)
    requires x.Restart?
    ensures |Accesses(x)| == (if x.pause then 8 else 7) + (if x.opening then 1 else 0)
    ensures forall k :: 0 <= k < |Accesses(x)| ==> Accesses(x)[k] == RestartAccess(x, Place(x, k))
  {
  }

  lemma RestartPlace(x: Script, log: seq<Trapped>)
    requires x.Restart? && log < Accesses(x)
    ensures var place := Place(x, |log|);
            && SubAt(log) == RestartSub(x, place) && RcntlAt(log) == RestartRcntl(x, place)
            && EcntlAt(log) == (if 1 <= place <= 6 then ETHEREN else ZERO) && RmiiAt(log) == ZERO
  {
    RestartForm(x);
    if log != [] {
      assert log[0] == RestartAccess(x, 0) && log[|log| - 1] == RestartAccess(x, Place(x, |log| - 1));
    }
    if |log| > 2 {
      assert log[2] == RestartAccess(x, 2);
    }
  }

  ghost function RestartState(pri: Primary, x: Script, place: nat): State
    requires x.Restart?
  {
    State(pri, RestartSub(x, place), RestartRcntl(x, place), if 1 <= place <= 6 then ETHEREN else ZERO, ZERO)
  }

  ghost predicate RestartPhase(pri: Primary, x: Script, place: nat)
    requires x.Restart?
  {
    if !x.opening then Live(pri) && place <= 7
    else if place == 0 then pri.Probed?
    else if place <= 7 then pri.Opening?
    else pri.PostOpen? && place == 8
  }

  ghost function RestartCommit(x: Script, place: nat): Reg
    requires x.Restart?
  {
    match place
    case 5 =>
      x.rcntl * {6, 8, 9} + {2, 22, 23, 24, 25, 26, 30} + (if x.pause then {5} else {}) + (if x.full then {} else {1})
    case 6 => x.ecntl * {5} + {1, 8}
    case _ => RestartAccess(x, place).value
  }

  ghost function RestartLength(x: Script): nat
    requires x.Restart?
  {
    (if x.pause then 8 else 7) + (if x.opening then 1 else 0)
  }

  lemma RestartCommits(x: Script, k: nat)
    requires x.Restart? && k < |Accesses(x)|
    ensures |Accesses(x)| == RestartLength(x) && Accesses(x)[k] == RestartAccess(x, Place(x, k))
    ensures Committed(x, k) == RestartCommit(x, Place(x, k))
  {
    RestartForm(x);
  }

  lemma NextLog(g: Progress, x: Script)
    requires Under(g, x)
    ensures var log := g.log + [Accesses(x)[|g.log|]];
            |log| == |g.log| + 1 && if |log| < |Accesses(x)| then log < Accesses(x) else log == Accesses(x)
  {
  }

  /** The handler takes access `k` of a restart. */
  ghost predicate RestartGoes(r: Result, x: Script, k: nat)
    requires x.Restart?
  {
    && r.verdict == (if Place(x, k) == 8 then Denied else Allowed(RestartCommit(x, Place(x, k))))
    && if k + 1 < RestartLength(x) then
         r.state == RestartState(r.state.pri, x, Place(x, k + 1)) && RestartPhase(r.state.pri, x, Place(x, k + 1))
       else
         r.state == State(r.state.pri, SubNone, ZERO, ZERO, ZERO) && Live(r.state.pri)
  }

  lemma MergedBits(v: Reg, full: bool)
    ensures var secure := if full then RCNTL_BASE else RCNTL_BASE + HALF_DUPLEX;
            var half := if full then {} else {1};
            && v * RCNTL_NW_BITS + (secure + RCNTL_CHECKS - FCE)
               == v * {6, 8, 9} + {2, 22, 23, 24, 25, 26, 30} + {} + half
            && v * RCNTL_NW_BITS + (secure + RCNTL_CHECKS + FCE)
               == v * {6, 8, 9} + {2, 22, 23, 24, 25, 26, 30} + {5} + half
  {
  }

  lemma RcntrlGoes(pri: Primary, x: Script, k: nat)
    requires x.Restart? && (x.opening || x.link) && RestartPhase(pri, x, 5) && Place(x, k) == 5
    ensures RestartGoes(Access(RestartState(pri, x, 5), RestartAccess(x, 5)), x, k)
  {
    MergedBits(x.rcntl, x.full);
    var s := RestartState(pri, x, 5);
    var r := RestartStep(s, R_CNTRL, x.rcntl);
    assert r.verdict == Allowed(RestartCommit(x, 5));
    assert Access(s, RestartAccess(x, 5)) == r;
  }

  lemma EcntrlGoes(pri: Primary, x: Script, k: nat)
    requires x.Restart? && (x.opening || x.link) && RestartPhase(pri, x, 6) && Place(x, k) == 6
    ensures RestartGoes(Access(RestartState(pri, x, 6), RestartAccess(x, 6)), x, k)
  {
    assert x.ecntl * SPEED_1000 + (ETHEREN + ENDIAN_SWAP) == x.ecntl * {5} + {1, 8};
  }

  lemma OthersGo(pri: Primary, x: Script, k: nat)
    requires x.Restart? && (x.opening || x.link) && k < RestartLength(x) && RestartPhase(pri, x, Place(x, k))
    requires Place(x, k) != 5 && Place(x, k) != 6
    ensures RestartGoes(Access(RestartState(pri, x, Place(x, k)), RestartAccess(x, Place(x, k))), x, k)
  {
  }

  lemma RestartStands(s: State, g: Progress, x: Script)
    requires Under(g, x) && !g.down && x.Restart?
    ensures Stands(s, g) <==>
            s == RestartState(s.pri, x, Place(x, |g.log|)) && RestartPhase(s.pri, x, Place(x, |g.log|))
  {
    RestartForm(x);
    RestartPlace(x, g.log);
  }

  lemma RestartMovesOn(r: Result, g: Progress, x: Script)
    requires Under(g, x) && !g.down && x.Restart? && RestartGoes(r, x, |g.log|)
    ensures Advanced(r, g, x)
  {
    var k := |g.log|;
    RestartCommits(x, k);
    NextLog(g, x);
    if k + 1 < |Accesses(x)| {
      RestartStands(r.state, g.(log := g.log + [Accesses(x)[k]]), x);
    }
  }

  lemma RestartAdvances(s: State, g: Progress, x: Script)
    requires Under(g, x) && Stands(s, g) && !g.down && x.Restart?
    ensures Advanced(Access(s, Accesses(x)[|g.log|]), g, x)
  {
    var k := |g.log|;
    RestartForm(x);
    RestartStands(s, g, x);
    if Place(x, k) == 5 {
      RcntrlGoes(s.pri, x, k);
    } else if Place(x, k) == 6 {
      EcntrlGoes(s.pri, x, k);
    } else {
      OthersGo(s.pri, x, k);
    }
    RestartMovesOn(Access(s, Accesses(x)[k]), g, x);
  }

  lemma AwaitingInSub(g: Progress, x: Script)
    requires Under(g, x)
    ensures SubAt(g.log).StopXmit? <==> Awaiting(g)
  {
    if x.Restart? {
      RestartForm(x);
    } else {
      StopForm(x);
    }
  }

  /** What the handler may take in a restart. */
  ghost predicate RestartOffer(x: Script, place: nat, a: Trapped)
    requires x.Restart?
  {
    match place
    case 1 => a == Put(IEVENT, ALL_ONES)
    case 2 => a == Put(X_CNTRL, FOUR) || a == Put(X_CNTRL, ZERO)
    case 3 => a == Put(MII_SPEED, a.value)
    case 4 => a == Put(R_FIFO_RSEM, RSEM_V) || a == Put(R_CNTRL, a.value)
    case 5 => a == Put(R_CNTRL, a.value) || (!x.pause && a == Put(R_FIFO_RSEM, RSEM_V))
    case 6 => a == Put(ECNTRL, a.value)
    case 7 => a == Put(IMASK, DEFAULT_IMASK) || (x.opening && a == Put(IMASK, EV_MII))
    case _ => a == Put(X_WMRK, OPEN_SIGNAL)
  }

  lemma RestartTakes(pri: Primary, x: Script, place: nat, a: Trapped)
    requires x.Restart? && RestartPhase(pri, x, place) && place > 0
    requires a.size == 4 && !a.kind.ReadBefore? && a.offset != MII_DATA && (a.offset == IEVENT ==> !a.kind.ReadAfter?)
    requires !Access(RestartState(pri, x, place), a).verdict.NwPanic?
    ensures RestartOffer(x, place, a)
  {
  }

  /** An access in a restart that is not refused is the next one of some script. */
  lemma RestartChoice(x: Script, k: nat, a: Trapped) returns (y: Script)
    requires x.Restart? && (x.opening || x.link) && 0 < k < RestartLength(x) && RestartOffer(x, Place(x, k), a)
    ensures y.Restart? && y.opening == x.opening && (y.opening || y.link)
    ensures forall i :: 0 <= i < k ==> RestartAccess(y, Place(y, i)) == RestartAccess(x, Place(x, i))
    ensures a == RestartAccess(y, Place(y, k)) && k < RestartLength(y)
  {
    y := if k == 4 && a.offset != R_CNTRL then x.(pause := true)
    else
      match Place(x, k)
      case 2 => x.(full := a.value == FOUR)
      case 3 => x.(speed := a.value)
      case 4 => x.(pause := false, rcntl := a.value)
      case 5 => x.(rcntl := a.value)
      case 6 => x.(ecntl := a.value)
      case 7 => x.(link := a.value == DEFAULT_IMASK)
      case _ => x;
  }

  lemma RestartIsNext(g: Progress, x: Script, y: Script, a: Trapped)
    requires Under(g, x) && !g.down && x.Restart? && y.Restart? && y.opening == x.opening && (y.opening || y.link)
    requires forall i :: 0 <= i < |g.log| ==> RestartAccess(y, Place(y, i)) == RestartAccess(x, Place(x, i))
    requires a == RestartAccess(y, Place(y, |g.log|)) && |g.log| < RestartLength(y)
    ensures NextOf(g, a, y)
  {
    RestartForm(x);
    RestartForm(y);
  }

  lemma RestartFits(s: State, g: Progress, x: Script, a: Trapped) returns (y: Script)
    requires Under(g, x) && Stands(s, g) && !g.down && x.Restart? && g.log != []
    requires a.size == 4 && !Passing(g, a) && !Access(s, a).verdict.NwPanic?
    ensures NextOf(g, a, y)
  {
    RestartForm(x);
    RestartStands(s, g, x);
    AwaitingInSub(g, x);
    RestartTakes(s.pri, x, Place(x, |g.log|), a);
    y := RestartChoice(x, |g.log|, a);
    RestartIsNext(g, x, y, a);
  }

  // ---------------------------------------------------------------------- a stop

  /** Which of the eight accesses of a stop is number `k`: the graceful part may be left out. */
  ghost function StopPlace(x: Script, k: nat): nat
    requires x.Stop?
  {
    if x.graceful || k < 1 then k else k + 2
  }

  ghost function StopAccess(x: Script, place: nat): Trapped
    requires x.Stop?
  {
    match place
    case 0 => Got(R_CNTRL, x.mode)
    case 1 => Put(X_CNTRL, ONE)
    case 2 => Got(IEVENT, x.events)
    case 3 => Put(ECNTRL, ONE)
    case 4 => Put(IMASK, EV_MII)
    case 5 => Put(MII_SPEED, x.keptSpeed)
    case 6 => Put(ECNTRL, TWO)
    case _ => Put(R_CNTRL, x.mode * RMII)
  }

  ghost function StopSub(x: Script, place: nat): Sub
    requires x.Stop?
  {
    match place
    case 0 => SubNone
    case 1 => StopGetRmii
    case 2 => StopXmit
    case 3 => if x.graceful then StopGetIevent else StopGetRmii
    case 4 => StopReset
    case 5 => StopMiiImask
    case 6 => StopMiiSpeed
    case _ => StopEcntrl
  }

  ghost function StopLength(x: Script): nat
    requires x.Stop?
  {
    if x.graceful then 8 else 6
  }

  ghost function StopState(pri: Primary, x: Script, place: nat): State
    requires x.Stop?
  {
    State(pri, StopSub(x, place), ZERO, ZERO, if place == 0 then ZERO else x.mode * RMII)
  }

  lemma StopForm(x: Script)
    requires x.Stop?
    ensures |Accesses(x)| == StopLength(x)
    ensures forall k :: 0 <= k < |Accesses(x)| ==> Accesses(x)[k] == StopAccess(x, StopPlace(x, k))
  {
  }

  lemma StopPlaced(x: Script, log: seq<Trapped>)
    requires x.Stop? && log < Accesses(x)
    ensures SubAt(log) == StopSub(x, StopPlace(x, |log|))
    ensures RcntlAt(log) == ZERO && EcntlAt(log) == ZERO && RmiiAt(log) == if log == [] then ZERO else x.mode * RMII
  {
    StopForm(x);
    if log != [] {
      assert log[0] == StopAccess(x, 0) && log[|log| - 1] == StopAccess(x, StopPlace(x, |log| - 1));
    }
  }

  lemma StopStands(s: State, g: Progress, x: Script)
    requires Under(g, x) && !g.down && x.Stop?
    ensures Stands(s, g) <==> s == StopState(s.pri, x, StopPlace(x, |g.log|)) && Live(s.pri)
  {
    StopPlaced(x, g.log);
  }

  /** The handler takes access `k` of a stop. */
  ghost predicate StopGoes(r: Result, x: Script, k: nat)
    requires x.Stop?
  {
    && Live(r.state.pri)
    && r.verdict == Allowed(match StopPlace(x, k)
                            case 0 => x.mode * {8}
                            case 2 => x.events * {28}
                            case _ => StopAccess(x, StopPlace(x, k)).value)
    && r.state == if k + 1 < StopLength(x) then StopState(r.state.pri, x, StopPlace(x, k + 1))
                  else State(r.state.pri, SubNone, ZERO, ZERO, ZERO)
  }

  lemma StopIsTaken(pri: Primary, x: Script, k: nat)
    requires x.Stop? && k < StopLength(x) && Live(pri)
    ensures StopGoes(Access(StopState(pri, x, StopPlace(x, k)), StopAccess(x, StopPlace(x, k))), x, k)
  {
  }

  lemma StopMovesOn(r: Result, g: Progress, x: Script)
    requires Under(g, x) && !g.down && x.Stop? && StopGoes(r, x, |g.log|)
    ensures Advanced(r, g, x)
  {
    var k := |g.log|;
    StopForm(x);
    NextLog(g, x);
    if k + 1 < |Accesses(x)| {
      StopStands(r.state, g.(log := g.log + [Accesses(x)[k]]), x);
    }
  }

  lemma StopAdvances(s: State, g: Progress, x: Script)
    requires Under(g, x) && Stands(s, g) && !g.down && x.Stop?
    ensures Advanced(Access(s, Accesses(x)[|g.log|]), g, x)
  {
    StopForm(x);
    StopStands(s, g, x);
    StopIsTaken(s.pri, x, |g.log|);
    StopMovesOn(Access(s, Accesses(x)[|g.log|]), g, x);
  }

  /** An access in a stop that is not refused is the next one of some script. */
  lemma StopChoice(pri: Primary, x: Script, k: nat, a: Trapped) returns (y: Script)
    requires x.Stop? && 0 < k < StopLength(x) && Live(pri)
    requires a.size == 4 && !a.kind.ReadBefore? && a.offset != MII_DATA
    requires a.offset == IEVENT && a.kind.ReadAfter? ==> StopSub(x, StopPlace(x, k)).StopXmit?
    requires !Access(StopState(pri, x, StopPlace(x, k)), a).verdict.NwPanic?
    ensures y.Stop? && forall i :: 0 <= i < k ==> StopAccess(y, StopPlace(y, i)) == StopAccess(x, StopPlace(x, i))
    ensures a == StopAccess(y, StopPlace(y, k)) && k < StopLength(y)
  {
    y := if k == 1 then x.(graceful := a.offset == X_CNTRL)
    else
      match StopPlace(x, k)
      case 2 => x.(events := a.value)
      case 5 => x.(keptSpeed := a.value)
      case _ => x;
  }

  lemma StopIsNext(g: Progress, x: Script, y: Script, a: Trapped)
    requires Under(g, x) && !g.down && x.Stop? && y.Stop?
    requires forall i :: 0 <= i < |g.log| ==> StopAccess(y, StopPlace(y, i)) == StopAccess(x, StopPlace(x, i))
    requires a == StopAccess(y, StopPlace(y, |g.log|)) && |g.log| < StopLength(y)
    ensures NextOf(g, a, y)
  {
    StopForm(x);
    StopForm(y);
  }

  lemma StopFits(s: State, g: Progress, x: Script, a: Trapped) returns (y: Script)
    requires Under(g, x) && Stands(s, g) && !g.down && x.Stop? && g.log != []
    requires a.size == 4 && !Passing(g, a) && !Access(s, a).verdict.NwPanic?
    ensures NextOf(g, a, y)
  {
    StopForm(x);
    StopStands(s, g, x);
    AwaitingInSub(g, x);
    y := StopChoice(s.pri, x, |g.log|, a);
    StopIsNext(g, x, y, a);
  }

  // ----------------------------------------------------------------- every access

  lemma ScriptAdvances(s: State, g: Progress, x: Script)
    requires Under(g, x) && Stands(s, g) && !g.down
    ensures Advanced(Access(s, Accesses(x)[|g.log|]), g, x)
  {
    if x.Restart? {
      RestartAdvances(s, g, x);
    } else {
      StopAdvances(s, g, x);
    }
  }

  /** The first access of an operation that is not refused. */
  lemma BeginFits(s: State, g: Progress, a: Trapped) returns (y: Script)
    requires Stands(s, g) && g.log == [] && (g.down ==> g.isOpen)
    requires a.size == 4 && !Passing(g, a) && !AnnouncesShutdown(g, a) && !Access(s, a).verdict.NwPanic?
    ensures NextOf(g, a, y)
  {
    y := if a.kind.Write? then Restart(!g.isOpen, true, true, {}, {}, {}, true) else Stop(true, a.value, {}, {});
    if y.Restart? {
      RestartForm(y);
    } else {
      StopForm(y);
    }
  }

  lemma AccessFits(s: State, g: Progress, a: Trapped) returns (y: Script)
    requires At(s, g)
    requires a.size == 4 && !Passing(g, a) && !AnnouncesShutdown(g, a) && !Access(s, a).verdict.NwPanic?
    ensures NextOf(g, a, y)
  {
    var x :| Under(g, x);
    if g.log == [] {
      y := BeginFits(s, g, a);
    } else if x.Restart? {
      y := RestartFits(s, g, x, a);
    } else {
      y := StopFits(s, g, x, a);
    }
  }

  lemma LowHalf()
    ensures LOW_HALF == {0, 1, 2, 3, 4, 5, 6, 7, 8, 9, 10, 11, 12, 13, 14, 15}
  {
  }

  lemma PassingPasses(s: State, g: Progress, a: Trapped)
    requires At(s, g) && a.size == 4 && Passing(g, a)
    ensures Access(s, a) == Just(s, Allowed(PassingValue(a)))
  {
    var x :| Under(g, x);
    AwaitingInSub(g, x);
    LowHalf();
  }

  /** How the handler is to answer. */
  ghost predicate Answers(g: Progress, a: Trapped, verdict: Verdict) {
    if a.size != 4 || AnnouncesShutdown(g, a) then verdict == Denied
    else if Passing(g, a) then verdict == Allowed(PassingValue(a))
    else
      && (!verdict.NwPanic? <==> exists x :: NextOf(g, a, x))
      && forall x :: NextOf(g, a, x) ==>
                       verdict == if a.offset == X_WMRK then Denied else Allowed(Committed(x, |g.log|))
  }

  lemma NextAnswers(s: State, g: Progress, a: Trapped, x: Script)
    requires At(s, g) && a.size == 4 && NextOf(g, a, x)
    ensures Access(s, a).verdict == if a.offset == X_WMRK then Denied else Allowed(Committed(x, |g.log|))
    ensures g.log + [a] == Accesses(x) ==> Stands(Access(s, a).state, Progress(true, false, []))
    ensures g.log + [a] != Accesses(x) ==> Stands(Access(s, a).state, g.(log := g.log + [a]))
  {
    assert a == Accesses(x)[|g.log|];
    ScriptAdvances(s, g, x);
  }

  lemma RestIsUnder(g: Progress)
    requires g.isOpen && g.log == []
    ensures exists x :: Under(g, x)
  {
    StopForm(Stop(true, {}, {}, {}));
    assert Under(g, Stop(true, {}, {}, {}));
  }

  lemma AccessFollows(s: State, g: Progress, a: Trapped)
    requires At(s, g)
    ensures var r := Access(s, a); Answers(g, a, r.verdict) && (!r.verdict.NwPanic? ==> At(r.state, After(g, a)))
  {
    if a.size != 4 {
    } else if AnnouncesShutdown(g, a) {
      RestIsUnder(After(g, a));
    } else if Passing(g, a) {
      PassingPasses(s, g, a);
    } else {
      OperationFollows(s, g, a);
    }
  }

  lemma OperationFollows(s: State, g: Progress, a: Trapped)
    requires At(s, g) && a.size == 4 && !AnnouncesShutdown(g, a) && !Passing(g, a)
    ensures var r := Access(s, a); Answers(g, a, r.verdict) && (!r.verdict.NwPanic? ==> At(r.state, After(g, a)))
  {
    var r := Access(s, a);
    forall x | NextOf(g, a, x)
      ensures r.verdict == if a.offset == X_WMRK then Denied else Allowed(Committed(x, |g.log|))
    {
      NextAnswers(s, g, a, x);
    }
    if !r.verdict.NwPanic? {
      var x := AccessFits(s, g, a);
      NextAnswers(s, g, a, x);
      if Completes(g, a) {
        var y :| NextOf(g, a, y) && g.log + [a] == Accesses(y);
        NextAnswers(s, g, a, y);
        RestIsUnder(Progress(true, false, []));
      } else {
        assert Under(g.(log := g.log + [a]), x);
      }
    }
  }

  /** Between operations. */
  predicate AtRest(g: Progress) { g.isOpen && g.log == [] }

  /** Both NAPI contexts are disabled by the first access of an operation and enabled by its last. */
  ghost function CallOf(g: Progress, a: Trapped): Call {
    if AtRest(g) == AtRest(After(g, a)) then NoCall else if AtRest(g) then DisableCall else EnableCall
  }

  lemma CallsFollow(s: State, g: Progress, a: Trapped)
    requires At(s, g) && Shaped(s) && !Access(s, a).verdict.NwPanic?
    ensures Access(s, a).call == CallOf(g, a)
  {
    AccessFollows(s, g, a);
    AccessKeepsInv(s, a);
    RestIsOn(s, g);
    RestIsOn(Access(s, a).state, After(g, a));
  }

  lemma RestIsOn(s: State, g: Progress)
    requires At(s, g)
    ensures On(s) <==> AtRest(g)
  {
  }

  lemma {:induction false} RunFollows(s: State, g: Progress, accesses: seq<Trapped>)
    requires At(s, g) && !Run(s, accesses).verdict.NwPanic?
    ensures At(Run(s, accesses).state, AfterAll(g, accesses))
    decreases |accesses|
  {
    if accesses != [] {
      AccessFollows(s, g, accesses[0]);
      RunFollows(Access(s, accesses[0]).state, After(g, accesses[0]), accesses[1..]);
    }
  }

  /** The handler follows the scripts, whatever the normal world does: after any accesses
      the next one is let through exactly if it continues a legal operation, and then
      with exactly what the operation is to commit; the NAPI contexts are off exactly
      during operations. */
  lemma HandlerFollowsScripts(accesses: seq<Trapped>, a: Trapped)
    requires !Run(PROBED, accesses).verdict.NwPanic?
    ensures var g, r := AfterAll(START, accesses), Access(Run(PROBED, accesses).state, a);
            Answers(g, a, r.verdict) && (!r.verdict.NwPanic? ==> r.call == CallOf(g, a))
  {
    var open := Restart(true, true, true, {}, {}, {}, true);
    RestartForm(open);
    assert Under(START, open);
    RunFollows(PROBED, START, accesses);
    RunKeepsInv(PROBED, accesses);
    var s, g := Run(PROBED, accesses).state, AfterAll(START, accesses);
    AccessFollows(s, g, a);
    if !Access(s, a).verdict.NwPanic? {
      CallsFollow(s, g, a);
    }
  }
}
