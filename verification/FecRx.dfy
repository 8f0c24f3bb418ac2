/** The FEC receive path: hardware filling descriptors and raising events, the
    interrupt handler that masks and schedules, and the poll that drains,
    completes and unmasks, with `napi_disable` and `napi_enable` at any time. One
    register access or one lock region is one step. Only one handler runs at a
    time. */
module FecRx {
  import opened Napi

  /** Most packets one call of the receive routine takes off the ring. */
  const RX_BUDGET := 96

  /** Which of the two event kinds are present. */
  datatype Events = Events(rx: bool, tx: bool)

  const NONE := Events(false, false)

  function Join(a: Events, b: Events): Events { Events(a.rx || b.rx, a.tx || b.tx) }

  function Without(a: Events, b: Events): Events { Events(a.rx && !b.rx, a.tx && !b.tx) }

  /** Program points of the poll. */
  datatype Worker =
    | Away
    | Reading
    | Merging(seen: Events)              // event register read, saved events not yet added
    | Acking(seen: Events)               // about to write the events back to clear them
    | Receiving(taken: nat, seen: Events)
    | Reclaiming(seen: Events)
    | LoopEnd
    | Completing
    | Unmasking

  datatype Handler = HIdle | HEntered | HRead(seen: Events) | HFiltered(seen: Events) | HAcking(seen: Events)

  /** `raised`: the event register. `masked`: receive and transmit interrupts
      are masked. `saved`: events remembered for the next round of the poll.
      `filled`: descriptors the hardware has filled, from the current one on.
      `landing`: a descriptor was filled and its event has not been raised yet. */
  datatype State = State(
    bits: Bits,
    raised: Events,
    masked: bool,
    saved: Events,
    filled: nat,
    landing: bool,
    worker: Worker,
    handler: Handler,
    disabling: bool)

  datatype Action =
    | FrameLands
    | RaiseRx
    | RaiseTx
    | HandlerEnter
    | HandlerStep
    | PollStart
    | PollStep
    | ReclaimDone(more: bool)
    | LoopDone(full: bool)
    | WorkerStart
    | Disable
    | DisableSpin
    | Enable

  datatype Outcome = Refused | Panic | Go(state: State)

  /** An opened, enabled device with empty rings and unmasked interrupts. */
  const INITIAL := State(REGISTERED.(disable := false), NONE, false, NONE, 0, false, Away, HIdle, false)

  function HandlerNext(s: State): Outcome {
    match s.handler
    case HIdle => Refused
    case HEntered => Go(s.(handler := HRead(s.raised)))
    case HRead(e) => Go(s.(handler := if s.masked || e == NONE then HIdle else HFiltered(e)))
    case HFiltered(e) =>
      if !s.bits.disable && !s.bits.sched then
        Go(s.(bits := Schedule(s.bits), masked := true, handler := HIdle))
      else
        Go(s.(bits := Schedule(s.bits), saved := Join(s.saved, e), handler := HAcking(e)))
    case HAcking(e) => Go(s.(raised := Without(s.raised, e), handler := HIdle))
  }

  function PollNext(s: State): Outcome {
    match s.worker
    case Reading => Go(s.(worker := Merging(s.raised)))
    case Merging(e) =>
      var all := Join(e, s.saved);
      Go(s.(saved := NONE, worker := if all == NONE then Completing else Acking(all)))
    case Acking(e) => Go(s.(raised := Without(s.raised, e), worker := Receiving(0, e)))
    case Receiving(n, e) =>
      if s.filled > 0 && n < RX_BUDGET then
        Go(s.(filled := s.filled - 1, worker := Receiving(n + 1, e)))
      else
        Go(s.(saved := if n >= RX_BUDGET then s.saved.(rx := true) else s.saved,
           worker := if e.tx then Reclaiming(e) else LoopEnd))
    case Completing => Go(s.(bits := Complete(s.bits), worker := if GoesIdle(s.bits) then Unmasking else Away))
    case Unmasking => Go(s.(masked := false, worker := Away))
    case _ => Refused
  }

  function DisableNext(s: State): State {
    s.(bits := DisableLook(s.bits.(disable := true)), disabling := !MayStop(s.bits))
  }

  function Step(s: State, a: Action): Outcome {
    match a
    case FrameLands => Go(s.(filled := s.filled + 1, landing := true))
    case RaiseRx => Go(s.(raised := s.raised.(rx := true), landing := false))
    case RaiseTx => Go(s.(raised := s.raised.(tx := true)))
    case HandlerEnter => if s.handler.HIdle? then Go(s.(handler := HEntered)) else Refused
    case HandlerStep => HandlerNext(s)
    case PollStart => if s.worker.Away? && s.bits.active && s.bits.sched then Go(s.(worker := Reading)) else Refused
    case PollStep => PollNext(s)
    case ReclaimDone(more) =>
      if s.worker.Reclaiming? then
        Go(s.(saved := if more then s.saved.(tx := true) else s.saved, worker := LoopEnd))
      else Refused
    case LoopDone(full) =>
      if !s.worker.LoopEnd? then Refused
      else if full then Go(s.(saved := s.saved.(rx := true), worker := Away))
      else Go(s.(worker := Reading))
    case WorkerStart => if s.bits.active then Refused else Go(s.(bits := s.bits.(active := true)))
    case Disable => if s.disabling then Refused else if s.bits.disable then Panic else Go(DisableNext(s))
    case DisableSpin => if s.disabling then Go(DisableNext(s)) else Refused
    case Enable =>
      if s.disabling then Refused
      else if EnablePanics(s.bits) then Panic
      else Go(s.(bits := s.bits.(disable := false)))
  }

  function Run(s: State, actions: seq<Action>): Outcome
    decreases |actions|
  {
    if actions == [] then Go(s)
    else
      match Step(s, actions[0])
      case Go(t) => Run(t, actions[1..])
      case o => o
  }

  // -------------------------------------------------------------- invariants

  /** A due poll keeps the interrupts masked, so an unmasked event always finds
      nothing scheduled; what a finished disable leaves; and where events are saved. */
  ghost predicate Masking(s: State) {
    && !s.bits.missed && (s.bits.sched ==> s.masked)
    && (s.worker.Unmasking? ==> s.masked && !s.bits.sched)
    && (!s.worker.Away? && !s.worker.Unmasking? ==> s.bits.sched)
    && (!s.bits.active ==> s.worker.Away?)
    && (s.handler.HFiltered? ==> !s.masked && s.handler.seen != NONE)
    && (s.handler.HAcking? ==> !s.masked && (s.handler.seen.rx ==> s.saved.rx))
    && (s.worker.Completing? || s.worker.Unmasking? ==> s.saved == NONE)
    && (s.disabling ==> s.bits.disable) && (s.bits.disable && !s.disabling ==> !s.bits.sched)
  }

  /** The poll holds the receive event, or will look at the ring anyway. */
  predicate WillReceive(w: Worker) {
    (w.Merging? && w.seen.rx) || w.Acking? || w.Receiving?
  }

  /** A filled descriptor is always announced somewhere. */
  ghost predicate Announced(s: State) {
    s.filled > 0 ==> s.raised.rx || s.landing || s.saved.rx || WillReceive(s.worker)
  }

  ghost predicate Inv(s: State) { Masking(s) && Announced(s) }

  lemma StepKeepsMasking(s: State, a: Action)
    requires Masking(s) && Step(s, a).Go?
    ensures Masking(Step(s, a).state)
  {
    match a
    case PollStep =>
    case HandlerStep =>
    case _ =>
  }

  lemma StepKeepsAnnounced(s: State, a: Action)
    requires Masking(s) && Announced(s) && Step(s, a).Go?
    ensures Announced(Step(s, a).state)
  {
    match a
    case PollStep =>
    case HandlerStep =>
    case _ =>
  }

  lemma {:induction false} RunKeepsInv(s: State, actions: seq<Action>)
    requires Inv(s) && Run(s, actions).Go?
    ensures Inv(Run(s, actions).state)
    decreases |actions|
  {
    if actions != [] {
      StepKeepsMasking(s, actions[0]);
      StepKeepsAnnounced(s, actions[0]);
      RunKeepsInv(Step(s, actions[0]).state, actions[1..]);
    }
  }

  // ------------------------------------------------------------- while enabled

  /** A handler under way will schedule the poll that finds the saved event. */
  predicate Arming(s: State) {
    s.saved.rx && !s.masked &&
    (s.handler.HFiltered? || (s.handler.HRead? && s.handler.seen != NONE) || (s.handler.HEntered? && s.raised != NONE))
  }

  /** With nothing scheduled: interrupts are unmasked or about to be, no handler is
      about to acknowledge a receive event, and a filled descriptor has its event
      coming or a handler that will find it. */
  predicate Sound(s: State) {
    && (s.masked ==> s.worker.Unmasking?)
    && (s.handler.HAcking? ==> !s.handler.seen.rx)
    && (s.filled > 0 ==> s.raised.rx || s.landing || Arming(s))
  }

  lemma StepKeepsSound(s: State, a: Action)
    requires Inv(s) && !s.bits.disable && (s.bits.sched || Sound(s)) && !a.Disable? && Step(s, a).Go?
    ensures var t := Step(s, a).state; !t.bits.disable && (t.bits.sched || Sound(t))
  {
    match a
    case PollStep =>
    case HandlerStep =>
    case _ =>
  }

  lemma {:induction false} RunKeepsSound(s: State, actions: seq<Action>)
    requires Inv(s) && !s.bits.disable && (s.bits.sched || Sound(s)) && Disable !in actions && Run(s, actions).Go?
    ensures var t := Run(s, actions).state; Inv(t) && !t.bits.disable && (t.bits.sched || Sound(t))
    decreases |actions|
  {
    if actions != [] {
      StepKeepsMasking(s, actions[0]);
      StepKeepsAnnounced(s, actions[0]);
      StepKeepsSound(s, actions[0]);
      RunKeepsSound(Step(s, actions[0]).state, actions[1..]);
    }
  }

  /** No poll, no handler and no hardware update is under way. */
  predicate Quiet(s: State) { s.worker.Away? && s.handler.HIdle? && !s.landing }

  /** At rest with no poll due, a filled descriptor whose event is not pending or is
      masked: nothing will ever look at it on its own account. */
  predicate Stranded(s: State) {
    Quiet(s) && !s.bits.sched && s.filled > 0 && !(s.raised.rx && !s.masked)
  }

  /** No received frame is stranded: in every run without a disable, masked
      interrupts mean a poll is due or the worker is about to unmask, and in every
      quiet state without a poll due a filled descriptor has its event pending and
      unmasked. */
  lemma NoFrameIsStranded(actions: seq<Action>)
    requires Disable !in actions && Run(INITIAL, actions).Go?
    ensures var t := Run(INITIAL, actions).state;
            && (t.masked ==> t.bits.sched || t.worker.Unmasking?)
            && !Stranded(t)
  {
    RunKeepsSound(INITIAL, actions);
  }

  /** The handler's fallback branch, which acknowledges an event without scheduling
      anything, is taken in no run without a disable. */
  lemma EventsAreNeverDiverted(actions: seq<Action>)
    requires Disable !in actions && Run(INITIAL, actions).Go?
    ensures var t := Run(INITIAL, actions).state;
            t.handler.HFiltered? ==>
              var u := Step(t, HandlerStep);
              u.Go? && u.state.bits.sched && u.state.masked && u.state.raised == t.raised && u.state.saved == t.saved
  {
    RunKeepsSound(INITIAL, actions);
  }

  // ----------------------------------------------------------------- progress

  predicate Busy(s: State) { !s.handler.HIdle? && s.handler != HRead(NONE) }

  /** What a handler or the worker does next when nothing new arrives. */
  function Onward(s: State): Action {
    if s.landing then RaiseRx
    else if !s.handler.HIdle? then HandlerStep
    else if s.worker.Away? then
      if !s.bits.sched then HandlerEnter else if s.bits.active then PollStart else WorkerStart
    else if s.worker.Reclaiming? then ReclaimDone(false)
    else if s.worker.LoopEnd? then LoopDone(false)
    else PollStep
  }

  predicate Rested(s: State) {
    s.worker.Away? && s.handler.HIdle? && !s.bits.sched && !s.landing && s.raised == NONE
  }

  predicate Meet(a: Events, b: Events) { (a.rx && b.rx) || (a.tx && b.tx) }

  /** A bound on the steps that are left. */
  function Left(s: State): nat {
    20 * s.filled + (if s.landing then 2000 else 0)
    + (if s.raised.rx then 1000 else 0) + (if s.raised.tx then 1000 else 0) + (if s.saved != NONE then 40 else 0)
    + HandlerLeft(s.handler) + WorkerLeft(s)
  }

  function HandlerLeft(h: Handler): nat {
    match h
    case HIdle => 0
    case HEntered => 112
    case HRead(e) => if e == NONE then 1 else 111
    case HFiltered(_) => 110
    case HAcking(_) => 135
  }

  function WorkerLeft(s: State): nat {
    var raised := s.raised != NONE;
    match s.worker
    case Away =>
      if !s.bits.sched then if raised && !Busy(s) then 130 else 0 else if s.bits.active then 59 else 60
    case Reading => 58
    case Merging(e) =>
      var all := Join(e, s.saved);
      if all == NONE then if raised then 240 else 57 else if Meet(all, s.raised) || s.saved != NONE then 57 else 90
    case Acking(e) => if Meet(e, s.raised) then 56 else 89
    case Receiving(n, _) => 64 + n
    case Reclaiming(_) => 63
    case LoopEnd => 62
    case Completing => if raised then 232 else 6
    case Unmasking => if raised then 231 else 5
  }

  ghost predicate Working(s: State) { Inv(s) && !s.bits.disable && (s.bits.sched || Sound(s)) }

  lemma HandlerWorks(s: State)
    requires Working(s) && !s.landing && !s.handler.HIdle?
    ensures Step(s, HandlerStep).Go? && Left(Step(s, HandlerStep).state) < Left(s)
  {
  }

  lemma PollWorks(s: State)
    requires Working(s) && !s.landing && s.handler.HIdle? && !s.worker.Away?
    ensures Step(s, Onward(s)).Go? && Left(Step(s, Onward(s)).state) < Left(s)
  {
    match s.worker
    case Merging(_) =>
    case Acking(_) =>
    case _ =>
  }

  lemma WorkGoesOn(s: State)
    requires Working(s) && !Rested(s)
    ensures Step(s, Onward(s)).Go? && Left(Step(s, Onward(s)).state) < Left(s)
  {
    if s.landing {
    } else if !s.handler.HIdle? {
      HandlerWorks(s);
    } else if !s.worker.Away? {
      PollWorks(s);
    }
  }

  /** No frame arrives and the context is neither disabled nor enabled. */
  predicate IsWork(a: Action) {
    !a.FrameLands? && !a.RaiseTx? && !a.Disable? && !a.DisableSpin? && !a.Enable?
  }

  lemma {:induction false} WorkRests(s: State) returns (actions: seq<Action>)
    requires Working(s)
    ensures forall i :: 0 <= i < |actions| ==> IsWork(actions[i])
    ensures Run(s, actions).Go? && Working(Run(s, actions).state) && Rested(Run(s, actions).state)
    decreases Left(s)
  {
    if Rested(s) {
      actions := [];
    } else {
      WorkGoesOn(s);
      StepKeepsMasking(s, Onward(s));
      StepKeepsAnnounced(s, Onward(s));
      StepKeepsSound(s, Onward(s));
      var rest := WorkRests(Step(s, Onward(s)).state);
      actions := [Onward(s)] + rest;
      assert actions[1..] == rest;
    }
  }

  lemma {:induction false} RunConcat(s: State, a: seq<Action>, b: seq<Action>)
    requires Run(s, a).Go?
    ensures Run(s, a + b) == Run(Run(s, a).state, b)
    decreases |a|
  {
    if a == [] {
      assert a + b == b;
    } else {
      assert (a + b)[1..] == a[1..] + b;
      RunConcat(Step(s, a[0]).state, a[1..], b);
    }
  }

  /** Every frame can be taken: a run without a disable can go on, without new frames,
      until the ring is empty, no poll is due and interrupts are unmasked. */
  lemma EveryFrameCanBeTaken(before: seq<Action>) returns (after: seq<Action>)
    requires Disable !in before && Run(INITIAL, before).Go?
    ensures forall i :: 0 <= i < |after| ==> IsWork(after[i])
    ensures Run(INITIAL, before + after).Go?
    ensures var t := Run(INITIAL, before + after).state; Rested(t) && t.filled == 0 && !t.masked
  {
    RunKeepsSound(INITIAL, before);
    after := WorkRests(Run(INITIAL, before).state);
    RunConcat(INITIAL, before, after);
  }

  // --------------------------------------------------------------- re-enabling

  ghost predicate FramesSafe(s: State, actions: seq<Action>) {
    Disable !in actions && Run(s, actions).Go? ==> !Stranded(Run(s, actions).state)
  }

  /** The next step of an unsound state towards a stranded frame. */
  function Sink(s: State): Action {
    if s.handler.HAcking? && s.handler.seen.rx && s.filled == 0 then FrameLands
    else if s.handler.HAcking? && s.handler.seen.rx && s.landing then RaiseRx
    else if !s.handler.HIdle? then HandlerStep
    else if s.worker.Unmasking? then PollStep
    else if s.filled == 0 then FrameLands
    else RaiseRx
  }

  /** How many such steps are left, weighted. */
  function Depth(s: State): nat {
    (if s.handler.HEntered? then 20 else if s.handler.HIdle? then 0 else 10)
    + (if s.filled == 0 then 3 else 0) + (if s.landing then 1 else 0) + (if s.worker.Unmasking? then 1 else 0)
  }

  ghost predicate Sinking(s: State) { Inv(s) && !s.bits.disable && !s.bits.sched && !Sound(s) }

  lemma SinkSinks(s: State)
    requires Sinking(s) && !Stranded(s)
    ensures Step(s, Sink(s)).Go? && Sinking(Step(s, Sink(s)).state) && Depth(Step(s, Sink(s)).state) < Depth(s)
  {
    StepKeepsMasking(s, Sink(s));
    StepKeepsAnnounced(s, Sink(s));
  }

  lemma {:induction false} UnsoundStrands(s: State) returns (actions: seq<Action>)
    requires Sinking(s)
    ensures !FramesSafe(s, actions)
    decreases Depth(s)
  {
    if Stranded(s) {
      actions := [];
    } else {
      SinkSinks(s);
      var rest := UnsoundStrands(Step(s, Sink(s)).state);
      actions := [Sink(s)] + rest;
      assert actions[1..] == rest;
    }
  }

  /** Exactly when re-enabling leaves no frame stranded, in every quiesced state that
      any run with any number of disables reaches: all continuations are safe if
      and only if the state is sound. */
  lemma EnableIsSafeIff(before: seq<Action>, s: State)
    requires Run(INITIAL, before) == Go(s) && s.bits.disable && !s.disabling
    ensures Step(s, Enable).Go?
    ensures (forall after: seq<Action> :: FramesSafe(Step(s, Enable).state, after)) <==> Sound(s)
  {
    RunKeepsInv(INITIAL, before);
    var t := Step(s, Enable).state;
    if Sound(s) {
      forall after: seq<Action> | Disable !in after && Run(t, after).Go?
        ensures FramesSafe(t, after)
      {
        RunKeepsSound(t, after);
      }
    } else {
      var after := UnsoundStrands(t);
    }
  }

  /** An interrupt in the disabled window: the handler clears the event it saw. */
  const WINDOW :=
    [FrameLands, RaiseRx, Disable, HandlerEnter, HandlerStep, HandlerStep, HandlerStep, HandlerStep, Enable]

  /** The unsound case occurs: nine steps of an opened device strand a frame. */
  lemma DisabledHandlerStrands()
    ensures Run(INITIAL, WINDOW).Go? && Stranded(Run(INITIAL, WINDOW).state)
  {
    var rx := Events(true, false);
    var off := INITIAL.bits.(disable := true);
    var s1 := INITIAL.(filled := 1, landing := true);
    var s2 := s1.(raised := rx, landing := false);
    var s3 := s2.(bits := off);
    var s4 := s3.(handler := HEntered);
    var s5 := s3.(handler := HRead(rx));
    var s6 := s3.(handler := HFiltered(rx));
    var s7 := s3.(saved := rx, handler := HAcking(rx));
    var s8 := s7.(raised := NONE, handler := HIdle);
    var s9 := s8.(bits := INITIAL.bits);
    RunAlong([INITIAL, s1, s2, s3, s4, s5, s6, s7, s8, s9], WINDOW);
  }

  lemma {:induction false} RunAlong(states: seq<State>, actions: seq<Action>)
    requires |states| == |actions| + 1
    requires forall i :: 0 <= i < |actions| ==> Step(states[i], actions[i]) == Go(states[i + 1])
    ensures Run(states[0], actions) == Go(states[|actions|])
    decreases |actions|
  {
    if actions != [] {
      RunAlong(states[1..], actions[1..]);
    }
  }
}
