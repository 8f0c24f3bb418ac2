/** The FEC route/transmit poll on top of its NAPI context: rx and egress
    producers guarded by the `no_kick` flag, queue stop and wake, and the
    re-check the poll makes after it has completed. Producers are anonymous, so
    counting how many stand at each program point loses nothing. */
module FecRoute {
  import opened Napi

  /** Program points of the polling worker. `Away(again)`: outside the poll,
      `again` when the last poll returned its full budget, in which case the
      worker polls once more without looking at `sched`. */
  datatype Worker =
    | Away(again: bool)
    | Draining       // the do-while loop
    | WentIdle       // napi_complete returned true, flag not yet cleared
    | StaysDue       // napi_complete returned false, flag not yet set
    | Cleared        // flag cleared, about to read `stopped`
    | LookEgress     // queue was running, about to look at it
    | LookIngress
    | Rerun          // found work, about to test-and-set the flag
    | RerunWon       // won the flag, about to call napi_schedule
    | Returning

  /** `full`: the last poll loop used up its budget; whether it does is left open, but it
      is settled once the loop is left. `rxAdded`: producers between filling the ingress queue and the flag.
      `egrAdded`: producers (or wakers) about to read `stopped`.
      `egrOpen`: those that read `false`, about to test-and-set the flag.
      `winners`: those that won the flag, about to call `napi_schedule`. */
  datatype State = State(
    bits: Bits,
    noKick: bool,
    ingress: nat,
    egress: nat,
    stopped: bool,
    worker: Worker,
    full: bool,
    rxAdded: nat,
    egrAdded: nat,
    egrOpen: nat,
    winners: nat,
    disabling: bool)

  datatype Action =
    | RxAdd(n: nat)
    | RxFlag
    | EgrAdd(n: nat)
    | EgrRead
    | EgrFlag
    | Kick
    | Wake
    | Stop
    | Start
    | WorkerStart
    | PollStart
    | Consume(rx: nat, routedBack: nat, sent: nat)
    | PollStep
    | LeaveLoop(full: bool)
    | PollReturn
    | Disable
    | DisableSpin
    | Enable

  datatype Outcome = Refused | Panic | Go(state: State)

  /** After probing: contexts disabled, egress queue stopped, nothing queued. */
  const INITIAL := State(REGISTERED, false, 0, 0, true, Away(false), false, 0, 0, 0, 0, false)

  /** The same device once opened and started. */
  const OPENED := INITIAL.(bits := REGISTERED.(disable := false), stopped := false)

  // ------------------------------------------------------------------- steps

  /** `atomic_flag_test_and_set` by a producer. */
  function Flag(s: State): State {
    if s.noKick then s else s.(noKick := true, winners := s.winners + 1)
  }

  function ProducerNext(s: State, a: Action): Outcome
    requires a.RxAdd? || a.RxFlag? || a.EgrAdd? || a.EgrRead? || a.EgrFlag? || a.Kick?
  {
    match a
    case RxAdd(n) => Go(s.(ingress := s.ingress + n, rxAdded := s.rxAdded + 1))
    case RxFlag => if s.rxAdded == 0 then Refused else Go(Flag(s.(rxAdded := s.rxAdded - 1)))
    case EgrAdd(n) =>
      if n == 0 then Refused else Go(s.(egress := s.egress + n, egrAdded := s.egrAdded + 1))
    case EgrRead =>
      if s.egrAdded == 0 then Refused
      else Go(s.(egrAdded := s.egrAdded - 1, egrOpen := if s.stopped then s.egrOpen else s.egrOpen + 1))
    case EgrFlag => if s.egrOpen == 0 then Refused else Go(Flag(s.(egrOpen := s.egrOpen - 1)))
    case Kick =>
      if s.winners == 0 then Refused else Go(s.(winners := s.winners - 1, bits := Schedule(s.bits)))
  }

  function PollNext(s: State): Outcome {
    match s.worker
    case Away(_) => Refused
    case Draining => Refused
    case WentIdle => Go(s.(noKick := false, worker := Cleared))
    case StaysDue => Go(s.(noKick := true, worker := Returning))
    case Cleared => Go(s.(worker := if s.stopped then LookIngress else LookEgress))
    case LookEgress => Go(s.(worker := if s.egress > 0 then Rerun else LookIngress))
    case LookIngress => Go(s.(worker := if s.ingress > 0 then Rerun else Returning))
    case Rerun => Go(s.(noKick := true, worker := if s.noKick then Returning else RerunWon))
    case RerunWon => Go(s.(bits := Schedule(s.bits), worker := Returning))
    case Returning => Refused
  }

  function DisableNext(s: State): State {
    s.(bits := DisableLook(s.bits.(disable := true)), disabling := !MayStop(s.bits))
  }

  function Step(s: State, a: Action): Outcome {
    match a
    case Wake => Go(if s.stopped then s.(stopped := false, egrAdded := s.egrAdded + 1) else s)
    case Stop => Go(s.(stopped := true))
    case Start => Go(s.(stopped := false))
    case WorkerStart => if s.bits.active then Refused else Go(s.(bits := s.bits.(active := true)))
    case PollStart =>
      if s.worker.Away? && s.bits.active && (s.worker.again || s.bits.sched) then Go(s.(worker := Draining))
      else Refused
    case Consume(rx, back, sent) =>
      if s.worker.Draining? && rx <= s.ingress && sent <= s.egress + back then
        Go(s.(ingress := s.ingress - rx, egress := s.egress + back - sent))
      else Refused
    case PollStep => PollNext(s)
    case LeaveLoop(full) =>
      if !s.worker.Draining? then Refused
      else Go(s.(bits := Complete(s.bits), full := full, worker := if GoesIdle(s.bits) then WentIdle else StaysDue))
    case PollReturn => if s.worker.Returning? then Go(s.(worker := Away(s.full))) else Refused
    case Disable => if s.disabling then Refused else if s.bits.disable then Panic else Go(DisableNext(s))
    case DisableSpin => if s.disabling then Go(DisableNext(s)) else Refused
    case Enable =>
      if s.disabling then Refused
      else if EnablePanics(s.bits) then Panic
      else Go(s.(bits := s.bits.(disable := false)))
    case _ => ProducerNext(s, a)
  }

  function Run(s: State, actions: seq<Action>): Outcome
    decreases |actions|
  {
    if actions == [] then Go(s)
    else
      match Step(s, actions[0])
      case Go(t) => Run(t, actions[1..])
      case o => o
  }

  /** The queue is only started (as opposed to woken) while it is empty. */
  ghost predicate CleanStarts(s: State, actions: seq<Action>)
    decreases |actions|
  {
    actions == [] ||
    ((actions[0].Start? ==> s.egress == 0) &&
     (Step(s, actions[0]).Go? ==> CleanStarts(Step(s, actions[0]).state, actions[1..])))
  }

  // -------------------------------------------------------------- invariants

  /** No producer is on its way to the flag or to `napi_schedule`, and the
      worker is outside its poll. */
  predicate Quiet(s: State) {
    s.rxAdded == 0 && s.egrAdded == 0 && s.egrOpen == 0 && s.winners == 0 && s.worker == Away(false)
  }

  predicate Work(s: State) { s.ingress > 0 || (s.egress > 0 && !s.stopped) }

  /** The poll will still look at the ingress queue. */
  predicate WillLook(w: Worker) { !w.Away? && !w.Returning? }

  /** Book-keeping facts. */
  ghost predicate Basics(s: State) {
    && (s.worker.RerunWon? ==> s.noKick)
    && (!s.bits.active ==> s.worker == Away(false) && (s.bits.sched || s.winners > 0 ==> s.noKick))
    && (s.disabling ==> s.bits.disable)
    && (s.bits.disable && !s.disabling ==> !s.bits.sched)
  }

  /** Queued ingress packets are known to somebody: the flag, a pending poll, a
      producer on its way, or the poll's own re-check. */
  ghost predicate IngressKnown(s: State) {
    s.ingress > 0 ==> s.noKick || s.bits.sched || s.rxAdded > 0 || WillLook(s.worker)
  }

  /** So are egress packets while the queue is running. */
  ghost predicate EgressKnown(s: State) {
    s.egress > 0 && !s.stopped ==>
      || s.noKick || s.bits.sched || s.egrAdded > 0 || s.egrOpen > 0
      || (WillLook(s.worker) && !s.worker.LookIngress?)
  }

  ghost predicate Known(s: State) { Basics(s) && IngressKnown(s) && EgressKnown(s) }

  lemma PollKeepsBasics(s: State)
    requires Basics(s) && PollNext(s).Go?
    ensures Basics(PollNext(s).state)
  {
  }

  lemma ProducerKeepsBasics(s: State, a: Action)
    requires a.RxAdd? || a.RxFlag? || a.EgrAdd? || a.EgrRead? || a.EgrFlag? || a.Kick?
    requires Basics(s) && ProducerNext(s, a).Go?
    ensures Basics(ProducerNext(s, a).state)
  {
  }

  lemma StepKeepsBasics(s: State, a: Action)
    requires Basics(s) && Step(s, a).Go?
    ensures Basics(Step(s, a).state)
  {
    if a.RxAdd? || a.RxFlag? || a.EgrAdd? || a.EgrRead? || a.EgrFlag? || a.Kick? {
      ProducerKeepsBasics(s, a);
    } else if a.PollStep? {
      PollKeepsBasics(s);
    }
  }

  lemma StepKeepsIngressKnown(s: State, a: Action)
    requires Basics(s) && IngressKnown(s) && Step(s, a).Go?
    ensures IngressKnown(Step(s, a).state)
  {
    match a
    case PollStep =>
    case Kick =>
    case _ =>
  }

  lemma StepKeepsEgressKnown(s: State, a: Action)
    requires Basics(s) && EgressKnown(s) && Step(s, a).Go? && (a.Start? ==> s.egress == 0)
    ensures EgressKnown(Step(s, a).state)
  {
    match a
    case PollStep =>
    case Kick =>
    case _ =>
  }

  lemma StepKeepsKnown(s: State, a: Action)
    requires Known(s) && Step(s, a).Go? && (a.Start? ==> s.egress == 0)
    ensures Known(Step(s, a).state)
  {
    StepKeepsBasics(s, a);
    StepKeepsIngressKnown(s, a);
    StepKeepsEgressKnown(s, a);
  }

  lemma {:induction false} RunKeepsKnown(s: State, actions: seq<Action>)
    requires Known(s) && CleanStarts(s, actions) && Run(s, actions).Go?
    ensures Known(Run(s, actions).state)
    decreases |actions|
  {
    if actions != [] {
      StepKeepsKnown(s, actions[0]);
      RunKeepsKnown(Step(s, actions[0]).state, actions[1..]);
    }
  }

  // ------------------------------------------------------------------ results

  /** The worker never goes idle on work: in every run of an opened device that
      nobody disables, whenever no producer is on its way and the worker is
      outside its poll, queued work has a poll scheduled for it. */
  lemma NeverIdleOnWork(actions: seq<Action>)
    requires Disable !in actions && CleanStarts(OPENED, actions) && Run(OPENED, actions).Go?
    ensures var t := Run(OPENED, actions).state; Quiet(t) && Work(t) ==> t.bits.sched
  {
    RunKeepsSound(OPENED, actions);
  }

  ghost predicate ServedAfter(s: State, actions: seq<Action>) {
    Disable !in actions && CleanStarts(s, actions) && Run(s, actions).Go? ==>
      (Quiet(Run(s, actions).state) && Work(Run(s, actions).state) ==> Run(s, actions).state.bits.sched)
  }

  // ---------------------------------------------------------------- re-enabling

  /** The worker will poll again at once, and that poll will go idle. */
  predicate Cleanly(s: State) { s.full && !s.bits.missed }

  /** Whether the worker, with nothing scheduled and nobody about to schedule,
      still gets by: the flag is clear or about to be cleared, and no completion
      can meet a MISSED bit left over from before a disable. A worker that a full
      budget sends round again polls without looking at SCHED. */
  predicate Recovers(s: State) {
    match s.worker
    case Away(again) => if again then !s.bits.missed else !s.noKick
    case Draining => !s.bits.missed
    case WentIdle => Cleanly(s) || (s.full ==> s.ingress > 0)
    case StaysDue => Cleanly(s)
    case Cleared => Cleanly(s) || (!s.noKick && (s.full ==> s.ingress > 0))
    case LookEgress => Cleanly(s) || (!s.noKick && (s.full ==> s.egress > 0 || s.ingress > 0))
    case LookIngress => Cleanly(s) || (!s.noKick && (s.full ==> s.ingress > 0))
    case Rerun => Cleanly(s) || !s.noKick
    case RerunWon => true
    case Returning => if s.full then !s.bits.missed else !s.noKick
  }

  /** A poll is scheduled, somebody is about to schedule one, or the worker
      recovers by itself. */
  predicate Sound(s: State) { s.bits.sched || s.winners > 0 || Recovers(s) }

  lemma PollKeepsSound(s: State)
    requires Sound(s) && !s.bits.disable && PollNext(s).Go?
    ensures Sound(PollNext(s).state) && !PollNext(s).state.bits.disable
  {
    match s.worker
    case Draining =>
    case Rerun =>
    case _ =>
  }

  lemma StepKeepsSound(s: State, a: Action)
    requires Sound(s) && !s.bits.disable && !a.Disable? && Basics(s) && Step(s, a).Go?
    ensures Sound(Step(s, a).state) && !Step(s, a).state.bits.disable
  {
    match a
    case PollStep => PollKeepsSound(s);
    case LeaveLoop(_) =>
    case Kick =>
    case _ =>
  }

  lemma {:induction false} RunKeepsSound(s: State, actions: seq<Action>)
    requires Known(s) && Sound(s) && !s.bits.disable
    requires Disable !in actions && CleanStarts(s, actions) && Run(s, actions).Go?
    ensures Known(Run(s, actions).state) && Sound(Run(s, actions).state) && !Run(s, actions).state.bits.disable
    decreases |actions|
  {
    if actions != [] {
      StepKeepsKnown(s, actions[0]);
      StepKeepsSound(s, actions[0]);
      RunKeepsSound(Step(s, actions[0]).state, actions[1..]);
    }
  }

  /** `no_kick` set, no poll scheduled and nobody left to schedule one. */
  predicate Stalled(s: State) {
    s.noKick && !s.bits.sched && s.winners == 0 && s.worker == Away(false)
  }

  /** A stall is permanent: whatever happens afterwards, including any number of
      disables, enables, wakes and starts, no poll ever starts again. */
  lemma {:induction false} StallIsPermanent(s: State, actions: seq<Action>)
    requires Stalled(s) && Run(s, actions).Go?
    ensures Stalled(Run(s, actions).state)
    ensures Step(Run(s, actions).state, PollStart) == Refused
    decreases |actions|
  {
    if actions != [] {
      StallIsPermanent(Step(s, actions[0]).state, actions[1..]);
    }
  }

  /** The next step of an unsound state towards a stall. */
  function Sink(s: State): Action {
    match s.worker
    case Away(_) => PollStart
    case Cleared => if s.stopped then PollStep else Stop
    case Draining => LeaveLoop(false)
    case Returning => PollReturn
    case _ => PollStep
  }

  /** How many such steps are left at most. */
  function Depth(s: State): nat {
    match s.worker
    case Away(again) => if again then 5 else 0
    case Draining => 4
    case StaysDue => if s.full then 7 else 3
    case Returning => if s.full then 6 else 2
    case Rerun => 7
    case LookIngress => 8
    case LookEgress => 9
    case Cleared => if s.stopped then 10 else 11
    case WentIdle => 12
    case RerunWon => 0
  }

  ghost predicate Sinking(s: State) { Basics(s) && !Sound(s) && !s.bits.disable }

  lemma SinkSinks(s: State)
    requires Sinking(s) && !Stalled(s)
    ensures Step(s, Sink(s)).Go? && Sinking(Step(s, Sink(s)).state) && Depth(Step(s, Sink(s)).state) < Depth(s)
  {
    match s.worker
    case Draining =>
    case Returning =>
    case _ =>
  }

  /** An action in front of a run. */
  lemma RunAfter(s: State, a: Action, rest: seq<Action>)
    requires Step(s, a).Go?
    ensures Run(s, [a] + rest) == Run(Step(s, a).state, rest)
    ensures CleanStarts(s, [a] + rest) <==> (a.Start? ==> s.egress == 0) && CleanStarts(Step(s, a).state, rest)
  {
    assert ([a] + rest)[1..] == rest;
  }

  /** Nothing in the run disables or merely starts. */
  ghost predicate Mild(actions: seq<Action>) { forall a <- actions :: !a.Disable? && !a.Start? }

  lemma {:induction false} UnsoundStalls(s: State) returns (actions: seq<Action>)
    requires Sinking(s)
    ensures Mild(actions) && CleanStarts(s, actions) && Run(s, actions).Go? && Stalled(Run(s, actions).state)
    decreases Depth(s)
  {
    if Stalled(s) {
      actions := [];
    } else {
      SinkSinks(s);
      var rest := UnsoundStalls(Step(s, Sink(s)).state);
      RunAfter(s, Sink(s), rest);
      actions := [Sink(s)] + rest;
    }
  }

  /** A stalled device with one more received packet, once every producer under way
      is through, is at rest with work and no poll. */
  lemma {:induction false} StallLeavesWork(s: State) returns (actions: seq<Action>)
    requires Stalled(s)
    ensures Mild(actions) && CleanStarts(s, actions) && Run(s, actions).Go?
    ensures var t := Run(s, actions).state; Quiet(t) && Work(t) && !t.bits.sched
    decreases s.rxAdded + 2 * s.egrAdded + s.egrOpen, s.ingress == 0
  {
    if s.ingress > 0 && s.rxAdded == 0 && s.egrAdded == 0 && s.egrOpen == 0 {
      actions := [];
      assert Run(s, actions) == Go(s);
    } else {
      var a :=
        if s.rxAdded > 0 then RxFlag else if s.egrAdded > 0 then EgrRead
        else if s.egrOpen > 0 then EgrFlag else RxAdd(1);
      var t := Step(s, a).state;
      if a.RxAdd? {
        var u := Step(t, RxFlag).state;
        var rest := StallLeavesWork(u);
        RunAfter(t, RxFlag, rest);
        RunAfter(s, a, [RxFlag] + rest);
        actions := [a] + ([RxFlag] + rest);
      } else {
        var rest := StallLeavesWork(t);
        RunAfter(s, a, rest);
        actions := [a] + rest;
      }
    }
  }

  lemma {:induction false} RunTwice(s: State, first: seq<Action>, second: seq<Action>)
    requires Run(s, first).Go? && CleanStarts(s, first) && CleanStarts(Run(s, first).state, second)
    ensures Run(s, first + second) == Run(Run(s, first).state, second) && CleanStarts(s, first + second)
    decreases |first|
  {
    if first == [] {
      assert first + second == second;
    } else {
      var t := Step(s, first[0]).state;
      assert first + second == [first[0]] + (first[1..] + second);
      RunTwice(t, first[1..], second);
      RunAfter(s, first[0], first[1..] + second);
    }
  }

  /** From an unsound state some continuation leaves work unserved. */
  lemma UnsoundFails(s: State) returns (actions: seq<Action>)
    requires Sinking(s)
    ensures !ServedAfter(s, actions)
  {
    var first := UnsoundStalls(s);
    var second := StallLeavesWork(Run(s, first).state);
    RunTwice(s, first, second);
    actions := first + second;
  }

  /** Exactly when re-enabling after a `napi_disable` is safe, in every quiesced state
      that any run with any number of disables reaches, whoever is under way: all
      continuations serve queued work if and only if the state is sound. */
  lemma EnableIsSafeIff(before: seq<Action>, s: State)
    requires CleanStarts(INITIAL, before) && Run(INITIAL, before) == Go(s) && s.bits.disable && !s.disabling
    ensures Step(s, Enable).Go?
    ensures (forall after: seq<Action> :: ServedAfter(Step(s, Enable).state, after)) <==> Sound(s)
  {
    RunKeepsKnown(INITIAL, before);
    var t := Step(s, Enable).state;
    if Sound(s) {
      assert Known(t) && Sound(t);
      forall after: seq<Action> | Disable !in after && CleanStarts(t, after) && Run(t, after).Go?
        ensures ServedAfter(t, after)
      {
        RunKeepsSound(t, after);
      }
    } else {
      var after := UnsoundFails(t);
    }
  }

  /** Starting the queue notifies nobody. After any clean run from probing on, with any
      number of disables, at rest with the context enabled, sound and nothing
      scheduled, a start serves queued work in all continuations if and only if it
      does not open a stopped queue that holds packets, be it from before the open. */
  lemma StartServesIff(before: seq<Action>, s: State)
    requires CleanStarts(INITIAL, before) && Run(INITIAL, before) == Go(s) && !s.bits.disable && Sound(s)
    requires Quiet(s) && !s.bits.sched
    ensures (forall after: seq<Action> :: ServedAfter(Step(s, Start).state, after)) <==> (s.stopped ==> s.egress == 0)
  {
    RunKeepsKnown(INITIAL, before);
    var t := Step(s, Start).state;
    if s.stopped ==> s.egress == 0 {
      forall after: seq<Action> | Disable !in after && CleanStarts(t, after) && Run(t, after).Go?
        ensures ServedAfter(t, after)
      {
        RunKeepsSound(t, after);
      }
    } else {
      assert Run(t, []) == Go(t);
      assert !ServedAfter(t, []);
    }
  }

  // ----------------------------------------------------------- how stalls arise

  lemma {:induction false} RunAlong(states: seq<State>, actions: seq<Action>)
    requires |states| == |actions| + 1
    requires forall i :: 0 <= i < |actions| ==> Step(states[i], actions[i]) == Go(states[i + 1])
    ensures Run(states[0], actions) == Go(states[|actions|])
    decreases |actions|
  {
    if actions != [] {
      RunAlong(states[1..], actions[1..]);
    }
  }

  const RESTART := [Stop, Disable] + [EgrFlag, Kick]

  lemma RestartQuiesces(s: State)
    requires s.bits.active && !s.bits.disable && !s.bits.sched && !s.disabling
    ensures Run(s, [Stop, Disable]) == Go(s.(stopped := true, bits := s.bits.(disable := true)))
  {
    var s1 := s.(stopped := true);
    RunAlong([s, s1, s1.(bits := s.bits.(disable := true))], [Stop, Disable]);
  }

  lemma LateFlagIsRefused(s: State)
    requires s.egrOpen == 1 && s.winners == 0 && !s.noKick && s.bits.disable
    ensures Run(s, [EgrFlag, Kick]) == Go(s.(egrOpen := 0, noKick := true))
  {
    var s1 := s.(egrOpen := 0, noKick := true, winners := 1);
    RunAlong([s, s1, s1.(winners := 0)], [EgrFlag, Kick]);
  }

  /** A link restart can cause one: an egress producer that read the queue as
      running just before the restart stopped it takes the flag while the context
      is disabled. What the restart does next, its enable and its wake included,
      cannot undo the stall. */
  lemma LateProducerStalls(s: State)
    requires Quiet(s.(egrOpen := 0)) && s.egrOpen == 1 && s.egress > 0 && !s.disabling
    requires s.bits.active && !s.bits.disable && !s.bits.sched && !s.noKick && !s.stopped
    ensures var t := Run(s, RESTART);
            t.Go? && Stalled(t.state) && t.state.egress > 0 && t.state.bits.disable && !t.state.disabling
  {
    RestartQuiesces(s);
    LateFlagIsRefused(Run(s, [Stop, Disable]).state);
    RunConcat(s, [Stop, Disable], [EgrFlag, Kick]);
  }

  /** Three steps of an opened device reach such a state. */
  lemma LateProducerIsReachable() returns (s: State)
    ensures Run(OPENED, [WorkerStart, EgrAdd(1), EgrRead]) == Go(s)
    ensures Quiet(s.(egrOpen := 0)) && s.egrOpen == 1 && s.egress > 0 && !s.disabling
    ensures s.bits.active && !s.bits.disable && !s.bits.sched && !s.noKick && !s.stopped
  {
    var s1 := OPENED.(bits := OPENED.bits.(active := true));
    var s2 := s1.(egress := 1, egrAdded := 1);
    s := s2.(egrAdded := 0, egrOpen := 1);
    RunAlong([OPENED, s1, s2, s], [WorkerStart, EgrAdd(1), EgrRead]);
  }

  const RECHECK := [Disable, LeaveLoop(false), DisableSpin] +
  [PollStep, PollStep, PollStep, PollStep, PollStep, PollReturn]

  lemma {:induction false} RunConcat(s: State, first: seq<Action>, second: seq<Action>)
    requires Run(s, first).Go?
    ensures Run(s, first + second) == Run(Run(s, first).state, second)
    decreases |first|
  {
    if first == [] {
      assert first + second == second;
    } else {
      assert (first + second)[1..] == first[1..] + second;
      RunConcat(Step(s, first[0]).state, first[1..], second);
    }
  }

  /** A disable that meets a poll waits until the poll has completed. */
  lemma DisableMeetsPoll(s: State)
    requires s.worker.Draining? && s.bits.active && s.bits.sched && !s.bits.disable && !s.disabling
    ensures Run(s, [Disable, LeaveLoop(false), DisableSpin])
         == Go(s.(bits := s.bits.(disable := true, sched := false), worker := WentIdle, full := false))
  {
    var s1 := s.(bits := s.bits.(disable := true), disabling := true);
    var s2 := s1.(bits := s1.bits.(sched := false), worker := WentIdle, full := false);
    RunAlong([s, s1, s2, s2.(disabling := false)], [Disable, LeaveLoop(false), DisableSpin]);
  }

  /** The re-check of a poll that was quiesced takes the flag for nothing. */
  lemma RecheckIsRefused(s: State)
    requires s.worker.WentIdle? && s.ingress > 0 && s.stopped && s.bits.disable && !s.full
    ensures Run(s, [PollStep, PollStep, PollStep, PollStep, PollStep, PollReturn])
         == Go(s.(noKick := true, worker := Away(false)))
  {
    var s1 := s.(noKick := false, worker := Cleared);
    var s2 := s1.(worker := LookIngress);
    var s3 := s1.(worker := Rerun);
    var s4 := s.(noKick := true, worker := RerunWon);
    var s5 := s4.(worker := Returning);
    RunAlong([s, s1, s2, s3, s4, s5, s4.(worker := Away(false))],
             [PollStep, PollStep, PollStep, PollStep, PollStep, PollReturn]);
  }

  /** No racing producer is needed: a `napi_disable` that meets a poll which leaves
      ingress packets quiesces with `no_kick` taken by the poll's own re-check,
      whose request is then refused. */
  lemma RecheckTakesFlag(s: State)
    requires s.worker.Draining? && s.bits.active && s.bits.sched && s.ingress > 0 && s.stopped
    requires !s.bits.disable && !s.disabling
    ensures var t := Run(s, RECHECK);
            && t.Go? && t.state.bits.disable && !t.state.disabling
            && t.state == s.(bits := s.bits.(disable := true, sched := false), noKick := true,
                          worker := Away(false), full := false)
            && (Sound(t.state) <==> s.winners > 0)
  {
    DisableMeetsPoll(s);
    var t := s.(bits := s.bits.(disable := true, sched := false), worker := WentIdle, full := false);
    RunConcat(s, [Disable, LeaveLoop(false), DisableSpin],
              [PollStep, PollStep, PollStep, PollStep, PollStep, PollReturn]);
    RecheckIsRefused(t);
  }

  /** One received packet and one stop of an opened device reach such a poll. */
  lemma RecheckIsReachable() returns (s: State)
    ensures Run(OPENED, [WorkerStart, Stop, RxAdd(1), RxFlag, Kick, PollStart]) == Go(s)
    ensures s.worker.Draining? && s.bits.active && s.bits.sched && s.ingress > 0 && s.stopped && s.winners == 0
    ensures !s.bits.disable && !s.disabling
  {
    var s1 := OPENED.(bits := OPENED.bits.(active := true));
    var s2 := s1.(stopped := true);
    var s3 := s2.(ingress := 1, rxAdded := 1);
    var s4 := s3.(rxAdded := 0, noKick := true, winners := 1);
    var s5 := s4.(winners := 0, bits := Schedule(s1.bits));
    s := s5.(worker := Draining);
    RunAlong([OPENED, s1, s2, s3, s4, s5, s], [WorkerStart, Stop, RxAdd(1), RxFlag, Kick, PollStart]);
  }

  /** At rest soundness comes down to the flag. */
  lemma QuietIsSoundIff(s: State)
    requires Quiet(s) && !s.bits.sched
    ensures Sound(s) <==> !s.noKick
  {
  }

  // ----------------------------------------------------------------- progress

  /** What a producer under way or the worker does next when nothing new is queued. */
  function Onward(s: State): Action {
    if s.rxAdded > 0 then RxFlag
    else if s.egrAdded > 0 then EgrRead
    else if s.egrOpen > 0 then EgrFlag
    else if s.winners > 0 then Kick
    else
      match s.worker
      case Away(_) => if s.bits.active then PollStart else WorkerStart
      case Draining => if Work(s) then Consume(s.ingress, 0, if s.stopped then 0 else s.egress) else LeaveLoop(false)
      case Returning => PollReturn
      case _ => PollStep
  }

  predicate Rested(s: State) { Quiet(s) && !s.bits.sched }

  /** A bound on the steps that are left. */
  function Left(s: State): nat { ProducersLeft(s) + BitsLeft(s.bits, s.worker) + WorkerLeft(s) }

  function ProducersLeft(s: State): nat { 400 * s.egrAdded + 300 * s.rxAdded + 300 * s.egrOpen + 200 * s.winners }

  function BitsLeft(b: Bits, w: Worker): nat {
    (if b.missed then 100 else 0) + (if b.sched && !w.Draining? then 70 else 0) + (if b.active then 0 else 1)
  }

  function WorkerLeft(s: State): nat {
    (if s.full && !s.worker.Away? && !s.worker.Draining? then 80 else 0)
    + match s.worker
      case Away(again) => if again then 80 else 0
      case Draining => if Work(s) then 60 else 40
      case WentIdle => if Work(s) then 177 else 36
      case StaysDue => 35
      case Cleared => if Work(s) then 176 else 35
      case LookEgress => if s.egress > 0 || s.ingress > 0 then 174 else 34
      case LookIngress => if s.ingress > 0 then 173 else 33
      case Rerun => 172
      case RerunWon => 171
      case Returning => 2
  }

  ghost predicate GoesOn(s: State, o: Outcome) { o.Go? && Left(o.state) < Left(s) }

  lemma SameWorkerLeft(s: State, t: State)
    requires t.worker == s.worker && t.full == s.full
    requires t.ingress == s.ingress && t.egress == s.egress && t.stopped == s.stopped
    ensures WorkerLeft(t) == WorkerLeft(s)
  {
  }

  lemma KickGoesOn(s: State)
    requires s.winners > 0
    ensures GoesOn(s, ProducerNext(s, Kick))
  {
    SameWorkerLeft(s, ProducerNext(s, Kick).state);
  }

  lemma ProducersGoOn(s: State)
    requires s.rxAdded > 0 || s.egrAdded > 0 || s.egrOpen > 0
    ensures GoesOn(s, ProducerNext(s, Onward(s)))
  {
    SameWorkerLeft(s, ProducerNext(s, Onward(s)).state);
  }

  lemma PollStepGoesOn(s: State)
    requires !s.bits.disable && !s.worker.Away? && !s.worker.Draining? && !s.worker.Returning?
    ensures GoesOn(s, PollNext(s))
  {
    var t := PollNext(s).state;
    assert ProducersLeft(t) == ProducersLeft(s);
    assert !s.worker.RerunWon? ==> WorkerLeft(t) < WorkerLeft(s) && t.bits == s.bits;
  }

  lemma PollGoesOn(s: State)
    requires !s.bits.disable && Basics(s) && !Rested(s) && (s.worker.Away? || s.worker.Draining? || s.worker.Returning?)
    requires s.rxAdded == 0 && s.egrAdded == 0 && s.egrOpen == 0 && s.winners == 0
    ensures GoesOn(s, Step(s, Onward(s)))
  {
    var t := Step(s, Onward(s)).state;
    assert ProducersLeft(t) == ProducersLeft(s);
    match s.worker
    case Away(_) =>
    case Draining =>
    case Returning =>
  }

  /** Only producers under way and the worker act. */
  predicate IsWork(a: Action) {
    || a.RxFlag? || a.EgrRead? || a.EgrFlag? || a.Kick? || a.WorkerStart?
    || a.PollStart? || a.Consume? || a.PollStep? || a.LeaveLoop? || a.PollReturn?
  }

  lemma {:induction false} WorkRests(s: State) returns (actions: seq<Action>)
    requires Known(s) && Sound(s) && !s.bits.disable
    ensures (forall i :: 0 <= i < |actions| ==> IsWork(actions[i])) && CleanStarts(s, actions)
    ensures Run(s, actions).Go? && Rested(Run(s, actions).state)
    decreases Left(s)
  {
    if Rested(s) {
      actions := [];
    } else {
      var a := Onward(s);
      if s.rxAdded > 0 || s.egrAdded > 0 || s.egrOpen > 0 {
        ProducersGoOn(s);
      } else if s.winners > 0 {
        KickGoesOn(s);
      } else if s.worker.Away? || s.worker.Draining? || s.worker.Returning? {
        PollGoesOn(s);
      } else {
        PollStepGoesOn(s);
      }
      StepKeepsKnown(s, a);
      StepKeepsSound(s, a);
      var rest := WorkRests(Step(s, a).state);
      RunAfter(s, a, rest);
      actions := [a] + rest;
    }
  }

  /** All work can be done: every run of an opened device that nobody disables can go on,
      with nothing new queued, until no poll is due and nothing is left that the
      device could route or send. */
  lemma AllWorkCanBeDone(before: seq<Action>) returns (after: seq<Action>)
    requires Disable !in before && CleanStarts(OPENED, before) && Run(OPENED, before).Go?
    ensures forall i :: 0 <= i < |after| ==> IsWork(after[i])
    ensures Run(OPENED, before + after).Go?
    ensures var t := Run(OPENED, before + after).state; Rested(t) && t.ingress == 0 && (t.egress == 0 || t.stopped)
  {
    RunKeepsSound(OPENED, before);
    after := WorkRests(Run(OPENED, before).state);
    RunTwice(OPENED, before, after);
    assert Disable !in before + after;
    NeverIdleOnWork(before + after);
  }
}
