/** The device-to-guest half of the vNIC's poll: the router queues packets and requests
    a poll; the poll delivers them into guest buffers, and after finding no buffer
    it turns the guest's notifications on and counts again before it goes idle. The
    guest-to-device half is `VnicNotify`; here it is an occasional request. */
module VnicDeliver {
  import opened Arith
  import opened Napi

  /** What the last attempt of a poll to deliver came to: nothing queued, no guest
      buffer, or neither a packet nor an empty ring to report. */
  datatype Last = Nothing | NoAvail | NoProgress

  /** Program points of the polling worker. */
  datatype Worker =
    | Away
    | Masking            // poll entered, about to set the suppression flag
    | Draining
    | Leaving(last: Last)  // about to complete
    | Checking(last: Last) // went idle, about to look at the other queue
    | Counting
    | Unmasking
    | Recounting
    | Remasking
    | Rescheduling

  /** `adding`: router workers between queueing a packet and requesting a poll.
      `publishing`, `trapped`, `flagged`: guest threads before they read the flag,
      traps before they set it, and traps before they request a poll. `stuck`: the
      last poll gave up without progress. */
  datatype State = State(
    bits: Bits,
    noNotify: bool,
    avail: nat,
    egress: nat,
    worker: Worker,
    adding: nat,
    publishing: nat,
    trapped: nat,
    flagged: nat,
    stuck: bool)

  /** `Deliver`: the poll itself routes `back` packets to the guest, delivers `n` and
      uses up `chains` guest buffers. */
  datatype Action =
    | Queue(n: nat)
    | Kick
    | Publish(n: nat)
    | GuestCheck
    | TrapFlag
    | TrapSchedule
    | OtherRequest
    | PollStart
    | Deliver(back: nat, n: nat, chains: nat)
    | Look
    | GiveUp     // an attempt that reports neither a packet nor an empty ring
    | PollStep
    | OtherFound // the other queue has work: reschedule at once
    | BudgetUsed

  datatype Outcome = Refused | Go(state: State)

  const INITIAL := State(REGISTERED.(disable := false), false, 0, 0, Away, 0, 0, 0, 0, false)

  function PollNext(s: State): Outcome {
    match s.worker
    case Away => Refused
    case Masking => Go(s.(noNotify := true, worker := Draining))
    case Draining => Refused
    case Leaving(last) => Go(s.(bits := Complete(s.bits), worker := if GoesIdle(s.bits) then Checking(last) else Away))
    case Checking(last) => Go(s.(worker := if last.NoAvail? then Counting else Away))
    case Counting => Go(s.(worker := if s.avail == 0 then Unmasking else Remasking))
    case Unmasking => Go(s.(noNotify := false, worker := Recounting))
    case Recounting => Go(s.(worker := if s.avail == 0 then Away else Remasking))
    case Remasking => Go(s.(noNotify := true, worker := Rescheduling))
    case Rescheduling => Go(s.(bits := Schedule(s.bits), worker := Away))
  }

  /** The last attempt to deliver: there is nothing to deliver or no buffer for it. */
  function LookNext(s: State): Outcome {
    if !s.worker.Draining? then Refused
    else if s.egress == 0 then Go(s.(worker := Leaving(Nothing)))
    else if s.avail == 0 then Go(s.(worker := Leaving(NoAvail)))
    else Refused
  }

  function Step(s: State, a: Action): Outcome {
    match a
    case Queue(n) => if n == 0 then Refused else Go(s.(egress := s.egress + n, adding := s.adding + 1))
    case Kick => if s.adding == 0 then Refused else Go(s.(adding := s.adding - 1, bits := Schedule(s.bits)))
    case Publish(n) => Go(s.(avail := s.avail + n, publishing := s.publishing + 1))
    case GuestCheck =>
      if s.publishing == 0 then Refused
      else Go(s.(publishing := s.publishing - 1, trapped := if s.noNotify then s.trapped else s.trapped + 1))
    case TrapFlag =>
      if s.trapped == 0 then Refused
      else Go(s.(trapped := s.trapped - 1, flagged := s.flagged + 1, noNotify := true))
    case TrapSchedule =>
      if s.flagged == 0 then Refused else Go(s.(flagged := s.flagged - 1, bits := Schedule(s.bits)))
    case OtherRequest => Go(s.(bits := Schedule(s.bits)))
    case PollStart => if s.worker.Away? && s.bits.sched then Go(s.(worker := Masking, stuck := false)) else Refused
    case Deliver(back, n, chains) =>
      if s.worker.Draining? && n <= s.egress + back && chains <= s.avail then
        Go(s.(egress := s.egress + back - n, avail := s.avail - chains))
      else Refused
    case Look => LookNext(s)
    case GiveUp =>
      if s.worker.Draining? && s.egress > 0 then Go(s.(worker := Leaving(NoProgress), stuck := true)) else Refused
    case PollStep => PollNext(s)
    case OtherFound => if s.worker.Checking? then Go(s.(bits := Schedule(s.bits), worker := Away)) else Refused
    case BudgetUsed => if s.worker.Draining? then Go(s.(worker := Masking)) else Refused
  }

  function Run(s: State, actions: seq<Action>): Outcome
    decreases |actions|
  {
    if actions == [] then Go(s)
    else
      match Step(s, actions[0])
      case Refused => Refused
      case Go(t) => Run(t, actions[1..])
  }

  /** Nobody is on the way to a request, and the worker is outside its poll. */
  predicate Quiet(s: State) {
    s.adding == 0 && s.publishing == 0 && s.trapped == 0 && s.flagged == 0 && s.worker.Away?
  }

  /** Suppression is in force only while a poll is coming. */
  predicate Heard(s: State) { s.noNotify ==> s.flagged > 0 || s.bits.sched }

  /** Every guest buffer is known to a guest thread, a trap or the scheduler. */
  predicate Noticed(s: State) {
    s.avail > 0 ==> s.publishing > 0 || s.trapped > 0 || s.flagged > 0 || s.bits.sched
  }

  ghost predicate Inv(s: State) {
    && !s.bits.disable
    && (s.worker.Masking? || s.worker.Draining? || s.worker.Leaving? ==> s.bits.sched)
    && (s.worker.Leaving? && s.worker.last.Nothing? && s.egress > 0 ==> s.adding > 0 || s.bits.missed)
    && (s.worker.Checking? && s.worker.last.Nothing? && s.egress > 0 ==> s.adding > 0 || s.bits.sched)
    && ((s.worker.Leaving? || s.worker.Checking?) && s.worker.last.NoProgress? ==> s.stuck && s.noNotify)
    && (s.worker.Draining? ==> s.noNotify)
    && (s.stuck ==> s.worker.Away? || ((s.worker.Leaving? || s.worker.Checking?) && s.worker.last.NoProgress?))
    && (s.worker.Recounting? ==> Heard(s))
    && (s.worker.Away? && s.egress > 0 && s.adding == 0 && !s.bits.sched && !s.stuck ==> Heard(s) && Noticed(s))
  }

  lemma StepKeepsInv(s: State, a: Action)
    requires Inv(s) && Step(s, a).Go?
    ensures Inv(Step(s, a).state)
  {
    match a
    case PollStep =>
    case Kick =>
    case _ =>
  }

  lemma {:induction false} RunKeepsInv(s: State, actions: seq<Action>)
    requires Inv(s) && Run(s, actions).Go?
    ensures Inv(Run(s, actions).state)
    decreases |actions|
  {
    if actions != [] {
      StepKeepsInv(s, actions[0]);
      RunKeepsInv(Step(s, actions[0]).state, actions[1..]);
    }
  }

  lemma {:induction false} RunKeepsTrying(s: State, actions: seq<Action>)
    requires !s.stuck && GiveUp !in actions && Run(s, actions).Go?
    ensures !Run(s, actions).state.stuck
    decreases |actions|
  {
    if actions != [] {
      RunKeepsTrying(Step(s, actions[0]).state, actions[1..]);
    }
  }

  /** At rest with no poll scheduled, a queued packet has no guest buffer to go to, and
      notifications are on, so that the next buffer traps. */
  predicate Served(s: State) {
    Quiet(s) && s.egress > 0 && !s.bits.sched ==> s.avail == 0 && !s.noNotify
  }

  /** No packet for the guest goes unnoticed: that holds over every run, except while the
      last poll is one that gave up. */
  lemma NoPacketGoesUnnoticed(actions: seq<Action>)
    requires Run(INITIAL, actions).Go?
    ensures var t := Run(INITIAL, actions).state; !t.stuck ==> Served(t)
    ensures GiveUp !in actions ==> Served(Run(INITIAL, actions).state)
  {
    RunKeepsInv(INITIAL, actions);
    if GiveUp !in actions {
      RunKeepsTrying(INITIAL, actions);
    }
  }

  // ----------------------------------------------------------------- progress

  /** What a request under way or the worker does next when nothing new is queued or published. */
  function Onward(s: State): Action {
    if s.adding > 0 then Kick
    else if s.publishing > 0 then GuestCheck
    else if s.trapped > 0 then TrapFlag
    else if s.flagged > 0 then TrapSchedule
    else if s.worker.Away? then PollStart
    else if s.worker.Draining? then
      if s.egress > 0 && s.avail > 0 then Deliver(0, Min(s.egress, s.avail), Min(s.egress, s.avail)) else Look
    else PollStep
  }

  predicate Rested(s: State) { Quiet(s) && !s.bits.sched }

  /** A bound on the steps that are left. */
  function Left(s: State): nat {
    400 * s.adding + 300 * s.publishing + 200 * s.trapped + 100 * s.flagged + (if s.bits.missed then 40 else 0)
    + (if s.bits.sched && !s.worker.Masking? && !s.worker.Draining? && !s.worker.Leaving? then 20 else 0)
    + WorkerLeft(s)
  }

  function WorkerLeft(s: State): nat {
    match s.worker
    case Away => 0
    case Masking => 11
    case Draining => if s.egress > 0 && s.avail > 0 then 10 else 9
    case Leaving(last) => if last.NoAvail? && s.avail > 0 then 85 else 8
    case Checking(last) => if last.NoAvail? && s.avail > 0 then 84 else 7
    case Counting => if s.avail > 0 then 83 else 6
    case Unmasking => if s.avail > 0 then 82 else 5
    case Recounting => if s.avail > 0 then 81 else 4
    case Remasking => 80
    case Rescheduling => 79
  }

  lemma RequestsGoOn(s: State)
    requires !s.bits.disable && (s.adding > 0 || s.publishing > 0 || s.trapped > 0 || s.flagged > 0)
    ensures Step(s, Onward(s)).Go? && Left(Step(s, Onward(s)).state) < Left(s)
  {
  }

  lemma PollGoesOn(s: State)
    requires Inv(s) && !Rested(s) && s.adding == 0 && s.publishing == 0 && s.trapped == 0 && s.flagged == 0
    ensures Step(s, Onward(s)).Go? && Left(Step(s, Onward(s)).state) < Left(s)
  {
    match s.worker
    case Draining =>
    case Leaving(_) =>
    case _ =>
  }

  /** Nothing new is queued, published or requested, and no poll gives up. */
  predicate IsWork(a: Action) {
    !a.Queue? && !a.Publish? && !a.OtherRequest? && !a.OtherFound? && !a.GiveUp?
  }

  lemma {:induction false} WorkRests(s: State) returns (actions: seq<Action>)
    requires Inv(s)
    ensures forall i :: 0 <= i < |actions| ==> IsWork(actions[i])
    ensures Run(s, actions).Go? && Rested(Run(s, actions).state)
    decreases Left(s)
  {
    if Rested(s) {
      actions := [];
    } else {
      if s.adding > 0 || s.publishing > 0 || s.trapped > 0 || s.flagged > 0 {
        RequestsGoOn(s);
      } else {
        PollGoesOn(s);
      }
      StepKeepsInv(s, Onward(s));
      var rest := WorkRests(Step(s, Onward(s)).state);
      actions := [Onward(s)] + rest;
      assert actions[1..] == rest;
    }
  }

  lemma {:induction false} RunConcat(s: State, a: seq<Action>, b: seq<Action>)
    requires Run(s, a).Go?
    ensures Run(s, a + b) == Run(Run(s, a).state, b)
    decreases |a|
  {
    if a == [] {
      assert a + b == b;
    } else {
      assert (a + b)[1..] == a[1..] + b;
      RunConcat(Step(s, a[0]).state, a[1..], b);
    }
  }

  /** Packets and buffers can meet: every run in which no poll gives up can go on, with
      nothing new queued or published, until no poll is due and either no packet
      is left or no buffer, with notifications on. */
  lemma EveryPacketCanBeDelivered(before: seq<Action>) returns (after: seq<Action>)
    requires GiveUp !in before && Run(INITIAL, before).Go?
    ensures forall i :: 0 <= i < |after| ==> IsWork(after[i])
    ensures Run(INITIAL, before + after).Go?
    ensures var t := Run(INITIAL, before + after).state; Rested(t) && (t.egress == 0 || (t.avail == 0 && !t.noNotify))
  {
    RunKeepsInv(INITIAL, before);
    after := WorkRests(Run(INITIAL, before).state);
    RunConcat(INITIAL, before, after);
    assert GiveUp !in before + after;
    NoPacketGoesUnnoticed(before + after);
  }

  // --------------------------------------------------------------- giving up

  /** Somebody is on the way to a request. */
  predicate Coming(s: State) { s.adding > 0 || s.trapped > 0 || s.flagged > 0 }

  /** After a poll that gave up another one starts. */
  predicate Retried(s: State) {
    s.stuck ==> Coming(s) || if s.worker.Leaving? then s.bits.missed else s.bits.sched
  }

  lemma StepKeepsRetried(s: State, a: Action)
    requires Inv(s) && Retried(s) && a != GiveUp && Step(s, a).Go?
    ensures Retried(Step(s, a).state)
  {
    match a
    case PollStep =>
    case _ =>
  }

  lemma {:induction false} RunKeepsRetried(s: State, actions: seq<Action>)
    requires Inv(s) && Retried(s) && GiveUp !in actions && Run(s, actions).Go?
    ensures Inv(Run(s, actions).state) && Retried(Run(s, actions).state)
    decreases |actions|
  {
    if actions != [] {
      StepKeepsInv(s, actions[0]);
      StepKeepsRetried(s, actions[0]);
      RunKeepsRetried(Step(s, actions[0]).state, actions[1..]);
    }
  }

  ghost predicate ServedAfter(s: State, actions: seq<Action>) {
    GiveUp !in actions && Run(s, actions).Go? ==> Served(Run(s, actions).state)
  }

  /** The poll ends and the guest's threads find notifications suppressed. */
  function Sink(s: State): Action { if s.worker.Away? then GuestCheck else PollStep }

  function Depth(s: State): nat {
    s.publishing + if s.worker.Leaving? then 2 else if s.worker.Checking? then 1 else 0
  }

  lemma {:induction false} UnretriedStrands(s: State) returns (actions: seq<Action>)
    requires Inv(s) && !Retried(s) && s.egress > 0 && s.noNotify
    ensures !ServedAfter(s, actions)
    decreases Depth(s)
  {
    if Quiet(s) {
      actions := [];
    } else {
      var t := Step(s, Sink(s)).state;
      StepKeepsInv(s, Sink(s));
      var rest := UnretriedStrands(t);
      actions := [Sink(s)] + rest;
      assert actions[1..] == rest;
    }
  }

  /** Exactly when giving up is harmless: after any run, all continuations in which no
      poll gives up again keep packets noticed if and only if, when it gives up, a
      further request has been made or is on its way. */
  lemma GiveUpIsSafeIff(before: seq<Action>, s: State)
    requires Run(INITIAL, before) == Go(s) && Step(s, GiveUp).Go?
    ensures (forall after: seq<Action> :: ServedAfter(Step(s, GiveUp).state, after)) <==> s.bits.missed || Coming(s)
  {
    RunKeepsInv(INITIAL, before);
    StepKeepsInv(s, GiveUp);
    var t := Step(s, GiveUp).state;
    if s.bits.missed || Coming(s) {
      forall after: seq<Action> | GiveUp !in after && Run(t, after).Go?
        ensures ServedAfter(t, after)
      {
        RunKeepsRetried(t, after);
      }
    } else {
      var after := UnretriedStrands(t);
      assert !ServedAfter(t, after);
    }
  }

  const GIVEN_UP := [Queue(1), Kick, PollStart, PollStep, Publish(128), GuestCheck, GiveUp, PollStep, PollStep]

  /** The unsafe case occurs: a packet that fits no guest buffer makes an attempt with
      a count of 0, which the poll takes for an empty queue. Packet and buffers are
      then left waiting, and the guest's next buffer does not trap. */
  lemma GivingUpStrands()
    ensures var t := Run(INITIAL, GIVEN_UP);
            && t.Go? && Quiet(t.state) && !t.state.bits.sched
            && t.state.egress > 0 && t.state.avail > 0 && t.state.noNotify
  {
    var s1 := INITIAL.(egress := 1, adding := 1);
    var s2 := s1.(adding := 0, bits := Schedule(s1.bits));
    var s3 := s2.(worker := Masking);
    var s4 := s3.(noNotify := true, worker := Draining);
    var s5 := s4.(avail := 128, publishing := 1);
    var s6 := s5.(publishing := 0);
    var s7 := s6.(worker := Leaving(NoProgress), stuck := true);
    var s8 := s7.(bits := Complete(s7.bits), worker := Checking(NoProgress));
    var s9 := s8.(worker := Away);
    RunAlong([INITIAL, s1, s2, s3, s4, s5, s6, s7, s8, s9], GIVEN_UP);
  }

  lemma {:induction false} RunAlong(states: seq<State>, actions: seq<Action>)
    requires |states| == |actions| + 1
    requires forall i :: 0 <= i < |actions| ==> Step(states[i], actions[i]) == Go(states[i + 1])
    ensures Run(states[0], actions) == Go(states[|actions|])
    decreases |actions|
  {
    if actions != [] {
      RunAlong(states[1..], actions[1..]);
    }
  }
}
