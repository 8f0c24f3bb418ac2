/** Notification suppression between the guest and the vNIC's poll on the
    guest-to-device queue (section 2.4.9 of Virtio 1.0), over sequentially
    consistent interleavings. The guest publishes buffers and then reads the
    device's suppression flag; a notification is a trap that sets the flag and
    requests a poll. The vNIC's context is never disabled once it is set up. */
module VnicNotify {
  import opened Napi

  /** Program points of the polling worker. */
  datatype Worker =
    | Away
    | Masking       // poll entered, about to set the suppression flag
    | Draining
    | Counting      // went idle, about to count available buffers
    | Unmasking     // counted none, about to clear the flag
    | Recounting    // flag cleared, about to count again
    | Remasking     // buffers found, about to set the flag
    | Rescheduling

  /** `publishing`: guest threads between publishing and reading the flag.
      `trapped`: traps that have not yet set the flag.
      `flagged`: traps that have set it and not yet called `napi_schedule`. */
  datatype State = State(
    bits: Bits,
    noNotify: bool,
    avail: nat,
    worker: Worker,
    publishing: nat,
    trapped: nat,
    flagged: nat)

  datatype Action =
    | Publish(n: nat)
    | GuestCheck
    | TrapFlag
    | TrapSchedule
    | OtherRequest
    | PollStart
    | Take(n: nat)
    | PollStep
    | BudgetUsed

  datatype Outcome = Refused | Go(state: State)

  const INITIAL := State(REGISTERED.(disable := false), false, 0, Away, 0, 0, 0)

  function PollNext(s: State): Outcome {
    match s.worker
    case Away => Refused
    case Masking => Go(s.(noNotify := true, worker := Draining))
    case Draining => Go(s.(bits := Complete(s.bits), worker := if GoesIdle(s.bits) then Counting else Away))
    case Counting => Go(s.(worker := if s.avail == 0 then Unmasking else Remasking))
    case Unmasking => Go(s.(noNotify := false, worker := Recounting))
    case Recounting => Go(s.(worker := if s.avail == 0 then Away else Remasking))
    case Remasking => Go(s.(noNotify := true, worker := Rescheduling))
    case Rescheduling => Go(s.(bits := Schedule(s.bits), worker := Away))
  }

  /** `OtherRequest` stands for the router and the device-to-guest queue, which
      share the context. `BudgetUsed` leaves the poll without completing; the
      worker then polls again at once. */
  function Step(s: State, a: Action): Outcome {
    match a
    case Publish(n) => Go(s.(avail := s.avail + n, publishing := s.publishing + 1))
    case GuestCheck =>
      if s.publishing == 0 then Refused
      else Go(s.(publishing := s.publishing - 1, trapped := if s.noNotify then s.trapped else s.trapped + 1))
    case TrapFlag =>
      if s.trapped == 0 then Refused
      else Go(s.(trapped := s.trapped - 1, flagged := s.flagged + 1, noNotify := true))
    case TrapSchedule =>
      if s.flagged == 0 then Refused else Go(s.(flagged := s.flagged - 1, bits := Schedule(s.bits)))
    case OtherRequest => Go(s.(bits := Schedule(s.bits)))
    case PollStart => if s.worker.Away? && s.bits.sched then Go(s.(worker := Masking)) else Refused
    case Take(n) => if s.worker.Draining? && n <= s.avail then Go(s.(avail := s.avail - n)) else Refused
    case PollStep => PollNext(s)
    case BudgetUsed => if s.worker.Draining? then Go(s.(worker := Masking)) else Refused
  }

  function Run(s: State, actions: seq<Action>): Outcome
    decreases |actions|
  {
    if actions == [] then Go(s)
    else
      match Step(s, actions[0])
      case Refused => Refused
      case Go(t) => Run(t, actions[1..])
  }

  /** No guest thread is between publishing and checking, no trap is in flight
      and the worker is outside its poll. */
  predicate Quiet(s: State) {
    s.publishing == 0 && s.trapped == 0 && s.flagged == 0 && s.worker.Away?
  }

  ghost predicate Inv(s: State) {
    && !s.bits.disable
    && (s.bits.missed ==> s.bits.sched)
    && (s.worker.Masking? || s.worker.Draining? ==> s.bits.sched)
    && (s.worker.Draining? ==> s.noNotify)
    // every published buffer is known to somebody
    && (s.avail > 0 ==> s.bits.sched || s.publishing > 0 || s.trapped > 0 || s.flagged > 0 || !s.worker.Away?)
    // suppression is only in force while somebody will look at the ring
    && (s.noNotify ==> s.bits.sched || s.flagged > 0 || (!s.worker.Away? && !s.worker.Recounting?))
  }

  lemma StepKeepsInv(s: State, a: Action)
    requires Inv(s) && Step(s, a).Go?
    ensures Inv(Step(s, a).state)
  {
  }

  lemma {:induction false} RunKeepsInv(s: State, actions: seq<Action>)
    requires Inv(s) && Run(s, actions).Go?
    ensures Inv(Run(s, actions).state)
    decreases |actions|
  {
    if actions != [] {
      StepKeepsInv(s, actions[0]);
      RunKeepsInv(Step(s, actions[0]).state, actions[1..]);
    }
  }

  /** No guest buffer goes unnoticed: over every run, in every quiet state a
      non-empty ring has a poll scheduled, and a device that has none scheduled
      has notifications enabled, so the next publication traps. While the poll
      drains the ring, notifications are off. */
  lemma NoGuestBufferGoesUnnoticed(actions: seq<Action>)
    requires Run(INITIAL, actions).Go?
    ensures var t := Run(INITIAL, actions).state;
            && (Quiet(t) ==> (t.avail > 0 ==> t.bits.sched) && (!t.bits.sched ==> !t.noNotify))
            && (t.worker.Draining? ==> t.noNotify)
  {
    RunKeepsInv(INITIAL, actions);
  }

  // ----------------------------------------------------------------- progress

  /** What the guest's check, a trap or the worker does next when nothing new is published. */
  function Onward(s: State): Action {
    if s.publishing > 0 then GuestCheck
    else if s.trapped > 0 then TrapFlag
    else if s.flagged > 0 then TrapSchedule
    else if s.worker.Away? then PollStart
    else if s.worker.Draining? && s.avail > 0 then Take(s.avail)
    else PollStep
  }

  predicate Rested(s: State) { Quiet(s) && !s.bits.sched }

  /** A bound on the steps that are left. */
  function Left(s: State): nat {
    300 * s.publishing + 200 * s.trapped + 100 * s.flagged + (if s.avail > 0 then 100 else 0)
    + (if s.bits.missed then 40 else 0)
    + (if s.bits.sched && !s.worker.Masking? && !s.worker.Draining? then 20 else 0)
    + (match s.worker
       case Away => 0
       case Masking => 9
       case Draining => 8
       case Counting => if s.avail > 0 then 83 else 7
       case Unmasking => if s.avail > 0 then 82 else 6
       case Recounting => if s.avail > 0 then 81 else 5
       case Remasking => 80
       case Rescheduling => 79)
  }

  lemma GuestGoesOn(s: State)
    requires !s.bits.disable && (s.publishing > 0 || s.trapped > 0 || s.flagged > 0)
    ensures Step(s, Onward(s)).Go? && Left(Step(s, Onward(s)).state) < Left(s)
  {
  }

  lemma PollGoesOn(s: State)
    requires Inv(s) && !Rested(s) && s.publishing == 0 && s.trapped == 0 && s.flagged == 0
    ensures Step(s, Onward(s)).Go? && Left(Step(s, Onward(s)).state) < Left(s)
  {
  }

  predicate IsWork(a: Action) { !a.Publish? && !a.OtherRequest? }

  lemma {:induction false} WorkRests(s: State) returns (actions: seq<Action>)
    requires Inv(s)
    ensures forall i :: 0 <= i < |actions| ==> IsWork(actions[i])
    ensures Run(s, actions).Go? && Inv(Run(s, actions).state) && Rested(Run(s, actions).state)
    decreases Left(s)
  {
    if Rested(s) {
      actions := [];
    } else {
      if s.publishing > 0 || s.trapped > 0 || s.flagged > 0 {
        GuestGoesOn(s);
      } else {
        PollGoesOn(s);
      }
      StepKeepsInv(s, Onward(s));
      var rest := WorkRests(Step(s, Onward(s)).state);
      actions := [Onward(s)] + rest;
      assert actions[1..] == rest;
    }
  }

  lemma {:induction false} RunConcat(s: State, a: seq<Action>, b: seq<Action>)
    requires Run(s, a).Go?
    ensures Run(s, a + b) == Run(Run(s, a).state, b)
    decreases |a|
  {
    if a == [] {
      assert a + b == b;
    } else {
      assert (a + b)[1..] == a[1..] + b;
      RunConcat(Step(s, a[0]).state, a[1..], b);
    }
  }

  /** Every run can go on, without a new publication or request, until the ring is
      empty, no poll is due and notifications are on. */
  lemma EveryBufferCanBeTaken(before: seq<Action>) returns (after: seq<Action>)
    requires Run(INITIAL, before).Go?
    ensures forall i :: 0 <= i < |after| ==> IsWork(after[i])
    ensures Run(INITIAL, before + after).Go?
    ensures var t := Run(INITIAL, before + after).state; Rested(t) && t.avail == 0 && !t.noNotify
  {
    RunKeepsInv(INITIAL, before);
    after := WorkRests(Run(INITIAL, before).state);
    RunConcat(INITIAL, before, after);
  }
}
