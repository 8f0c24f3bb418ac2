/** The scheduler around one NAPI context: any number of producers, the worker
    loop, the notifier thread and a controller that disables and enables.
    A step is one lock-protected region, one store, or one blocking call, and a
    run is any interleaving of steps. The driver's poll function is arbitrary:
    it completes at most once and returns any verdict. */
module NapiScheduler {
  import opened Napi

  /** What a poll call returned, compared with the budget. */
  datatype Verdict = Below | AtBudget | Failed

  /** How far a poll has got: not completed, completed with a re-run due, or idle. */
  datatype Phase = Fresh | Kept | Idle

  /** Program points of the worker loop. `stale` marks a poll entered only
      because the previous one returned its full budget after having gone idle with
      nothing scheduled: the loop does not look at `sched` on that path. */
  datatype Worker =
    | Off
    | Entered
    | AtTop
    | Checked(run: bool)
    | Marked
    | Blocked
    | Woken
    | Unmarked
    | ToPoll(stale: bool)
    | InPoll(phase: Phase, stale: bool)
    | Spinning
    | SpunOut
    | Leaving

  /** Program points of the notifier for this context; all but `NIdle` hold the mutex. */
  datatype Notifier = NIdle | NLocked | NSeen | NDecided(signal: bool) | NUnlocking

  /** `disabling`: a `napi_disable` call is waiting. `owed`: some request was
      accepted and no poll has started since. */
  datatype State = State(
    bits: Bits,
    isWaiting: bool,
    worker: Worker,
    notifier: Notifier,
    disabling: bool,
    owed: bool)

  /** `SpinEnd` leaves the worker's busy loop; how many rounds that loop makes is
      left open. */
  datatype Action =
    | Produce
    | WorkerStart
    | WorkerStep
    | SpinEnd
    | PollComplete
    | PollReturn(verdict: Verdict)
    | NotifierStep
    | Disable
    | DisableSpin
    | Enable

  /** `Refused`: the action is not enabled. `Panic`: the source panics. */
  datatype Outcome = Refused | Panic | Go(state: State)

  const INITIAL := State(REGISTERED, false, Off, NIdle, false, false)

  /** Program points at which the worker holds the mutex. */
  predicate HoldsMutex(w: Worker) { w.AtTop? || w.Checked? || w.Marked? || w.Unmarked? }

  predicate MutexFree(s: State) { !HoldsMutex(s.worker) && s.notifier.NIdle? }

  /** `napi_disable` has returned and `napi_enable` has not run since. */
  predicate Quiesced(s: State) { s.bits.disable && !s.disabling }

  function WorkerNext(s: State): Outcome {
    match s.worker
    case Off => Refused
    case Entered => Go(s.(worker := if MutexFree(s) then AtTop else Spinning))
    case AtTop => Go(s.(bits := Check(s.bits), worker := Checked(s.bits.sched)))
    case Checked(run) => Go(s.(isWaiting := !run, worker := if run then Unmarked else Marked))
    case Marked => Go(s.(worker := Blocked))
    case Blocked => Refused
    case Woken => if MutexFree(s) then Go(s.(worker := AtTop)) else Refused
    case Unmarked => Go(s.(worker := ToPoll(false)))
    case ToPoll(stale) => Go(s.(worker := InPoll(Fresh, stale), owed := false))
    case InPoll(_, _) => Refused
    case Spinning => Go(s.(bits := Check(s.bits), worker := if s.bits.sched then ToPoll(false) else Spinning))
    case SpunOut => Go(s.(worker := if MutexFree(s) then AtTop else Spinning))
    case Leaving => Go(s.(bits := s.bits.(active := false), worker := Off))
  }

  function NotifierNext(s: State): Outcome {
    match s.notifier
    case NIdle => if MutexFree(s) then Go(s.(notifier := NLocked)) else Refused
    case NLocked => Go(s.(notifier := if s.isWaiting then NSeen else NUnlocking))
    case NSeen => Go(s.(bits := s.bits.(doNotify := false), notifier := NDecided(s.bits.doNotify)))
    case NDecided(signal) =>
      Go(s.(notifier := NUnlocking, worker := if signal && s.worker.Blocked? then Woken else s.worker))
    case NUnlocking => Go(s.(notifier := NIdle))
  }

  function PollNext(s: State, v: Verdict): Outcome {
    if !s.worker.InPoll? then Refused else
    match v
    case Below => Go(s.(worker := Spinning))
    case AtBudget => Go(s.(worker := ToPoll((s.worker.phase.Idle? && !s.bits.sched) || s.worker.stale)))
    case Failed => Go(s.(worker := Leaving))
  }

  function DisableNext(s: State): State {
    s.(bits := DisableLook(s.bits.(disable := true)), disabling := !MayStop(s.bits))
  }

  function Step(s: State, a: Action): Outcome {
    match a
    case Produce => Go(s.(bits := Schedule(s.bits), owed := s.owed || !s.bits.disable))
    case WorkerStart =>
      if s.worker.Off? then Go(s.(bits := s.bits.(active := true), worker := Entered)) else Refused
    case WorkerStep => WorkerNext(s)
    case SpinEnd => if s.worker.Spinning? then Go(s.(worker := SpunOut)) else Refused
    case PollComplete =>
      if s.worker.InPoll? && s.worker.phase.Fresh? then
        Go(s.(bits := Complete(s.bits), worker := InPoll(if GoesIdle(s.bits) then Idle else Kept, s.worker.stale)))
      else Refused
    case PollReturn(v) => PollNext(s, v)
    case NotifierStep => NotifierNext(s)
    case Disable =>
      if s.disabling then Refused else if s.bits.disable then Panic else Go(DisableNext(s))
    case DisableSpin => if s.disabling then Go(DisableNext(s)) else Refused
    case Enable =>
      if s.disabling then Refused
      else if EnablePanics(s.bits) then Panic
      else Go(s.(bits := s.bits.(disable := false)))
  }

  /** The state after a run; a run ends at the first action that does not go through. */
  function Run(s: State, actions: seq<Action>): Outcome
    decreases |actions|
  {
    if actions == [] then Go(s)
    else
      match Step(s, actions[0])
      case Go(t) => Run(t, actions[1..])
      case o => o
  }

  /** The poll contract the loop relies on: a poll that went idle returns less than
      its budget, unless another poll is due already. */
  predicate Obeys(s: State, a: Action) {
    !(s.worker.InPoll? && s.worker.phase.Idle? && !s.bits.sched && a == PollReturn(AtBudget))
  }

  ghost predicate Disciplined(s: State, actions: seq<Action>)
    decreases |actions|
  {
    actions == [] ||
    (Obeys(s, actions[0]) &&
     (Step(s, actions[0]).Go? ==> Disciplined(Step(s, actions[0]).state, actions[1..])))
  }

  // ------------------------------------------------------ invariants of a run

  /** The worker has seen `sched` clear and is about to sleep, or sleeps. */
  predicate FallingAsleep(w: Worker) { (w.Checked? && !w.run) || w.Marked? || w.Blocked? }

  /** The worker has seen `sched` set and has not finished the poll it owes. */
  predicate Committed(w: Worker) {
    (w.Checked? && w.run) || w.Unmarked? || (w.ToPoll? && !w.stale) ||
    (w.InPoll? && !w.phase.Idle? && !w.stale)
  }

  /** Mutual exclusion, and when `W_ACTIVE` and `is_waiting` are set. */
  ghost predicate Locking(s: State) {
    && (HoldsMutex(s.worker) ==> s.notifier.NIdle?)
    && (s.bits.active <==> !s.worker.Off?)
    && (s.worker.Marked? || s.worker.Blocked? ==> s.isWaiting)
  }

  /** A sleeping worker with a poll due has a kick on its way. */
  ghost predicate Kicked(s: State) {
    FallingAsleep(s.worker) && s.bits.sched ==>
      s.bits.doNotify || (s.worker.Blocked? && s.notifier.NDecided? && s.notifier.signal)
  }

  /** `sched` is set while a poll is owed and clear once disabling has finished. */
  ghost predicate Drained(s: State) {
    && (Committed(s.worker) ==> s.bits.sched)
    && (Quiesced(s) ==> !s.bits.sched)
    && (s.disabling ==> s.bits.disable)
  }

  ghost predicate Inv(s: State) { Locking(s) && Kicked(s) && Drained(s) }

  lemma StepKeepsLocking(s: State, a: Action)
    requires Locking(s) && Step(s, a).Go?
    ensures Locking(Step(s, a).state)
  {
    match a
    case WorkerStep => match s.worker { case Spinning => case Checked(_) => case _ => }
    case NotifierStep => match s.notifier { case NDecided(_) => case _ => }
    case Disable =>
    case _ =>
  }

  lemma StepKeepsKicked(s: State, a: Action)
    requires Locking(s) && Kicked(s) && Step(s, a).Go?
    ensures Kicked(Step(s, a).state)
  {
    match a
    case WorkerStep => match s.worker { case Spinning => case Checked(_) => case _ => }
    case NotifierStep => match s.notifier { case NDecided(_) => case _ => }
    case Disable =>
    case _ =>
  }

  lemma StepKeepsDrained(s: State, a: Action)
    requires Locking(s) && Drained(s) && Step(s, a).Go?
    ensures Drained(Step(s, a).state)
  {
    match a
    case WorkerStep => match s.worker { case Spinning => case Checked(_) => case _ => }
    case NotifierStep => match s.notifier { case NDecided(_) => case _ => }
    case Disable =>
    case _ =>
  }

  lemma StepKeepsInv(s: State, a: Action)
    requires Inv(s) && Step(s, a).Go?
    ensures Inv(Step(s, a).state)
  {
    StepKeepsLocking(s, a);
    StepKeepsKicked(s, a);
    StepKeepsDrained(s, a);
  }

  lemma {:induction false} RunKeepsInv(s: State, actions: seq<Action>)
    requires Inv(s) && Run(s, actions).Go?
    ensures Inv(Run(s, actions).state)
    decreases |actions|
  {
    if actions != [] {
      StepKeepsInv(s, actions[0]);
      RunKeepsInv(Step(s, actions[0]).state, actions[1..]);
    }
  }

  /** What disciplined polls add: no stale poll, and a request that arrives
      during a poll that has not completed is recorded in `missed`. */
  ghost predicate Recorded(s: State) {
    && (s.worker.ToPoll? ==> !s.worker.stale)
    && (s.worker.InPoll? ==> !s.worker.stale && (s.worker.phase.Fresh? && s.owed ==> s.bits.missed))
  }

  lemma StepKeepsRecorded(s: State, a: Action)
    requires Drained(s) && Recorded(s) && Obeys(s, a) && Step(s, a).Go?
    ensures Recorded(Step(s, a).state)
  {
  }

  lemma {:induction false} RunKeepsRecorded(s: State, actions: seq<Action>)
    requires Inv(s) && Recorded(s) && Disciplined(s, actions) && Run(s, actions).Go?
    ensures Inv(Run(s, actions).state) && Recorded(Run(s, actions).state)
    decreases |actions|
  {
    if actions != [] {
      StepKeepsInv(s, actions[0]);
      StepKeepsRecorded(s, actions[0]);
      RunKeepsRecorded(Step(s, actions[0]).state, actions[1..]);
    }
  }

  // -------------------------------------------------------------- wake-ups

  /** No wake-up is lost: over every run, a worker blocked on the condition
      variable while a poll is due is marked as waiting, and either the kick is
      still flagged or the notifier has taken it and is about to signal. */
  lemma BlockedWorkerWillBeSignalled(actions: seq<Action>)
    requires Run(INITIAL, actions).Go?
    ensures var t := Run(INITIAL, actions).state;
            t.worker.Blocked? && t.bits.sched ==> t.isWaiting && (t.bits.doNotify || t.notifier == NDecided(true))
  {
    RunKeepsInv(INITIAL, actions);
  }

  // ------------------------------------------------------------- quiescence

  /** While `disable` is set no step sets `sched`, and a poll that completes clears
      it even if a request was missed. */
  lemma DisableHolds(s: State, a: Action)
    requires s.bits.disable && !a.Enable? && Step(s, a).Go?
    ensures Step(s, a).state.bits.disable
    ensures Step(s, a).state.bits.sched ==> s.bits.sched && !a.PollComplete?
  {
    match a
    case WorkerStep => WorkerKeepsDisable(s);
    case NotifierStep => NotifierKeepsDisable(s);
    case _ =>
  }

  lemma WorkerKeepsDisable(s: State)
    requires WorkerNext(s).Go?
    ensures WorkerNext(s).state.bits.disable == s.bits.disable && WorkerNext(s).state.bits.sched == s.bits.sched
    ensures WorkerNext(s).state.disabling == s.disabling
  {
    match s.worker
    case AtTop =>
    case Spinning =>
    case Leaving =>
    case _ =>
  }

  lemma NotifierKeepsDisable(s: State)
    requires NotifierNext(s).Go?
    ensures NotifierNext(s).state.bits.disable == s.bits.disable && NotifierNext(s).state.bits.sched == s.bits.sched
    ensures NotifierNext(s).state.disabling == s.disabling
  {
  }

  /** Only a disable and an enable touch the disable bit or start and end a wait. */
  lemma StepKeepsControl(s: State, a: Action)
    requires !a.Disable? && !a.DisableSpin? && !a.Enable?
    ensures !Step(s, a).Panic?
    ensures Step(s, a).Go? ==>
              Step(s, a).state.bits.disable == s.bits.disable && Step(s, a).state.disabling == s.disabling
  {
    match a
    case WorkerStep => if WorkerNext(s).Go? { WorkerKeepsDisable(s); }
    case NotifierStep => if NotifierNext(s).Go? { NotifierKeepsDisable(s); }
    case _ =>
  }

  /** Once `napi_disable` has returned nothing is scheduled, so `napi_enable`
      cannot panic, and no poll starts before it: every poll start in such a
      state is a stale one, and disciplined polls leave none. */
  lemma QuiescedStartsNoPoll(actions: seq<Action>)
    requires Run(INITIAL, actions).Go? && Quiesced(Run(INITIAL, actions).state)
    ensures var t := Run(INITIAL, actions).state;
            && !t.bits.sched && Step(t, Enable).Go?
            && (t.worker.ToPoll? ==> t.worker.stale)
            && (Disciplined(INITIAL, actions) ==> !t.worker.ToPoll?)
  {
    RunKeepsInv(INITIAL, actions);
    if Disciplined(INITIAL, actions) {
      RunKeepsRecorded(INITIAL, actions);
    }
  }

  /** The discipline is needed: wherever a poll has gone idle and nothing is scheduled,
      returning the full budget can lose an accepted request, and after
      `napi_disable` it starts a poll. */
  lemma StaleReturnBreaksBoth(s: State)
    requires s.worker.InPoll? && s.worker.phase.Idle? && !s.bits.sched
    ensures !s.bits.disable ==>
              var t := Run(s, [PollReturn(AtBudget), WorkerStep, Produce, PollComplete]);
              t.Go? && t.state.owed && !t.state.bits.sched
    ensures Quiesced(s) ==>
              var t := Run(s, [PollReturn(AtBudget), WorkerStep]);
              t.Go? && Quiesced(t.state) && t.state.worker.InPoll? && t.state.worker.phase.Fresh?
  {
    var s1 := Step(s, PollReturn(AtBudget)).state;
    var s2 := Step(s1, WorkerStep).state;
    var s3 := Step(s2, Produce).state;
    var s4 := Step(s3, PollComplete).state;
    RunFour(s, PollReturn(AtBudget), WorkerStep, Produce, PollComplete);
    RunTwo(s, PollReturn(AtBudget), WorkerStep);
  }

  lemma RunTwo(s: State, a: Action, b: Action)
    requires Step(s, a).Go?
    ensures Run(s, [a, b]) == Step(Step(s, a).state, b)
  {
    var s1 := Step(s, a).state;
    assert [a, b][1..] == [b];
    assert Run(s1, [b]) == Step(s1, b);
  }

  lemma RunFour(s: State, a: Action, b: Action, c: Action, d: Action)
    requires Step(s, a).Go? && Step(Step(s, a).state, b).Go?
    ensures Run(s, [a, b, c, d]) == Run(Step(Step(s, a).state, b).state, [c, d])
    ensures Step(Step(Step(s, a).state, b).state, c).Go? ==>
              Run(s, [a, b, c, d]) == Step(Step(Step(Step(s, a).state, b).state, c).state, d)
  {
    assert [a, b, c, d][1..] == [b, c, d];
    assert [b, c, d][1..] == [c, d];
    var s2 := Step(Step(s, a).state, b).state;
    if Step(s2, c).Go? {
      RunTwo(s2, c, d);
    }
  }

  // --------------------------------------------------------------- requests

  /** The worker is active and must pass a poll start before it can stop. */
  predicate OnWay(w: Worker) { !w.Off? && !w.InPoll? && !w.Leaving? }

  /** A request not yet followed by a poll start is still scheduled, and not at
      the mercy of a `napi_disable` in progress. */
  ghost predicate Pending(s: State) {
    s.owed ==> s.bits.sched && (s.bits.disable ==> OnWay(s.worker))
  }

  /** A `napi_disable` comes only while no request is outstanding or the worker is
      on its way to a poll. */
  predicate Respects(s: State, a: Action) { a.Disable? && s.owed ==> OnWay(s.worker) }

  ghost predicate Respectful(s: State, actions: seq<Action>)
    decreases |actions|
  {
    actions == [] ||
    (Respects(s, actions[0]) &&
     (Step(s, actions[0]).Go? ==> Respectful(Step(s, actions[0]).state, actions[1..])))
  }

  lemma StepKeepsPending(s: State, a: Action)
    requires Inv(s) && Recorded(s) && Pending(s) && Respects(s, a) && Step(s, a).Go?
    ensures Pending(Step(s, a).state)
  {
    match a
    case WorkerStep =>
    case Disable =>
    case _ =>
  }

  lemma {:induction false} RunKeepsPending(s: State, actions: seq<Action>)
    requires Inv(s) && Recorded(s) && Pending(s)
    requires Disciplined(s, actions) && Respectful(s, actions) && Run(s, actions).Go?
    ensures Pending(Run(s, actions).state)
    decreases |actions|
  {
    if actions != [] {
      StepKeepsInv(s, actions[0]);
      StepKeepsRecorded(s, actions[0]);
      StepKeepsPending(s, actions[0]);
      RunKeepsPending(Step(s, actions[0]).state, actions[1..]);
    }
  }

  /** No request is lost: over every interleaving of producers, worker, notifier and
      any number of disables and enables, an accepted request that no poll start
      has followed keeps `sched` set, provided each disable respects it. */
  lemma AcceptedRequestStaysScheduled(actions: seq<Action>)
    requires Disciplined(INITIAL, actions) && Respectful(INITIAL, actions) && Run(INITIAL, actions).Go?
    ensures Run(INITIAL, actions).state.owed ==> Run(INITIAL, actions).state.bits.sched
  {
    RunKeepsPending(INITIAL, actions);
  }

  ghost predicate KeptAfter(s: State, actions: seq<Action>) {
    Disciplined(s, actions) && Respectful(s, actions) && Run(s, actions).Go? ==>
      (Run(s, actions).state.owed ==> Run(s, actions).state.bits.sched)
  }

  /** The proviso is exact: after any such run, a `napi_disable` leaves every later
      request safe in all continuations, themselves with any number of respectful
      disables, if and only if it respects the requests outstanding now. */
  lemma DisableKeepsRequestIff(before: seq<Action>, s: State)
    requires Disciplined(INITIAL, before) && Respectful(INITIAL, before) && Run(INITIAL, before) == Go(s)
    requires !s.bits.disable
    ensures Step(s, Disable).Go?
    ensures (forall after: seq<Action> :: KeptAfter(Step(s, Disable).state, after)) <==> Respects(s, Disable)
  {
    RunKeepsRecorded(INITIAL, before);
    RunKeepsPending(INITIAL, before);
    var t := Step(s, Disable).state;
    StepKeepsInv(s, Disable);
    StepKeepsRecorded(s, Disable);
    if Respects(s, Disable) {
      StepKeepsPending(s, Disable);
      forall after: seq<Action> | Disciplined(t, after) && Respectful(t, after) && Run(t, after).Go?
        ensures KeptAfter(t, after)
      {
        RunKeepsPending(t, after);
      }
    } else {
      DroppingRunDrops(s);
      assert !KeptAfter(t, DroppingRun(s.worker));
    }
  }

  /** So is the budget discipline: after any such run that stands in an idle poll of
      an enabled context, returning the full budget leaves every later request safe
      in all continuations if and only if a poll is due already. */
  lemma BudgetReturnIsSafeIff(before: seq<Action>, s: State)
    requires Disciplined(INITIAL, before) && Respectful(INITIAL, before) && Run(INITIAL, before) == Go(s)
    requires s.worker.InPoll? && s.worker.phase.Idle? && !s.bits.disable
    ensures (forall after: seq<Action> :: KeptAfter(Step(s, PollReturn(AtBudget)).state, after)) <==> s.bits.sched
  {
    RunKeepsRecorded(INITIAL, before);
    RunKeepsPending(INITIAL, before);
    var back := PollReturn(AtBudget);
    var t := Step(s, back).state;
    if s.bits.sched {
      StepKeepsInv(s, back);
      StepKeepsRecorded(s, back);
      StepKeepsPending(s, back);
      forall after: seq<Action> | Disciplined(t, after) && Respectful(t, after) && Run(t, after).Go?
        ensures KeptAfter(t, after)
      {
        RunKeepsPending(t, after);
      }
    } else {
      StaleReturnBreaksBoth(s);
      var after := [WorkerStep, Produce, PollComplete];
      assert ([back] + after)[1..] == after && [back] + after == [back, WorkerStep, Produce, PollComplete];
      assert after[1..] == [Produce, PollComplete] && after[1..][1..] == [PollComplete];
      assert !KeptAfter(t, after);
    }
  }

  /** A continuation after `napi_disable` in which the request disappears. */
  function DroppingRun(w: Worker): seq<Action>
    requires !OnWay(w)
  {
    match w
    case Off => []
    case InPoll(phase, _) =>
      if phase.Fresh? then [PollComplete] else [PollReturn(Failed), WorkerStep, DisableSpin]
    case Leaving => [WorkerStep, DisableSpin]
  }

  lemma DroppingRunDrops(s: State)
    requires Inv(s) && Recorded(s) && s.owed && s.bits.sched && !s.bits.disable && !OnWay(s.worker)
    ensures var t := Step(s, Disable).state; var after := DroppingRun(s.worker);
                                             && Disciplined(t, after) && Respectful(t, after) && Run(t, after).Go?
                                             && Run(t, after).state.owed && !Run(t, after).state.bits.sched
  {
    var t := Step(s, Disable).state;
    match s.worker {
      case Off =>
      case Leaving =>
        RunTwo(t, WorkerStep, DisableSpin);
        assert [WorkerStep, DisableSpin][1..] == [DisableSpin];
      case InPoll(phase, _) =>
        if !phase.Fresh? {
          var after := [PollReturn(Failed), WorkerStep, DisableSpin];
          var t1 := Step(t, PollReturn(Failed)).state;
          assert after[1..] == [WorkerStep, DisableSpin];
          RunTwo(t1, WorkerStep, DisableSpin);
          assert [WorkerStep, DisableSpin][1..] == [DisableSpin];
        }
    }
  }

  // --------------------------------------------------------------- progress

  /** The next step that brings an outstanding request closer to its poll. */
  function Help(s: State): Action {
    match s.worker
    case Off => WorkerStart
    case Blocked => NotifierStep
    case Woken => if MutexFree(s) then WorkerStep else NotifierStep
    case InPoll(phase, _) => if phase.Fresh? then PollComplete else PollReturn(Below)
    case _ => WorkerStep
  }

  /** How many such steps are left at most. */
  function Rank(s: State): nat {
    match s.worker
    case ToPoll(_) => 1
    case Unmarked => 2
    case Spinning => 2
    case Checked(run) => if run then 3 else 14
    case AtTop => 4
    case SpunOut => 5
    case Entered => 5
    case Off => 6
    case Leaving => 7
    case InPoll(phase, _) => if phase.Fresh? then 4 else 3
    case Woken =>
      (match s.notifier
       case NIdle => 5
       case NUnlocking => 6
       case NDecided(_) => 7
       case NSeen => 8
       case NLocked => 9)
    case Blocked =>
      (match s.notifier
       case NDecided(signal) => if signal then 7 else 12
       case NSeen => 8
       case NLocked => 9
       case NIdle => 10
       case NUnlocking => 11)
    case Marked => 13
  }

  lemma HelpHelps(s: State)
    requires Inv(s) && Recorded(s) && Pending(s) && s.owed
    ensures Step(s, Help(s)).Go? && !Help(s).Disable? && Obeys(s, Help(s))
    ensures var t := Step(s, Help(s)).state; t.owed ==> Rank(t) < Rank(s)
  {
    match s.worker
    case Woken => match s.notifier { case NDecided(_) => case _ => }
    case Blocked => match s.notifier { case NDecided(_) => case _ => }
    case _ =>
  }

  /** No reachable state strands a request: wherever one is pending, at most 14
      steps of the worker, the poll and the notifier start a poll. */
  lemma {:induction false} PendingRequestReachesPoll(s: State) returns (steps: seq<Action>)
    requires Inv(s) && Recorded(s) && Pending(s) && s.owed
    ensures |steps| <= Rank(s) <= 14 && Run(s, steps).Go? && !Run(s, steps).state.owed
    ensures forall a <- steps ::
              a.WorkerStart? || a.WorkerStep? || a.PollComplete? || a == PollReturn(Below) || a.NotifierStep?
    decreases Rank(s)
  {
    HelpHelps(s);
    var t := Step(s, Help(s)).state;
    if !t.owed {
      steps := [Help(s)];
    } else {
      StepKeepsInv(s, Help(s));
      StepKeepsRecorded(s, Help(s));
      StepKeepsPending(s, Help(s));
      var rest := PendingRequestReachesPoll(t);
      steps := [Help(s)] + rest;
      assert steps[1..] == rest;
    }
  }

  /** After every such run an outstanding request is at most 14 steps from a poll. */
  lemma EveryRequestCanBeServed(actions: seq<Action>)
    requires Disciplined(INITIAL, actions) && Respectful(INITIAL, actions) && Run(INITIAL, actions).Go?
    ensures var s := Run(INITIAL, actions).state;
            s.owed ==> exists steps: seq<Action> :: |steps| <= 14 && Run(s, steps).Go? && !Run(s, steps).state.owed
  {
    RunKeepsRecorded(INITIAL, actions);
    RunKeepsPending(INITIAL, actions);
    var s := Run(INITIAL, actions).state;
    if s.owed {
      var steps := PendingRequestReachesPoll(s);
    }
  }
}
