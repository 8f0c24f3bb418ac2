/** The FEC transmit descriptor ring at the granularity of single stores: the
    submitting worker, the completing worker and the hardware interleave
    arbitrarily. Buffers are numbered in submission order; `log` is that order
    and the counters say how far each party has got in it. */
module TxRing {
  import opened Arith

  type Buf = nat

  datatype Option<T> = None | Some(value: T)

  /** One descriptor with its entry in the table of saved buffers. */
  datatype Slot = Slot(saved: Option<Buf>, addr: Option<Buf>, ready: bool)

  const EMPTY := Slot(None, None, false)

  /** The submitter's next store, with the buffer it is submitting. */
  datatype Submitter =
    | SIdle
    | SAddress(b: Buf)   // free slot found, about to write the buffer address
    | SSave(b: Buf)      // about to save the buffer pointer
    | SReady(b: Buf)     // about to hand the descriptor to the hardware
    | SAdvance           // about to move `cur`

  /** The completer's next access to the oldest descriptor. */
  datatype Completer =
    | CIdle
    | CCompare           // about to compare it with `cur`
    | CStatus            // about to read its status
    | CClear             // about to clear the status
    | CTake              // about to read the saved buffer
    | CForget(b: Buf)    // about to clear the saved pointer
    | CUnmap(b: Buf)     // about to clear the address
    | CFree(b: Buf)
    | CAdvance           // about to move `pending_tx`

  /** `cur`, `pend`, `hw`: ring positions of the submitter, the completer and the
      hardware. `moved`, `released`, `sent`: how many buffers each has passed. */
  datatype State = State(
    slots: seq<Slot>,
    cur: nat,
    pend: nat,
    hw: nat,
    sub: Submitter,
    com: Completer,
    log: seq<Buf>,
    moved: nat,
    released: nat,
    sent: nat,
    freed: seq<Buf>)

  datatype Action = Submit(b: Buf) | SubmitStep | CompleteStart | CompleteStep | CompleteStop | Transmit

  datatype Outcome = Refused | Go(state: State)

  /** `fec_enet_get_nextdesc`. */
  function NextIndex(n: nat, i: nat): nat { if i + 1 >= n then 0 else i + 1 }

  /** `fec_enet_get_free_txdesc_num`, on descriptor indices. */
  function FreeCount(n: nat, pend: nat, cur: nat): int {
    var entries := pend - cur - 1;
    if entries >= 0 then entries else entries + n
  }

  function SetSlot(s: State, i: nat, slot: Slot): State
    requires i < |s.slots|
  {
    s.(slots := s.slots[i := slot])
  }

  function SubmitNext(s: State): Outcome {
    if s.cur >= |s.slots| then Refused else
    var slot := s.slots[s.cur];
    match s.sub
    case SIdle => Refused
    case SAddress(b) => Go(SetSlot(s, s.cur, slot.(addr := Some(b))).(sub := SSave(b)))
    case SSave(b) => Go(SetSlot(s, s.cur, slot.(saved := Some(b))).(sub := SReady(b)))
    case SReady(b) => Go(SetSlot(s, s.cur, slot.(ready := true)).(sub := SAdvance, log := s.log + [b]))
    case SAdvance => Go(s.(cur := NextIndex(|s.slots|, s.cur), moved := s.moved + 1, sub := SIdle))
  }

  function CompleteNext(s: State): Outcome {
    if s.pend >= |s.slots| then Refused else
    var slot := s.slots[s.pend];
    match s.com
    case CIdle => Refused
    case CCompare => Go(s.(com := if s.pend == s.cur then CIdle else CStatus))
    case CStatus => Go(s.(com := if slot.ready then CIdle else CClear))
    case CClear => Go(SetSlot(s, s.pend, slot.(ready := false)).(com := CTake))
    case CTake => if slot.saved.Some? then Go(s.(com := CForget(slot.saved.value))) else Go(s.(com := CAdvance))
    case CForget(b) => Go(SetSlot(s, s.pend, slot.(saved := None)).(com := CUnmap(b)))
    case CUnmap(b) => Go(SetSlot(s, s.pend, slot.(addr := None)).(com := CFree(b)))
    case CFree(b) => Go(s.(freed := s.freed + [b], com := CAdvance))
    case CAdvance => Go(s.(pend := NextIndex(|s.slots|, s.pend), released := s.released + 1, com := CCompare))
  }

  /** A full ring refuses the buffer. `CompleteStop`: the completion budget is used up. */
  function Step(s: State, a: Action): Outcome {
    match a
    case Submit(b) =>
      if !s.sub.SIdle? then Refused
      else if FreeCount(|s.slots|, s.pend, s.cur) < 1 then Go(s)
      else Go(s.(sub := SAddress(b)))
    case SubmitStep => SubmitNext(s)
    case CompleteStart => if s.com.CIdle? then Go(s.(com := CCompare)) else Refused
    case CompleteStep => CompleteNext(s)
    case CompleteStop => if s.com.CCompare? then Go(s.(com := CIdle)) else Refused
    case Transmit =>
      if s.hw >= |s.slots| || !s.slots[s.hw].ready then Refused
      else Go(SetSlot(s, s.hw, s.slots[s.hw].(ready := false)).(hw := NextIndex(|s.slots|, s.hw), sent := s.sent + 1))
  }

  function Run(s: State, actions: seq<Action>): Outcome
    decreases |actions|
  {
    if actions == [] then Go(s)
    else
      match Step(s, actions[0])
      case Refused => Refused
      case Go(t) => Run(t, actions[1..])
  }

  function Initial(n: nat): State {
    State(seq(n, i => EMPTY), 0, 0, 0, SIdle, CIdle, [], 0, 0, 0, [])
  }

  // -------------------------------------------------------------- invariants

  /** The ring position of the k-th buffer, counting from the oldest one. */
  function At(s: State, k: int): int {
    var i := s.pend + (k - s.released);
    if i >= |s.slots| then i - |s.slots| else i
  }

  /** Where the three parties stand relative to each other. */
  ghost predicate Placed(s: State) {
    && |s.slots| >= 2 && s.pend < |s.slots|
    && s.released <= s.sent <= |s.log|
    && s.moved <= |s.log| <= s.moved + 1
    && (s.sub.SAdvance? <==> |s.log| == s.moved + 1)
    && s.released <= s.moved < s.released + |s.slots|
    && (!s.sub.SIdle? ==> s.moved + 1 < s.released + |s.slots|)
    && s.cur == At(s, s.moved) && s.hw == At(s, s.sent)
    && (!s.com.CIdle? && !s.com.CCompare? ==> s.released < s.moved)
    && (!s.com.CIdle? && !s.com.CCompare? && !s.com.CStatus? ==> s.released < s.sent)
  }

  /** What the slot of the k-th buffer holds. */
  ghost function Expected(s: State, k: int): Slot
    requires 0 <= s.released <= k
  {
    if k < |s.log| then
      Slot(
        if k == s.released && (s.com.CUnmap? || s.com.CFree? || s.com.CAdvance?) then None else Some(s.log[k]),
        if k == s.released && (s.com.CFree? || s.com.CAdvance?) then None else Some(s.log[k]),
        k >= s.sent)
    else if k == |s.log| && s.sub.SSave? then Slot(None, Some(s.sub.b), false)
    else if k == |s.log| && s.sub.SReady? then Slot(Some(s.sub.b), Some(s.sub.b), false)
    else EMPTY
  }

  ghost predicate Filled(s: State)
    requires Placed(s)
  {
    forall k :: s.released <= k < s.released + |s.slots| ==> s.slots[At(s, k)] == Expected(s, k)
  }

  /** Buffers are freed in submission order. */
  ghost predicate FreedInOrder(s: State) {
    && |s.freed| == s.released + (if s.com.CAdvance? then 1 else 0)
    && |s.freed| <= |s.log| && s.freed == s.log[..|s.freed|]
    && (s.com.CForget? || s.com.CUnmap? || s.com.CFree? ==>
          s.released < |s.log| && s.com.b == s.log[s.released])
  }

  ghost predicate Inv(s: State) { Placed(s) && Filled(s) && FreedInOrder(s) }

  /** The free-slot formula counts exactly: ring size minus one minus occupied. */
  lemma FreeCountIsExact(s: State)
    requires Placed(s)
    ensures FreeCount(|s.slots|, s.pend, s.cur) == |s.slots| - 1 - (s.moved - s.released)
  {
  }

  /** Different buffers of the window have different slots. */
  lemma AtIsInjective(s: State, j: int, k: int)
    requires Placed(s)
    requires s.released <= j < s.released + |s.slots| && s.released <= k < s.released + |s.slots|
    ensures 0 <= At(s, j) < |s.slots| && (At(s, j) == At(s, k) ==> j == k)
  {
  }

  lemma SubmitterKeepsPlaced(s: State)
    requires Placed(s) && SubmitNext(s).Go?
    ensures Placed(SubmitNext(s).state)
  {
    match s.sub
    case SAdvance =>
    case _ =>
  }

  lemma SubmitterKeepsSlot(s: State, k: int)
    requires Placed(s) && Filled(s) && SubmitNext(s).Go?
    requires s.released <= k < s.released + |s.slots|
    ensures 0 <= At(s, k) < |s.slots| && SubmitNext(s).state.slots[At(s, k)] == Expected(SubmitNext(s).state, k)
  {
    AtIsInjective(s, k, s.moved);
    assert s.slots[At(s, k)] == Expected(s, k);
    match s.sub
    case SAddress(_) =>
    case SSave(_) =>
    case SReady(_) =>
    case _ =>
  }

  lemma SubmitterKeepsFilled(s: State)
    requires Placed(s) && Filled(s) && SubmitNext(s).Go?
    ensures Placed(SubmitNext(s).state) && Filled(SubmitNext(s).state)
  {
    SubmitterKeepsPlaced(s);
    var t := SubmitNext(s).state;
    forall k | t.released <= k < t.released + |t.slots|
      ensures t.slots[At(t, k)] == Expected(t, k)
    {
      SubmitterKeepsSlot(s, k);
    }
  }

  /** A completer that finds the oldest descriptor not ready knows it was sent. */
  lemma NotReadyMeansSent(s: State)
    requires Placed(s) && Filled(s) && s.released < s.moved && !s.slots[s.pend].ready
    ensures s.released < s.sent
  {
    assert s.slots[At(s, s.released)] == Expected(s, s.released);
  }

  lemma CompleterKeepsPlaced(s: State)
    requires Placed(s) && CompleteNext(s).Go?
    requires s.com.CStatus? && !s.slots[s.pend].ready ==> s.released < s.sent
    ensures Placed(CompleteNext(s).state)
    ensures forall k :: s.released < k < s.released + |s.slots| ==> At(CompleteNext(s).state, k) == At(s, k)
    ensures s.com.CAdvance? ==> At(CompleteNext(s).state, s.released + |s.slots|) == s.pend
  {
    if s.com.CAdvance? {
      AdvanceKeepsPlaced(s);
    }
  }

  lemma AdvanceKeepsPlaced(s: State)
    requires Placed(s) && s.com.CAdvance?
    ensures var t := CompleteNext(s).state;
            && Placed(t)
            && (forall k :: s.released < k < s.released + |s.slots| ==> At(t, k) == At(s, k))
            && At(t, s.released + |s.slots|) == s.pend
  {
    var n, t := |s.slots|, s.(pend := NextIndex(|s.slots|, s.pend), released := s.released + 1, com := CCompare);
    assert CompleteNext(s) == Go(t);
    forall k | s.released < k < s.released + n
      ensures At(t, k) == At(s, k)
    {
    }
  }

  lemma CompleterKeepsSlot(s: State, k: int)
    requires Placed(s) && Filled(s) && CompleteNext(s).Go? && !s.com.CAdvance?
    requires !s.com.CIdle? && !s.com.CCompare? && !s.com.CStatus? ==> s.released < s.sent
    requires s.com.CTake? ==> s.slots[s.pend].saved.Some?
    requires s.released <= k < s.released + |s.slots|
    ensures 0 <= At(s, k) < |s.slots| && CompleteNext(s).state.slots[At(s, k)] == Expected(CompleteNext(s).state, k)
  {
    AtIsInjective(s, k, s.released);
    assert s.slots[At(s, k)] == Expected(s, k);
    assert s.slots[At(s, s.released)] == Expected(s, s.released);
    match s.com
    case CClear =>
    case CForget(_) =>
    case CUnmap(_) =>
    case _ =>
  }

  lemma AdvanceKeepsSlot(s: State, k: int)
    requires Placed(s) && Filled(s) && s.com.CAdvance?
    requires s.released < k <= s.released + |s.slots|
    ensures Placed(CompleteNext(s).state)
    ensures var t := CompleteNext(s).state; 0 <= At(t, k) < |t.slots| && t.slots[At(t, k)] == Expected(t, k)
  {
    CompleterKeepsPlaced(s);
    assert s.slots[At(s, s.released)] == Expected(s, s.released);
    if k < s.released + |s.slots| {
      AtIsInjective(s, k, s.released);
      assert s.slots[At(s, k)] == Expected(s, k);
    }
  }

  lemma CompleterKeepsFilled(s: State)
    requires Inv(s) && CompleteNext(s).Go?
    ensures Placed(CompleteNext(s).state) && Filled(CompleteNext(s).state)
  {
    if s.com.CStatus? && !s.slots[s.pend].ready {
      NotReadyMeansSent(s);
    }
    CompleterKeepsPlaced(s);
    assert s.slots[At(s, s.released)] == Expected(s, s.released);
    var t := CompleteNext(s).state;
    forall k | t.released <= k < t.released + |t.slots|
      ensures t.slots[At(t, k)] == Expected(t, k)
    {
      if s.com.CAdvance? {
        AdvanceKeepsSlot(s, k);
      } else {
        CompleterKeepsSlot(s, k);
      }
    }
  }

  lemma CompleterKeepsFreed(s: State)
    requires Inv(s) && CompleteNext(s).Go?
    ensures FreedInOrder(CompleteNext(s).state)
  {
    assert s.slots[At(s, s.released)] == Expected(s, s.released);
  }

  lemma TransmitKeepsInv(s: State)
    requires Inv(s) && Step(s, Transmit).Go?
    ensures Inv(Step(s, Transmit).state)
  {
    AtIsInjective(s, s.sent, s.sent);
    assert s.slots[At(s, s.sent)] == Expected(s, s.sent);
    assert s.sent < |s.log|;
    var t := Step(s, Transmit).state;
    forall k | t.released <= k < t.released + |t.slots|
      ensures t.slots[At(t, k)] == Expected(t, k)
    {
      AtIsInjective(s, k, s.sent);
      assert s.slots[At(s, k)] == Expected(s, k);
    }
  }

  lemma StepKeepsInv(s: State, a: Action)
    requires Inv(s) && Step(s, a).Go?
    ensures Inv(Step(s, a).state)
  {
    match a
    case SubmitStep =>
      SubmitterKeepsFilled(s);
    case CompleteStep =>
      CompleterKeepsFilled(s);
      CompleterKeepsFreed(s);
    case Transmit =>
      TransmitKeepsInv(s);
    case _ =>
      IdleStepsKeepInv(s, a);
  }

  /** Steps that only move a program counter. */
  lemma IdleStepsKeepInv(s: State, a: Action)
    requires Inv(s) && Step(s, a).Go? && (a.Submit? || a.CompleteStart? || a.CompleteStop?)
    ensures Inv(Step(s, a).state)
  {
    FreeCountIsExact(s);
    var t := Step(s, a).state;
    forall k | t.released <= k < t.released + |t.slots|
      ensures t.slots[At(t, k)] == Expected(t, k)
    {
      assert s.slots[At(s, k)] == Expected(s, k);
    }
  }

  lemma {:induction false} RunKeepsInv(s: State, actions: seq<Action>)
    requires Inv(s) && Run(s, actions).Go?
    ensures Inv(Run(s, actions).state)
    decreases |actions|
  {
    if actions != [] {
      StepKeepsInv(s, actions[0]);
      RunKeepsInv(Step(s, actions[0]).state, actions[1..]);
    }
  }

  // ------------------------------------------------------------------ results

  /** The saved-buffer table is occupied exactly on the cyclic range from
      `pending_tx` to `cur`, up to the one slot in progress on either side, and
      the free-slot formula agrees with it. */
  lemma OccupiedIsTheCyclicRange(n: nat, actions: seq<Action>)
    requires n >= 2 && Run(Initial(n), actions).Go?
    ensures var t := Run(Initial(n), actions).state;
            var first := if t.com.CUnmap? || t.com.CFree? || t.com.CAdvance? then t.released + 1 else t.released;
            var end := if t.sub.SReady? then |t.log| + 1 else |t.log|;
            && Placed(t) && t.moved <= end <= t.moved + 1
            && FreeCount(|t.slots|, t.pend, t.cur) == |t.slots| - 1 - (t.moved - t.released)
            && forall k :: t.released <= k < t.released + |t.slots| ==>
                             (t.slots[At(t, k)].saved.Some? <==> first <= k < end)
  {
    InitialIsInv(n);
    RunKeepsInv(Initial(n), actions);
    var t := Run(Initial(n), actions).state;
    FreeCountIsExact(t);
    forall k | t.released <= k < t.released + |t.slots| ensures t.slots[At(t, k)] == Expected(t, k) {
    }
  }

  lemma InitialIsInv(n: nat)
    requires n >= 2
    ensures Inv(Initial(n))
  {
    var s := Initial(n);
    forall k | s.released <= k < s.released + |s.slots| ensures s.slots[At(s, k)] == Expected(s, k) {
    }
  }

  /** No live descriptor is overwritten: the slot the submitter writes to is
      untouched by anyone else, and what the hardware is about to send is the
      next buffer in order. */
  lemma NothingIsOverwritten(n: nat, actions: seq<Action>)
    requires n >= 2 && Run(Initial(n), actions).Go?
    ensures var t := Run(Initial(n), actions).state;
            && t.cur < |t.slots| && t.hw < |t.slots|
            && (t.sub.SAddress? ==> t.slots[t.cur] == EMPTY)
            && (t.sub.SSave? ==> t.slots[t.cur] == Slot(None, Some(t.sub.b), false))
            && (t.sub.SReady? ==> t.slots[t.cur] == Slot(Some(t.sub.b), Some(t.sub.b), false))
            && (t.slots[t.hw].ready ==>
                  t.sent < |t.log| && t.slots[t.hw] == Slot(Some(t.log[t.sent]), Some(t.log[t.sent]), true))
  {
    InitialIsInv(n);
    RunKeepsInv(Initial(n), actions);
    var t := Run(Initial(n), actions).state;
    AtIsInjective(t, t.moved, t.sent);
    AtIsInjective(t, t.sent, t.sent);
    assert t.slots[At(t, t.moved)] == Expected(t, t.moved);
    assert t.slots[At(t, t.sent)] == Expected(t, t.sent);
  }

  /** Each submitted buffer is freed exactly once, in order, and never before the
      hardware has sent it; when nothing is outstanding all have been freed. */
  lemma FreedOnceAfterSending(n: nat, actions: seq<Action>)
    requires n >= 2 && Run(Initial(n), actions).Go?
    ensures var t := Run(Initial(n), actions).state;
            && |t.freed| <= t.sent <= |t.log| && t.freed == t.log[..|t.freed|]
            && (t.sub.SIdle? && t.com.CIdle? && t.pend == t.cur ==>
                  t.freed == t.log && forall i :: 0 <= i < |t.slots| ==> t.slots[i] == EMPTY)
  {
    InitialIsInv(n);
    RunKeepsInv(Initial(n), actions);
    var t := Run(Initial(n), actions).state;
    if t.sub.SIdle? && t.com.CIdle? && t.pend == t.cur {
      AtIsInjective(t, t.moved, t.released);
      forall i | 0 <= i < |t.slots| ensures t.slots[i] == EMPTY {
        var k := OrderOf(t, i);
        assert t.slots[At(t, k)] == Expected(t, k);
      }
    }
  }

  /** The inverse of `At` on the current window. */
  ghost function OrderOf(s: State, i: int): (k: int)
    requires Placed(s) && 0 <= i < |s.slots|
    ensures s.released <= k < s.released + |s.slots| && At(s, k) == i
  {
    if i >= s.pend then s.released + i - s.pend else s.released + i + |s.slots| - s.pend
  }

  // ---------------------------------------------------------------- progress

  lemma {:induction false} RunConcat(s: State, first: seq<Action>, second: seq<Action>)
    requires Run(s, first).Go?
    ensures Run(s, first + second) == Run(Run(s, first).state, second)
    decreases |first|
  {
    if first == [] {
      assert first + second == second;
    } else {
      assert (first + second)[1..] == first[1..] + second;
      RunConcat(Step(s, first[0]).state, first[1..], second);
    }
  }

  /** How many of the completer's steps are left for the oldest buffer. */
  function StepsLeft(c: Completer): nat {
    match c
    case CIdle => 0
    case CCompare => 9
    case CStatus => 8
    case CClear => 7
    case CTake => 6
    case CForget(_) => 5
    case CUnmap(_) => 4
    case CFree(_) => 3
    case CAdvance => 2
  }

  /** One store of the completer: it goes through, concerns nobody else, and comes closer
      to the end, which is reached when every buffer that was sent and passed by the
      submitter is freed. */
  lemma CompleterMoves(s: State)
    requires Inv(s) && !s.com.CIdle?
    ensures Step(s, CompleteStep).Go?
    ensures var t := Step(s, CompleteStep).state;
            && t.log == s.log && t.sent == s.sent && t.moved == s.moved && t.sub == s.sub
            && (t.com.CIdle? ==> t.released == Min(t.sent, t.moved) && t.freed == s.freed)
            && (!t.com.CIdle? && t.released == s.released ==> StepsLeft(t.com) < StepsLeft(s.com))
            && (t.released != s.released ==> s.released < t.released <= Min(t.sent, t.moved))
  {
    AtIsInjective(s, s.moved, s.released);
    assert s.slots[At(s, s.released)] == Expected(s, s.released);
  }

  lemma {:induction false} CompleterFinishes(s: State) returns (steps: seq<Action>)
    requires Inv(s) && !s.com.CIdle?
    ensures forall a <- steps :: a.CompleteStep?
    ensures Run(s, steps).Go?
    ensures var t := Run(s, steps).state;
            && Inv(t) && t.com.CIdle? && t.freed == s.log[..Min(s.sent, s.moved)]
            && t.log == s.log && t.sent == s.sent && t.moved == s.moved && t.sub == s.sub
    decreases Min(s.sent, s.moved) - s.released, StepsLeft(s.com)
  {
    CompleterMoves(s);
    StepKeepsInv(s, CompleteStep);
    var t := Step(s, CompleteStep).state;
    if t.com.CIdle? {
      steps := [CompleteStep];
    } else {
      var rest := CompleterFinishes(t);
      steps := [CompleteStep] + rest;
      assert steps[1..] == rest;
    }
  }

  /** Whatever happened, one completion call frees every buffer that was sent and passed
      by the submitter. */
  lemma CompletionFreesAllSent(n: nat, actions: seq<Action>) returns (steps: seq<Action>)
    requires n >= 2 && Run(Initial(n), actions).Go?
    ensures forall a <- steps :: a.CompleteStart? || a.CompleteStep?
    ensures var s := Run(Initial(n), actions).state;
            && Run(s, steps).Go? && Run(s, steps).state.com.CIdle?
            && 0 <= Min(s.sent, s.moved) <= |s.log| && Run(s, steps).state.freed == s.log[..Min(s.sent, s.moved)]
  {
    InitialIsInv(n);
    RunKeepsInv(Initial(n), actions);
    var s := Run(Initial(n), actions).state;
    if s.com.CIdle? {
      StepKeepsInv(s, CompleteStart);
      var rest := CompleterFinishes(s.(com := CCompare));
      steps := [CompleteStart] + rest;
      assert steps[1..] == rest;
    } else {
      steps := CompleterFinishes(s);
    }
  }

  /** The hardware can send exactly while a submitted buffer is unsent. */
  lemma TransmitsIff(n: nat, actions: seq<Action>)
    requires n >= 2 && Run(Initial(n), actions).Go?
    ensures var s := Run(Initial(n), actions).state; Step(s, Transmit).Go? <==> s.sent < |s.log|
  {
    InitialIsInv(n);
    RunKeepsInv(Initial(n), actions);
    var s := Run(Initial(n), actions).state;
    AtIsInjective(s, s.sent, s.moved);
    assert s.slots[At(s, s.sent)] == Expected(s, s.sent);
  }

  const SUBMISSION := [SubmitStep, SubmitStep, SubmitStep, SubmitStep]

  lemma SubmitterFinishes(s: State, b: Buf)
    requires Inv(s) && s.sub == SAddress(b)
    ensures var t := Run(s, SUBMISSION);
            t.Go? && t.state.sub.SIdle? && t.state.log == s.log + [b] && t.state.moved == s.moved + 1
  {
    AtIsInjective(s, s.moved, s.moved);
    var s1 := Step(s, SubmitStep).state;
    var s2 := Step(s1, SubmitStep).state;
    var s3 := Step(s2, SubmitStep).state;
    assert SUBMISSION[1..] == [SubmitStep, SubmitStep, SubmitStep];
    assert [SubmitStep, SubmitStep, SubmitStep][1..] == [SubmitStep, SubmitStep];
    assert [SubmitStep, SubmitStep][1..] == [SubmitStep];
    assert Run(s3, [SubmitStep]) == Step(s3, SubmitStep);
  }

  /** A submit takes the buffer exactly if a slot is free: then four stores put it last
      in the order; else nothing changes. */
  lemma SubmitTakesIff(n: nat, actions: seq<Action>, b: Buf)
    requires n >= 2 && Run(Initial(n), actions).Go? && Run(Initial(n), actions).state.sub.SIdle?
    ensures var s := Run(Initial(n), actions).state;
            if s.moved - s.released < n - 1 then
              var t := Run(s, [Submit(b)] + SUBMISSION);
              t.Go? && t.state.sub.SIdle? && t.state.log == s.log + [b] && t.state.moved == |t.state.log|
            else Step(s, Submit(b)) == Go(s)
  {
    InitialIsInv(n);
    RunKeepsInv(Initial(n), actions);
    RingStays(Initial(n), actions);
    var s := Run(Initial(n), actions).state;
    FreeCountIsExact(s);
    if s.moved - s.released < n - 1 {
      StepKeepsInv(s, Submit(b));
      SubmitterFinishes(s.(sub := SAddress(b)), b);
      assert ([Submit(b)] + SUBMISSION)[1..] == SUBMISSION;
    }
  }

  lemma {:induction false} RingStays(s: State, actions: seq<Action>)
    requires Run(s, actions).Go?
    ensures |Run(s, actions).state.slots| == |s.slots|
    decreases |actions|
  {
    if actions != [] {
      RingStays(Step(s, actions[0]).state, actions[1..]);
    }
  }

  /** The submitter gets to the end of what it is doing. */
  lemma {:induction false} SubmitterRests(s: State) returns (steps: seq<Action>)
    requires Inv(s)
    ensures forall a <- steps :: a.SubmitStep?
    ensures Run(s, steps).Go? && Inv(Run(s, steps).state) && Run(s, steps).state.sub.SIdle?
    ensures s.log <= Run(s, steps).state.log
    decreases if s.sub.SIdle? then 0 else if s.sub.SAdvance? then 1 else if s.sub.SReady? then 2 else
              if s.sub.SSave? then 3 else 4
  {
    steps := [];
    if !s.sub.SIdle? {
      AtIsInjective(s, s.moved, s.moved);
      StepKeepsInv(s, SubmitStep);
      var rest := SubmitterRests(Step(s, SubmitStep).state);
      steps := [SubmitStep] + rest;
      assert steps[1..] == rest;
    }
  }

  /** The hardware gets to the end of what was submitted. */
  lemma {:induction false} HardwareSendsAll(s: State) returns (steps: seq<Action>)
    requires Inv(s)
    ensures forall a <- steps :: a.Transmit?
    ensures Run(s, steps).Go? && Inv(Run(s, steps).state)
    ensures var t := Run(s, steps).state; t.sent == |t.log| && t.log == s.log && t.sub == s.sub && t.moved == s.moved
    decreases |s.log| - s.sent
  {
    steps := [];
    if s.sent < |s.log| {
      AtIsInjective(s, s.sent, s.moved);
      assert s.slots[At(s, s.sent)] == Expected(s, s.sent);
      StepKeepsInv(s, Transmit);
      var rest := HardwareSendsAll(Step(s, Transmit).state);
      steps := [Transmit] + rest;
      assert steps[1..] == rest;
    }
  }

  /** Nothing gets stuck in the ring: after every run the three parties can go on, without
      any further buffer, until all that was submitted is freed. */
  lemma EveryBufferCanBeFreed(n: nat, actions: seq<Action>) returns (steps: seq<Action>)
    requires n >= 2 && Run(Initial(n), actions).Go?
    ensures forall a <- steps :: !a.Submit?
    ensures var s := Run(Initial(n), actions).state;
            Run(s, steps).Go? && s.log <= Run(s, steps).state.log == Run(s, steps).state.freed
  {
    InitialIsInv(n);
    RunKeepsInv(Initial(n), actions);
    var s := Run(Initial(n), actions).state;
    var first := SubmitterRests(s);
    var s1 := Run(s, first).state;
    var second := HardwareSendsAll(s1);
    RunConcat(s, first, second);
    var s2 := Run(s1, second).state;
    var third: seq<Action> := [];
    if s2.com.CIdle? {
      StepKeepsInv(s2, CompleteStart);
      third := [CompleteStart];
    }
    RunConcat(s, first + second, third);
    var s3 := s2.(com := if s2.com.CIdle? then CCompare else s2.com);
    assert Run(s2, third) == Go(s3);
    var fourth := CompleterFinishes(s3);
    RunConcat(s, first + second + third, fourth);
    steps := first + second + third + fourth;
  }

  // ------------------------------------------------------------------- reset

  /** The buffers saved in slots `i` to `j`, in slot order. */
  ghost function Saved(slots: seq<Slot>, i: nat, j: nat): seq<Buf>
    requires i <= j <= |slots|
    decreases j
  {
    if i == j then []
    else Saved(slots, i, j - 1) + if slots[j - 1].saved.Some? then [slots[j - 1].saved.value] else []
  }

  /** `reset_tx_queue`: frees what every slot holds and empties the ring. */
  method ResetTxQueue(ring: array<Slot>) returns (freed: seq<Buf>, cur: nat, pend: nat)
    modifies ring
    ensures freed == Saved(old(ring[..]), 0, ring.Length) && cur == pend == 0
    ensures forall i :: 0 <= i < ring.Length ==> ring[i] == EMPTY
  {
    freed, cur, pend := [], 0, 0;
    var i := 0;
    while i < ring.Length
      invariant 0 <= i <= ring.Length
      invariant freed == Saved(old(ring[..]), 0, i)
      invariant forall k :: 0 <= k < ring.Length ==> ring[k] == if k < i then EMPTY else old(ring[k])
    {
      if ring[i].saved.Some? {
        freed := freed + [ring[i].saved.value];
      }
      ring[i] := Slot(None, None, false);
      i := i + 1;
    }
  }

  lemma {:induction false} SavedSplit(slots: seq<Slot>, i: nat, j: nat, k: nat)
    requires i <= j <= k <= |slots|
    ensures Saved(slots, i, k) == Saved(slots, i, j) + Saved(slots, j, k)
    decreases k
  {
    if j < k {
      SavedSplit(slots, i, j, k - 1);
    }
  }

  /** A stretch of slots that holds exactly `bs`. */
  lemma {:induction false} SavedAll(slots: seq<Slot>, i: nat, j: nat, bs: seq<Buf>)
    requires i <= j <= |slots| && |bs| == j - i
    requires forall p :: i <= p < j ==> slots[p].saved == Some(bs[p - i])
    ensures Saved(slots, i, j) == bs
    decreases j
  {
    if i < j {
      var n := |bs| - 1;
      SavedAll(slots, i, j - 1, bs[..n]);
      assert bs == bs[..n] + [bs[n]];
    }
  }

  lemma {:induction false} SavedNone(slots: seq<Slot>, i: nat, j: nat)
    requires i <= j <= |slots| && forall p :: i <= p < j ==> slots[p].saved.None?
    ensures Saved(slots, i, j) == []
    decreases j
  {
    if i < j {
      SavedNone(slots, i, j - 1);
    }
  }

  /** What slot `i` holds when `out` starts at `pend` and goes round. */
  ghost function Held(n: nat, pend: nat, out: seq<Buf>, i: nat): Option<Buf>
    requires i < n && pend < n
  {
    var k := if i >= pend then i - pend else i + n - pend;
    if k < |out| then Some(out[k]) else None
  }

  ghost predicate Holds(slots: seq<Slot>, pend: nat, out: seq<Buf>) {
    && pend < |slots| && |out| <= |slots|
    && forall i :: 0 <= i < |slots| ==> slots[i].saved == Held(|slots|, pend, out, i)
  }

  lemma SavedStraight(slots: seq<Slot>, pend: nat, out: seq<Buf>)
    requires Holds(slots, pend, out) && pend + |out| <= |slots|
    ensures Saved(slots, 0, |slots|) == out
  {
    var n, m := |slots|, pend + |out|;
    SavedSplit(slots, 0, pend, n);
    SavedSplit(slots, pend, m, n);
    SavedNone(slots, 0, pend);
    SavedAll(slots, pend, m, out);
    SavedNone(slots, m, n);
  }

  /** Where `out` goes round, its later part is found first. */
  lemma SavedRound(slots: seq<Slot>, pend: nat, out: seq<Buf>)
    requires Holds(slots, pend, out) && pend + |out| > |slots|
    ensures Saved(slots, 0, |slots|) == out[|slots| - pend..] + out[..|slots| - pend]
  {
    var n, m := |slots|, pend + |out| - |slots|;
    SavedSplit(slots, 0, m, n);
    SavedSplit(slots, m, pend, n);
    SavedAll(slots, 0, m, out[n - pend..]);
    SavedNone(slots, m, pend);
    SavedAll(slots, pend, n, out[..n - pend]);
  }

  /** The slots hold exactly `out`, each buffer once. */
  lemma SavedIsOut(slots: seq<Slot>, pend: nat, out: seq<Buf>)
    requires Holds(slots, pend, out)
    ensures multiset(Saved(slots, 0, |slots|)) == multiset(out)
  {
    if pend + |out| <= |slots| {
      SavedStraight(slots, pend, out);
    } else {
      SavedRound(slots, pend, out);
      var k := |slots| - pend;
      assert out == out[..k] + out[k..];
    }
  }

  /** A ring at rest holds exactly the outstanding buffers. */
  lemma RestHolds(t: State)
    requires Inv(t) && t.sub.SIdle? && t.com.CIdle?
    ensures Holds(t.slots, t.pend, t.log[t.released..]) && t.freed == t.log[..t.released]
  {
    forall i | 0 <= i < |t.slots|
      ensures t.slots[i].saved == Held(|t.slots|, t.pend, t.log[t.released..], i)
    {
      var k := OrderOf(t, i);
      assert t.slots[At(t, k)] == Expected(t, k);
    }
  }

  /** A reset with both workers at rest frees every buffer that was submitted and
      not yet freed, and no other: each submitted buffer is freed exactly once. */
  lemma ResetFreesTheRest(n: nat, actions: seq<Action>)
    requires n >= 2 && Run(Initial(n), actions).Go?
    requires Run(Initial(n), actions).state.sub.SIdle? && Run(Initial(n), actions).state.com.CIdle?
    ensures var t := Run(Initial(n), actions).state;
            multiset(t.freed) + multiset(Saved(t.slots, 0, |t.slots|)) == multiset(t.log)
  {
    InitialIsInv(n);
    RunKeepsInv(Initial(n), actions);
    var t := Run(Initial(n), actions).state;
    RestHolds(t);
    SavedIsOut(t.slots, t.pend, t.log[t.released..]);
    assert t.log == t.log[..t.released] + t.log[t.released..];
  }
}
