/** The trap handler and the two FEC NAPI contexts together: any register accesses of
    the normal world, interleaved with every step that producers, worker and
    notifier make on the receive and on the route/transmit context. A trap that
    disables waits, one look at a time, for first the one and then the other
    context; a trap that enables takes them in the opposite order. */
module FecQuiesce {
  import opened Napi
  import opened FecTraps
  import N = NapiScheduler

  /** Where the trap under way stands in its NAPI calls. */
  datatype Op = NoOp | DisableRx | AwaitRx | DisableTx | AwaitTx | EnableTx | EnableRx

  datatype Joint = Joint(trap: State, rx: N.State, tx: N.State, op: Op)

  datatype Move = Access(a: Trapped) | OpStep | RxStep(r: N.Action) | TxStep(t: N.Action)

  /** `NwPanicked`: unexpected normal-world behaviour. `NapiPanicked`: a NAPI call
      found the context in the wrong state. */
  datatype Fate = Refused | NwPanicked | NapiPanicked | Go(joint: Joint)

  const START := Joint(PROBED, N.INITIAL, N.INITIAL, NoOp)

  /** Disabling and enabling are the trap's alone. */
  predicate IsControl(a: N.Action) { a.Disable? || a.DisableSpin? || a.Enable? }

  /** The context after a call, or the panic inside it. */
  function RxDone(j: Joint, o: N.Outcome, op: Op): Fate {
    match o
    case Refused => Refused
    case Panic => Fate.NapiPanicked
    case Go(t) => Go(j.(rx := t, op := op))
  }

  function TxDone(j: Joint, o: N.Outcome, op: Op): Fate {
    match o
    case Refused => Refused
    case Panic => Fate.NapiPanicked
    case Go(t) => Go(j.(tx := t, op := op))
  }

  function Waiting(o: N.Outcome): bool { o.Go? && o.state.disabling }

  function OpNext(j: Joint): Fate {
    match j.op
    case NoOp => Refused
    case DisableRx => var o := N.Step(j.rx, N.Disable); RxDone(j, o, if Waiting(o) then AwaitRx else DisableTx)
    case AwaitRx => var o := N.Step(j.rx, N.DisableSpin); RxDone(j, o, if Waiting(o) then AwaitRx else DisableTx)
    case DisableTx => var o := N.Step(j.tx, N.Disable); TxDone(j, o, if Waiting(o) then AwaitTx else NoOp)
    case AwaitTx => var o := N.Step(j.tx, N.DisableSpin); TxDone(j, o, if Waiting(o) then AwaitTx else NoOp)
    case EnableTx => TxDone(j, N.Step(j.tx, N.Enable), EnableRx)
    case EnableRx => RxDone(j, N.Step(j.rx, N.Enable), NoOp)
  }

  function Begin(c: Call): Op {
    match c
    case NoCall => NoOp
    case DisableCall => DisableRx
    case EnableCall => EnableTx
  }

  function Next(j: Joint, m: Move): Fate {
    match m
    case Access(a) =>
      if !j.op.NoOp? then Refused
      else
        var r := FecTraps.Access(j.trap, a);
        if r.verdict.NwPanic? then NwPanicked else Go(j.(trap := r.state, op := Begin(r.call)))
    case OpStep => OpNext(j)
    case RxStep(a) => if IsControl(a) then Refused else RxDone(j, N.Step(j.rx, a), j.op)
    case TxStep(a) => if IsControl(a) then Refused else TxDone(j, N.Step(j.tx, a), j.op)
  }

  function Play(j: Joint, moves: seq<Move>): Fate
    decreases |moves|
  {
    if moves == [] then Go(j)
    else
      match Next(j, moves[0])
      case Go(k) => Play(k, moves[1..])
      case f => f
  }

  // -------------------------------------------------------------- invariants

  /** A context that is enabled, in the middle of being disabled, or quiesced. */
  datatype Phase = Up | Stopping | Down

  predicate Is(s: N.State, p: Phase) {
    match p
    case Up => !s.bits.disable && !s.disabling
    case Stopping => s.bits.disable && s.disabling
    case Down => s.bits.disable && !s.disabling
  }

  function RxPhase(j: Joint): Phase {
    match j.op
    case NoOp => if On(j.trap) then Up else Down
    case DisableRx => Up
    case AwaitRx => Stopping
    case DisableTx => Down
    case AwaitTx => Down
    case EnableTx => Down
    case EnableRx => Down
  }

  function TxPhase(j: Joint): Phase {
    match j.op
    case NoOp => if On(j.trap) then Up else Down
    case DisableRx => Up
    case AwaitRx => Up
    case DisableTx => Up
    case AwaitTx => Stopping
    case EnableTx => Down
    case EnableRx => Up
  }

  /** Both contexts stand where the handler and its calls have brought them, and
      each satisfies the scheduler's own invariant. */
  ghost predicate Inv(j: Joint) {
    && Shaped(j.trap) && N.Inv(j.rx) && N.Inv(j.tx)
    && Is(j.rx, RxPhase(j)) && Is(j.tx, TxPhase(j))
    && (j.op.DisableRx? || j.op.AwaitRx? || j.op.DisableTx? || j.op.AwaitTx? ==> !On(j.trap))
    && (j.op.EnableTx? || j.op.EnableRx? ==> On(j.trap))
  }

  /** What producers, worker and notifier do keeps the phase of a context. */
  lemma OtherKeepsPhase(s: N.State, a: N.Action, p: Phase)
    requires N.Inv(s) && Is(s, p) && !IsControl(a)
    ensures !N.Step(s, a).Panic?
    ensures N.Step(s, a).Go? ==> N.Inv(N.Step(s, a).state) && Is(N.Step(s, a).state, p)
  {
    if N.Step(s, a).Go? {
      N.StepKeepsInv(s, a);
      N.StepKeepsControl(s, a);
    }
  }

  /** `napi_disable` on an enabled context: no panic, and it stops or waits. */
  lemma DisableIsClean(s: N.State)
    requires N.Inv(s) && Is(s, Up)
    ensures var o := N.Step(s, N.Disable);
            o.Go? && N.Inv(o.state) && Is(o.state, if Waiting(o) then Stopping else Down)
  {
    N.StepKeepsInv(s, N.Disable);
  }

  lemma WaitIsClean(s: N.State)
    requires N.Inv(s) && Is(s, Stopping)
    ensures var o := N.Step(s, N.DisableSpin);
            o.Go? && N.Inv(o.state) && Is(o.state, if Waiting(o) then Stopping else Down)
  {
    N.StepKeepsInv(s, N.DisableSpin);
  }

  /** `napi_enable` on a quiesced context: neither panic, because the scheduler's
      invariant says that nothing is scheduled. */
  lemma EnableIsClean(s: N.State)
    requires N.Inv(s) && Is(s, Down)
    ensures var o := N.Step(s, N.Enable); o.Go? && N.Inv(o.state) && Is(o.state, Up)
  {
    assert N.Quiesced(s);
    N.StepKeepsInv(s, N.Enable);
  }

  lemma OpKeepsInv(j: Joint)
    requires Inv(j)
    ensures !OpNext(j).NapiPanicked?
    ensures OpNext(j).Go? ==> Inv(OpNext(j).joint)
  {
    match j.op
    case NoOp =>
    case DisableRx => DisableIsClean(j.rx);
    case AwaitRx => WaitIsClean(j.rx);
    case DisableTx => DisableIsClean(j.tx);
    case AwaitTx => WaitIsClean(j.tx);
    case EnableTx => EnableIsClean(j.tx);
    case EnableRx => EnableIsClean(j.rx);
  }

  lemma AccessKeepsJointInv(j: Joint, a: Trapped)
    requires Inv(j) && j.op.NoOp?
    ensures Next(j, Access(a)).Go? ==> Inv(Next(j, Access(a)).joint)
  {
    AccessKeepsInv(j.trap, a);
  }

  lemma NextKeepsInv(j: Joint, m: Move)
    requires Inv(j)
    ensures !Next(j, m).NapiPanicked?
    ensures Next(j, m).Go? ==> Inv(Next(j, m).joint)
  {
    match m
    case Access(a) => if j.op.NoOp? { AccessKeepsJointInv(j, a); }
    case OpStep => OpKeepsInv(j);
    case RxStep(a) => if !IsControl(a) { OtherKeepsPhase(j.rx, a, RxPhase(j)); }
    case TxStep(a) => if !IsControl(a) { OtherKeepsPhase(j.tx, a, TxPhase(j)); }
  }

  lemma {:induction false} PlayKeepsInv(j: Joint, moves: seq<Move>)
    requires Inv(j)
    ensures !Play(j, moves).NapiPanicked?
    ensures Play(j, moves).Go? ==> Inv(Play(j, moves).joint)
    decreases |moves|
  {
    if moves != [] {
      NextKeepsInv(j, moves[0]);
      if Next(j, moves[0]).Go? {
        PlayKeepsInv(Next(j, moves[0]).joint, moves[1..]);
      }
    }
  }

  // ------------------------------------------------------------------ results

  /** Trap handler and NAPI stay in balance: whatever the normal world writes and
      reads, and however its traps interleave with producers, workers and the
      notifier, no panic inside `napi_disable` or `napi_enable` is ever reached, and
      whenever no trap is under way both contexts are enabled exactly in the
      phases between operations, and otherwise quiesced with nothing scheduled. */
  lemma NapiCallsNeverPanic(moves: seq<Move>)
    ensures !Play(START, moves).NapiPanicked?
    ensures Play(START, moves).Go? && Play(START, moves).joint.op.NoOp? ==>
              var j := Play(START, moves).joint;
              && (!j.rx.bits.disable <==> On(j.trap)) && (!j.tx.bits.disable <==> On(j.trap))
              && (!On(j.trap) ==> N.Quiesced(j.rx) && !j.rx.bits.sched && N.Quiesced(j.tx) && !j.tx.bits.sched)
  {
    PlayKeepsInv(START, moves);
  }
}
