/** The NAPI bits of one poll context and the lock-protected regions that
    change them. Every region runs under `slock`, so each is one atomic step of
    the protocols built on top; the value-level functions are what those
    protocols are stated over, and `NapiStruct` is the object in the source. */
module Napi {

  datatype Bits = Bits(sched: bool, missed: bool, disable: bool, active: bool, doNotify: bool)

  /** A context right after registration: disabled, nothing requested. */
  const REGISTERED := Bits(false, false, true, false, false)

  /** A request: refused while disabled, remembered in `missed` while one is
      already pending, otherwise turned into `sched` plus a wake-up flag. */
  function Schedule(b: Bits): Bits {
    if b.disable then b
    else if b.sched then b.(missed := true)
    else b.(sched := true, missed := false, doNotify := true)
  }

  /** Whether completing a poll leaves the context idle rather than re-running it. */
  predicate GoesIdle(b: Bits) { b.disable || !b.missed }

  /** The end of a poll. */
  function Complete(b: Bits): Bits {
    if GoesIdle(b) then b.(sched := false) else b.(missed := false)
  }

  /** Whether the disabling thread, looking at the bits, may stop waiting. */
  predicate MayStop(b: Bits) { !b.active || !b.sched }

  /** What that look does: without a worker, the pending poll is withdrawn. */
  function DisableLook(b: Bits): Bits {
    if !b.active then b.(sched := false) else b
  }

  /** The worker asks whether to poll; a pending kick is withdrawn if so. */
  function Check(b: Bits): Bits {
    if b.sched then b.(doNotify := false) else b
  }

  /** `napi_enable` panics unless the context is disabled and idle. */
  predicate EnablePanics(b: Bits) { !b.disable || b.sched }

  class NapiStruct {
    var sched: bool
    var missed: bool
    var disable: bool
    var active: bool
    var doNotify: bool

    function View(): Bits
      reads this
    {
      Bits(sched, missed, disable, active, doNotify)
    }

    constructor ()
      ensures View() == REGISTERED
    {
      sched, missed, disable, active, doNotify := false, false, true, false, false;
    }

    method SchedulePrep() returns (kick: bool)
      modifies this
      ensures kick == (!old(disable) && !old(sched))
      ensures View().(doNotify := kick || doNotify) == Schedule(old(View()))
      ensures doNotify == old(doNotify)
    {
      if disable {
        return false;
      }
      if sched {
        missed := true;
        return false;
      }
      sched := true;
      missed := false;
      return true;
    }

    method ScheduleRequest()
      modifies this
      ensures View() == Schedule(old(View()))
    {
      var kick := SchedulePrep();
      if kick {
        doNotify := true;
      }
    }

    method CompleteDone() returns (idle: bool)
      modifies this
      ensures idle == GoesIdle(old(View())) && View() == Complete(old(View()))
    {
      if !disable && missed {
        missed := false;
        return false;
      }
      sched := false;
      return true;
    }

    /** First lock region of `napi_disable`. */
    method DisableEnter() returns (panicked: bool, done: bool)
      modifies this
      ensures panicked == old(disable)
      ensures panicked ==> View() == old(View())
      ensures !panicked ==> done == MayStop(old(View())) && View() == DisableLook(old(View()).(disable := true))
    {
      if disable {
        return true, false;
      }
      disable := true;
      panicked := false;
      done := DisableAgain();
    }

    /** Every later lock region of the waiting loop. */
    method DisableAgain() returns (done: bool)
      modifies this
      ensures done == MayStop(old(View())) && View() == DisableLook(old(View()))
    {
      if !active {
        sched := false;
        return true;
      }
      return !sched;
    }

    method Enable() returns (panicked: bool)
      modifies this
      ensures panicked == EnablePanics(old(View()))
      ensures View() == if panicked then old(View()) else old(View()).(disable := false)
    {
      if !disable || sched {
        return true;
      }
      disable := false;
      return false;
    }

    method WorkerCheck() returns (run: bool)
      modifies this
      ensures run == old(sched) && View() == Check(old(View()))
    {
      run := sched;
      if run {
        doNotify := false;
      }
    }

    method TakeNotify() returns (signal: bool)
      modifies this
      ensures signal == old(doNotify) && View() == old(View()).(doNotify := false)
    {
      signal := doNotify;
      doNotify := false;
    }

    /** Anything producers, worker and notifier may do in the meantime: the disable
        bit is not theirs, and under it nothing sets `sched`. */
    method Meanwhile()
      modifies this
      ensures disable == old(disable) && (disable && sched ==> old(sched))
    {
    }
  }

  /** `napi_disable`: the waiting loop, given up on after `rounds` looks. */
  method DisableNapi(n: NapiStruct, rounds: nat) returns (panicked: bool, done: bool)
    modifies n
    ensures panicked <==> old(n.disable)
    ensures panicked ==> n.View() == old(n.View())
    ensures !panicked ==> n.disable && (done ==> !n.sched)
  {
    panicked, done := n.DisableEnter();
    if panicked {
      return;
    }
    var k := 0;
    while !done && k < rounds
      invariant n.disable && (done ==> !n.sched)
    {
      n.Meanwhile();
      done := n.DisableAgain();
      k := k + 1;
    }
  }
}
