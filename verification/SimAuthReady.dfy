/** The SIM-authentication readiness gate on the arbiter: one probe in flight at a
    time, and invalidations that outdate a probe already running. */
module SimAuthReady {
  import opened Common

  /** The gate's fields. Channels are numbered in the order they are made. */
  datatype Gate = Gate(generation: nat, ready: bool, probing: bool, waitC: Option<nat>, nextChan: nat)

  datatype Verdict = Ready | WaitOn(channel: nat) | Probe(generation: nat, channel: nat)

  datatype Outcome = Succeeded | Failed | Retry

  function Invalidate(g: Gate): Gate {
    g.(generation := g.generation + 1, ready := false)
  }

  /** The first locked section of a turn of `WaitSIMAuthReady`. */
  function Check(g: Gate): (Verdict, Gate) {
    if g.ready then (Ready, g)
    else if g.probing then
      match g.waitC
      case Some(c) => (WaitOn(c), g)
      case None => (WaitOn(g.nextChan), g.(waitC := Some(g.nextChan), nextChan := g.nextChan + 1))
    else
      (Probe(g.generation, g.nextChan), g.(probing := true, waitC := Some(g.nextChan), nextChan := g.nextChan + 1))
  }

  /** The locked section after a probe of `generation` on `channel`. */
  function Settle(g: Gate, generation: nat, channel: nat, ok: bool): Gate {
    g.(ready := if g.generation == generation then ok else g.ready,
       waitC := if g.waitC == Some(channel) then None else g.waitC,
       probing := false)
  }

  function Settled(g: Gate, generation: nat, ok: bool): Outcome {
    if !ok then Failed else if g.generation != generation then Retry else Succeeded
  }

  // ------------------------------------------------------------ the gate object

  class WaitChannel {
    ghost const id: nat
    var closed: bool

    constructor (ghost n: nat)
      ensures id == n && !closed
    {
      id := n;
      closed := false;
    }
  }

  class ReadyGate {
    var generation: nat
    var ready: bool
    var probing: bool
    var waitC: WaitChannel?
    ghost var nextChan: nat

    ghost predicate Valid()
      reads this, waitC
    {
      waitC != null ==> !waitC.closed && waitC.id < nextChan
    }

    ghost function View(): Gate
      reads this
    {
      Gate(generation, ready, probing, if waitC == null then None else Some(waitC.id), nextChan)
    }

    constructor ()
      ensures Valid() && View() == Gate(0, false, false, None, 0)
    {
      generation, ready, probing, waitC, nextChan := 0, false, false, null, 0;
    }

    method InvalidateSIMAuthReady()
      requires Valid()
      modifies this`generation, this`ready
      ensures Valid() && View() == Invalidate(old(View()))
    {
      generation := generation + 1;
      ready := false;
    }

    method CheckReady() returns (done: bool, mine: bool, seen: nat, channel: WaitChannel?)
      requires Valid()
      modifies this
      ensures Valid() && View() == Check(old(View())).1
      ensures done == old(ready) && mine == (!old(ready) && !old(probing))
      ensures generation == old(generation) && ready == old(ready) && probing == (old(probing) || mine)
      ensures mine ==> seen == generation && fresh(channel) && !channel.closed
      ensures var v := Check(old(View())).0;
              && done == v.Ready? && mine == v.Probe?
              && (v.WaitOn? ==> channel != null && channel.id == v.channel)
              && (v.Probe? ==> channel != null && channel.id == v.channel && seen == v.generation)
              && (!done ==> channel == waitC)
    {
      done, mine, seen, channel := false, false, generation, null;
      if ready {
        done := true;
        return;
      }
      if probing {
        if waitC == null {
          waitC := new WaitChannel(nextChan);
          nextChan := nextChan + 1;
        }
        channel := waitC;
        return;
      }
      mine := true;
      channel := new WaitChannel(nextChan);
      nextChan := nextChan + 1;
      probing := true;
      waitC := channel;
    }

    /** `channel` is closed here exactly when it is still the gate's channel. */
    method SettleProbe(seen: nat, channel: WaitChannel, ok: bool) returns (outcome: Outcome)
      requires Valid() && (waitC != null && waitC.id == channel.id ==> waitC == channel)
      modifies this, channel
      ensures Valid()
      ensures View() == Settle(old(View()), seen, channel.id, ok)
      ensures outcome == Settled(old(View()), seen, ok)
      ensures outcome == Failed <==> !ok
      ensures outcome == Retry <==> ok && old(generation) != seen
      ensures ready == if old(generation) == seen then ok else old(ready)
      ensures generation == old(generation) && !probing && (old(waitC) == channel ==> waitC == null)
      ensures channel.closed == (old(channel.closed) || old(waitC) == channel)
    {
      var stale := generation != seen;
      if !stale {
        ready := ok;
      }
      if waitC == channel {
        channel.closed := true;
        waitC := null;
      }
      probing := false;
      if !ok {
        return Failed;
      }
      if stale {
        return Retry;
      }
      return Succeeded;
    }
  }

  // ------------------------------------------------------------------ protocol

  /** `since` is the time of the latest invalidation when a caller returned nil. */
  datatype Caller =
    | Looping
    | Waiting(channel: nat)
    | Probing(generation: nat, channel: nat, startedAt: nat)
    | ReturnedNil(since: int, at: nat)
    | ReturnedErr

  datatype ProbeRecord = ProbeRecord(startedAt: nat, finishedAt: nat, ok: bool)

  /** `now` counts steps; `invalidatedAt` is the step of the latest invalidation. */
  datatype Sys = Sys(
    gate: Gate, callers: map<nat, Caller>, closed: set<nat>,
    now: nat, invalidatedAt: int, finished: seq<ProbeRecord>)

  datatype Step =
    | Call(id: nat)
    | LockAndCheck(id: nat)
    | ChannelClosed(id: nat)
    | ContextDone(id: nat)
    | ProbeReturns(id: nat, ok: bool)
    | Invalidation

  const INITIAL := Sys(Gate(0, false, false, None, 0), map[], {}, 1, 0, [])

  predicate Enabled(sys: Sys, step: Step) {
    match step
    case Call(id) => id !in sys.callers
    case LockAndCheck(id) => id in sys.callers && sys.callers[id] == Looping
    case ChannelClosed(id) => id in sys.callers && sys.callers[id].Waiting? && sys.callers[id].channel in sys.closed
    case ContextDone(id) => id in sys.callers && (sys.callers[id] == Looping || sys.callers[id].Waiting?)
    case ProbeReturns(id, _) => id in sys.callers && sys.callers[id].Probing?
    case Invalidation => true
  }

  function Become(sys: Sys, id: nat, c: Caller): Sys {
    sys.(callers := sys.callers[id := c])
  }

  function Act(sys: Sys, step: Step): Sys
    requires Enabled(sys, step)
  {
    match step
    case Call(id) => Become(sys, id, Looping)
    case LockAndCheck(id) =>
      var (verdict, gate) := Check(sys.gate);
      var checked := sys.(gate := gate);
      (match verdict
       case Ready => Become(checked, id, ReturnedNil(sys.invalidatedAt, sys.now))
       case WaitOn(c) => Become(checked, id, Waiting(c))
       case Probe(g, c) => Become(checked, id, Probing(g, c, sys.now)))
    case ChannelClosed(id) => Become(sys, id, Looping)
    case ContextDone(id) => Become(sys, id, ReturnedErr)
    case ProbeReturns(id, ok) =>
      var p := sys.callers[id];
      var settled := sys.(gate := Settle(sys.gate, p.generation, p.channel, ok),
                          closed := if sys.gate.waitC == Some(p.channel) then sys.closed + {p.channel} else sys.closed,
                          finished := sys.finished + [ProbeRecord(p.startedAt, sys.now, ok)]);
      (match Settled(sys.gate, p.generation, ok)
       case Failed => Become(settled, id, ReturnedErr)
       case Retry => Become(settled, id, Looping)
       case Succeeded => Become(settled, id, ReturnedNil(sys.invalidatedAt, sys.now)))
    case Invalidation => sys.(gate := Invalidate(sys.gate), invalidatedAt := sys.now)
  }

  function Apply(sys: Sys, step: Step): Sys
    requires Enabled(sys, step)
  {
    var next := Act(sys, step);
    next.(now := sys.now + 1)
  }

  // ---------------------------------------------------------------- invariant

  /** Some finished probe succeeded and had started after `since`. */
  ghost predicate Justified(finished: seq<ProbeRecord>, since: int) {
    exists i :: 0 <= i < |finished| && finished[i].ok && finished[i].startedAt > since
  }

  ghost predicate CallerOk(sys: Sys, c: Caller) {
    match c
    case Waiting(ch) => ch in sys.closed || sys.gate.waitC == Some(ch)
    case Probing(g, ch, startedAt) =>
      && sys.gate.probing && sys.gate.waitC == Some(ch) && g <= sys.gate.generation
      && startedAt < sys.now
      && (g == sys.gate.generation <==> startedAt > sys.invalidatedAt)
    case ReturnedNil(since, _) => Justified(sys.finished, since)
    case _ => true
  }

  ghost predicate IsProbing(sys: Sys, id: nat) {
    id in sys.callers && sys.callers[id].Probing?
  }

  ghost predicate Inv(sys: Sys) {
    && sys.invalidatedAt < sys.now
    && (sys.gate.probing <==> sys.gate.waitC.Some?)
    && (sys.gate.probing ==> exists id :: IsProbing(sys, id))
    && (forall i, j :: IsProbing(sys, i) && IsProbing(sys, j) ==> i == j)
    && (sys.gate.waitC.Some? ==> sys.gate.waitC.value < sys.gate.nextChan && sys.gate.waitC.value !in sys.closed)
    && (forall c :: c in sys.closed ==> c < sys.gate.nextChan)
    && (sys.gate.ready ==> !sys.gate.probing)
    && (sys.gate.ready <==> Justified(sys.finished, sys.invalidatedAt))
    && (forall i :: 0 <= i < |sys.finished| ==> sys.finished[i].startedAt < sys.now)
    && (forall id :: id in sys.callers ==> CallerOk(sys, sys.callers[id]))
  }

  lemma FinishedGrows(finished: seq<ProbeRecord>, r: ProbeRecord, since: int)
    requires Justified(finished, since)
    ensures Justified(finished + [r], since)
  {
    var i :| 0 <= i < |finished| && finished[i].ok && finished[i].startedAt > since;
    assert (finished + [r])[i] == finished[i];
  }

  lemma CheckKeepsInv(sys: Sys, id: nat)
    requires Inv(sys) && Enabled(sys, LockAndCheck(id))
    ensures Inv(Apply(sys, LockAndCheck(id)))
  {
    var next := Apply(sys, LockAndCheck(id));
    forall i | IsProbing(sys, i)
      ensures sys.gate.probing
    {
      assert CallerOk(sys, sys.callers[i]);
    }
    assert forall i :: IsProbing(next, i) ==> i == id || IsProbing(sys, i);
    if Check(sys.gate).0.Probe? {
      assert IsProbing(next, id);
    } else if sys.gate.probing {
      var k :| IsProbing(sys, k);
      assert IsProbing(next, k);
    }
    forall k | k in next.callers
      ensures CallerOk(next, next.callers[k])
    {
      if k in sys.callers {
        assert CallerOk(sys, sys.callers[k]);
      }
    }
  }

  lemma ProbeReturnKeepsInv(sys: Sys, id: nat, ok: bool)
    requires Inv(sys) && Enabled(sys, ProbeReturns(id, ok))
    ensures Inv(Apply(sys, ProbeReturns(id, ok)))
  {
    var next := Apply(sys, ProbeReturns(id, ok));
    var p := sys.callers[id];
    assert IsProbing(sys, id) && CallerOk(sys, p);
    var r := ProbeRecord(p.startedAt, sys.now, ok);
    if ok && p.generation == sys.gate.generation {
      assert next.finished[|sys.finished|] == r;
      assert Justified(next.finished, sys.invalidatedAt);
    }
    forall k | k in next.callers
      ensures CallerOk(next, next.callers[k])
    {
      assert CallerOk(sys, sys.callers[k]);
      if k != id && sys.callers[k].ReturnedNil? {
        FinishedGrows(sys.finished, r, sys.callers[k].since);
      }
      if k != id && sys.callers[k].Probing? {
        assert IsProbing(sys, k);
      }
    }
  }

  lemma StepKeepsInv(sys: Sys, step: Step)
    requires Inv(sys) && Enabled(sys, step)
    ensures Inv(Apply(sys, step))
  {
    match step
    case LockAndCheck(id) => CheckKeepsInv(sys, id);
    case ProbeReturns(id, ok) => ProbeReturnKeepsInv(sys, id, ok);
    case _ =>
      var next := Apply(sys, step);
      if sys.gate.probing {
        var k :| IsProbing(sys, k);
        assert IsProbing(next, k);
      }
      forall k | k in next.callers
        ensures CallerOk(next, next.callers[k])
      {
        if k in sys.callers {
          assert CallerOk(sys, sys.callers[k]);
        }
      }
      assert forall i :: IsProbing(next, i) ==> IsProbing(sys, i);
  }

  ghost predicate Runs(sys: Sys, steps: seq<Step>)
    decreases |steps|
  {
    |steps| > 0 ==> Enabled(sys, steps[0]) && Runs(Apply(sys, steps[0]), steps[1..])
  }

  ghost function After(sys: Sys, steps: seq<Step>): Sys
    requires Runs(sys, steps)
    decreases |steps|
  {
    if |steps| == 0 then sys else After(Apply(sys, steps[0]), steps[1..])
  }

  lemma {:induction false} RunKeepsInv(sys: Sys, steps: seq<Step>)
    requires Inv(sys) && Runs(sys, steps)
    ensures Inv(After(sys, steps))
    decreases |steps|
  {
    if |steps| > 0 {
      StepKeepsInv(sys, steps[0]);
      RunKeepsInv(Apply(sys, steps[0]), steps[1..]);
    }
  }

  // ------------------------------------------------------------------ theorems

  /** At most one probe is in flight, and it runs exactly while the gate says so. */
  lemma SingleFlight(steps: seq<Step>)
    requires Runs(INITIAL, steps)
    ensures var sys := After(INITIAL, steps);
            && (forall i, j :: IsProbing(sys, i) && IsProbing(sys, j) ==> i == j)
            && (sys.gate.probing <==> exists i :: IsProbing(sys, i))
  {
    RunKeepsInv(INITIAL, steps);
    var sys := After(INITIAL, steps);
    forall i | IsProbing(sys, i)
      ensures sys.gate.probing
    {
      assert CallerOk(sys, sys.callers[i]);
    }
  }

  /** A caller that finds a probe running also finds its channel: the branch that makes
      a channel for a missing one is never taken. */
  lemma NilChannelBranchUnreachable(steps: seq<Step>)
    requires Runs(INITIAL, steps) && After(INITIAL, steps).gate.probing
    ensures After(INITIAL, steps).gate.waitC.Some?
    ensures After(INITIAL, steps).gate.waitC.value !in After(INITIAL, steps).closed
  {
    RunKeepsInv(INITIAL, steps);
  }

  /** The verdict is positive exactly when a probe has succeeded that started after the latest
      invalidation. */
  lemma ReadyIsJustified(steps: seq<Step>)
    requires Runs(INITIAL, steps)
    ensures After(INITIAL, steps).gate.ready
       <==> Justified(After(INITIAL, steps).finished, After(INITIAL, steps).invalidatedAt)
  {
    RunKeepsInv(INITIAL, steps);
  }

  /** So is every nil return, whoever ran the probe: one succeeded that had started
      after the invalidation that was the latest when the call returned. */
  lemma NilReturnIsJustified(steps: seq<Step>, id: nat)
    requires Runs(INITIAL, steps)
    requires var sys := After(INITIAL, steps); id in sys.callers && sys.callers[id].ReturnedNil?
    ensures Justified(After(INITIAL, steps).finished, After(INITIAL, steps).callers[id].since)
  {
    RunKeepsInv(INITIAL, steps);
    assert CallerOk(After(INITIAL, steps), After(INITIAL, steps).callers[id]);
  }

  /** Nobody waits for a probe that is over: a waiter's channel is closed, or the one
      probe in flight will close it when it returns, whatever its result. */
  lemma WaitersAreWoken(steps: seq<Step>, id: nat)
    requires Runs(INITIAL, steps)
    requires var sys := After(INITIAL, steps); id in sys.callers && sys.callers[id].Waiting?
    ensures var sys := After(INITIAL, steps);
            || Enabled(sys, ChannelClosed(id))
            || exists k :: IsProbing(sys, k) && forall ok :: Enabled(Apply(sys, ProbeReturns(k, ok)), ChannelClosed(id))
  {
    RunKeepsInv(INITIAL, steps);
    var sys := After(INITIAL, steps);
    assert CallerOk(sys, sys.callers[id]);
    if !Enabled(sys, ChannelClosed(id)) {
      var k :| IsProbing(sys, k);
      assert CallerOk(sys, sys.callers[k]);
      assert forall ok :: Enabled(Apply(sys, ProbeReturns(k, ok)), ChannelClosed(id));
    }
  }

  // ------------------------------------------------------- what a call comes to

  /** What a probe's result does, over every run: a failed one ends its caller's call with an
      error; one that succeeded ends it with nil, and sets the verdict, if it had started after
      the latest invalidation; only one that succeeded too late sends its caller round again. */
  lemma ProbeDecidesCall(steps: seq<Step>, id: nat, ok: bool)
    requires Runs(INITIAL, steps) && Enabled(After(INITIAL, steps), ProbeReturns(id, ok))
    ensures var sys := After(INITIAL, steps);
            var current := sys.callers[id].startedAt > sys.invalidatedAt;
            var next := Apply(sys, ProbeReturns(id, ok));
            && (!ok ==> next.callers[id] == ReturnedErr)
            && (ok && current ==> next.callers[id] == ReturnedNil(sys.invalidatedAt, sys.now))
            && (ok && !current ==> next.callers[id] == Looping)
            && (next.gate.ready <==> ok && current)
  {
    RunKeepsInv(INITIAL, steps);
    var sys := After(INITIAL, steps);
    assert CallerOk(sys, sys.callers[id]);
  }

  /** What a look at the gate does, over every run: a caller returns nil at once when a probe
      has succeeded since the latest invalidation; else it waits for the probe in flight, if
      there is one, and if there is none it probes itself. */
  lemma LookDecidesCall(steps: seq<Step>, id: nat)
    requires Runs(INITIAL, steps) && Enabled(After(INITIAL, steps), LockAndCheck(id))
    ensures var sys := After(INITIAL, steps);
            var next := Apply(sys, LockAndCheck(id)).callers[id];
            && (next.ReturnedNil? <==> Justified(sys.finished, sys.invalidatedAt))
            && (next.ReturnedNil? ==> next == ReturnedNil(sys.invalidatedAt, sys.now))
            && (next.Waiting? <==> exists k :: IsProbing(sys, k))
            && (next.Waiting? ==> exists k :: IsProbing(sys, k) && next.channel == sys.callers[k].channel)
            && (!next.ReturnedNil? && !next.Waiting? ==> next.Probing? && next.startedAt == sys.now)
  {
    SingleFlight(steps);
    RunKeepsInv(INITIAL, steps);
    var sys := After(INITIAL, steps);
    if sys.gate.probing {
      var k :| IsProbing(sys, k);
      assert CallerOk(sys, sys.callers[k]);
    }
  }

  // ------------------------------------------------------------------- progress

  ghost predicate Helps(step: Step) {
    step.LockAndCheck? || step.ChannelClosed? || (step.ProbeReturns? && step.ok)
  }

  /** Steps of callers and successful probes alone lead from `sys` to a nil return of `id`. */
  ghost predicate LeadsToNil(sys: Sys, steps: seq<Step>, id: nat) {
    && Runs(sys, steps)
    && (forall i :: 0 <= i < |steps| ==> Helps(steps[i]))
    && id in After(sys, steps).callers && After(sys, steps).callers[id].ReturnedNil?
  }

  lemma Prepend(sys: Sys, step: Step, rest: seq<Step>, id: nat)
    requires Enabled(sys, step) && Helps(step) && LeadsToNil(Apply(sys, step), rest, id)
    ensures LeadsToNil(sys, [step] + rest, id)
  {
    assert ([step] + rest)[1..] == rest;
  }

  lemma IdleGateProbes(sys: Sys, id: nat) returns (steps: seq<Step>)
    requires Inv(sys) && id in sys.callers && sys.callers[id] == Looping && !sys.gate.probing
    ensures LeadsToNil(sys, steps, id) && |steps| <= 2
  {
    var looked := Apply(sys, LockAndCheck(id));
    if sys.gate.ready {
      assert LeadsToNil(looked, [], id);
      Prepend(sys, LockAndCheck(id), [], id);
      steps := [LockAndCheck(id)] + [];
    } else {
      assert LeadsToNil(Apply(looked, ProbeReturns(id, true)), [], id);
      Prepend(looked, ProbeReturns(id, true), [], id);
      Prepend(sys, LockAndCheck(id), [ProbeReturns(id, true)] + [], id);
      steps := [LockAndCheck(id)] + ([ProbeReturns(id, true)] + []);
    }
  }

  lemma LoopingReturns(sys: Sys, id: nat) returns (steps: seq<Step>)
    requires Inv(sys) && id in sys.callers && sys.callers[id] == Looping
    ensures LeadsToNil(sys, steps, id) && |steps| <= 3
  {
    if sys.gate.probing {
      var k :| IsProbing(sys, k);
      StepKeepsInv(sys, ProbeReturns(k, true));
      var rest := IdleGateProbes(Apply(sys, ProbeReturns(k, true)), id);
      Prepend(sys, ProbeReturns(k, true), rest, id);
      steps := [ProbeReturns(k, true)] + rest;
    } else {
      steps := IdleGateProbes(sys, id);
    }
  }

  lemma WaitingReturns(sys: Sys, id: nat) returns (steps: seq<Step>)
    requires Inv(sys) && id in sys.callers && sys.callers[id].Waiting? && sys.callers[id].channel in sys.closed
    ensures LeadsToNil(sys, steps, id) && |steps| <= 4
  {
    StepKeepsInv(sys, ChannelClosed(id));
    var rest := LoopingReturns(Apply(sys, ChannelClosed(id)), id);
    Prepend(sys, ChannelClosed(id), rest, id);
    steps := [ChannelClosed(id)] + rest;
  }

  /** Nobody is left behind: wherever a call stands in any reachable state, at most five steps
      lead it to a nil return, if probes succeed and nobody invalidates meanwhile. */
  lemma EveryCallCanSucceed(before: seq<Step>, id: nat) returns (steps: seq<Step>)
    requires Runs(INITIAL, before)
    requires var sys := After(INITIAL, before);
             id in sys.callers && !sys.callers[id].ReturnedNil? && !sys.callers[id].ReturnedErr?
    ensures LeadsToNil(After(INITIAL, before), steps, id) && |steps| <= 5
  {
    RunKeepsInv(INITIAL, before);
    var sys := After(INITIAL, before);
    assert CallerOk(sys, sys.callers[id]);
    if sys.callers[id] == Looping {
      steps := LoopingReturns(sys, id);
    } else if sys.callers[id].Probing? {
      steps := ProbingReturns(sys, id);
    } else if sys.callers[id].channel in sys.closed {
      steps := WaitingReturns(sys, id);
    } else {
      var k :| IsProbing(sys, k);
      assert CallerOk(sys, sys.callers[k]);
      var step := ProbeReturns(k, true);
      StepKeepsInv(sys, step);
      var rest := WaitingReturns(Apply(sys, step), id);
      Prepend(sys, step, rest, id);
      steps := [step] + rest;
    }
  }

  lemma ProbingReturns(sys: Sys, id: nat) returns (steps: seq<Step>)
    requires Inv(sys) && IsProbing(sys, id)
    ensures LeadsToNil(sys, steps, id) && |steps| <= 4
  {
    var step := ProbeReturns(id, true);
    var next := Apply(sys, step);
    StepKeepsInv(sys, step);
    var rest := [];
    if next.callers[id] == Looping {
      rest := LoopingReturns(next, id);
    } else {
      assert LeadsToNil(next, [], id);
    }
    Prepend(sys, step, rest, id);
    steps := [step] + rest;
  }
}
