/** What holds over whole runs of the arbiter: safety in every reachable state, who can
    sleep through a grant, and how a queue drains. */
module ArbiterRuns {
  import opened Common
  import opened ArbiterState
  import opened Scheduling
  import opened ArbiterProtocol
  import opened ArbiterInvariant

  ghost predicate Runs(sys: Sys, steps: seq<Step>)
    decreases |steps|
  {
    |steps| > 0 ==> Enabled(sys, steps[0]) && Runs(Apply(sys, steps[0]), steps[1..])
  }

  ghost function After(sys: Sys, steps: seq<Step>): Sys
    requires Runs(sys, steps)
    decreases |steps|
  {
    if |steps| == 0 then sys else After(Apply(sys, steps[0]), steps[1..])
  }

  lemma {:induction false} RunKeepsInv(sys: Sys, steps: seq<Step>)
    requires Inv(sys) && Runs(sys, steps)
    ensures Inv(After(sys, steps))
    decreases |steps|
  {
    if |steps| > 0 {
      hide Inv, Apply, Enabled;
      StepKeepsInv(sys, steps[0]);
      RunKeepsInv(Apply(sys, steps[0]), steps[1..]);
    }
  }

  lemma StartInv(o: Options, clock: int)
    ensures Inv(Start(o, clock))
  {
    assert forall lt :: ActivesOf(Init(o), lt) == [];
  }

  // ---------------------------------------------------------- safety of all runs

  /** Whatever callers, handles and timers do: sessions, the oneshot and transports are
      never active together, each within its limit; no active lease is of a class an
      active barrier blocks; and no request is lost or counted twice. */
  lemma EveryRunIsSafe(o: Options, clock: int, steps: seq<Step>)
    requires Runs(Start(o, clock), steps)
    ensures var s := After(Start(o, clock), steps).st;
            && (s.sessions != [] ==> s.oneshot.None? && s.transports == [])
            && (s.oneshot.Some? ==> s.sessions == [] && s.transports == [])
            && |s.sessions| <= s.opts.maxSessions
            && TransportWindow(s)
            && Isolation(s)
            && s.waitRequests == s.acquires + s.waitTimeouts + |s.queue|
  {
    StartInv(o, clock);
    RunKeepsInv(Start(o, clock), steps);
  }

  /** No id is in two places: queued tickets, sessions, the oneshot, transports and
      barriers carry pairwise different ids, all of them already allocated. */
  lemma EveryRunKeepsIdsApart(o: Options, clock: int, steps: seq<Step>)
    requires Runs(Start(o, clock), steps)
    ensures var sys := After(Start(o, clock), steps);
            && DistinctIds(sys.st.queue)
            && (forall lt :: DistinctActives(ActivesOf(sys.st, lt)))
            && (forall t, lt, a :: t in sys.st.queue && a in ActivesOf(sys.st, lt) ==> t.id != a.ticket.id)
            && (forall k, lt, a, b :: k != lt && a in ActivesOf(sys.st, k) && b in ActivesOf(sys.st, lt) ==>
                                        a.ticket.id != b.ticket.id)
            && (forall t :: t in sys.st.queue ==> 0 < t.id <= sys.lastId)
            && (forall lt, a :: a in ActivesOf(sys.st, lt) ==> 0 < a.ticket.id <= sys.lastId)
  {
    StartInv(o, clock);
    RunKeepsInv(Start(o, clock), steps);
    var sys := After(Start(o, clock), steps);
    forall t | t in sys.st.queue
      ensures QueuedBy(sys, t) && ThreadOk(sys, t.id)
    {}
    forall lt, a | a in ActivesOf(sys.st, lt)
      ensures HeldBy(sys, a, lt) && ThreadOk(sys, a.ticket.id)
    {}
  }

  // ------------------------------------------------------ handles, timers, phases

  lemma OnlyOwnLeaseLeaves(sys: Sys, a: Active, lt: LeaseType)
    requires Inv(sys) && lt != Barrier && a in ActivesOf(sys.st, lt)
    ensures var s := RemoveActive(sys.st, a.ticket.id, lt);
            forall k, b :: b in ActivesOf(s, k) <==> b in ActivesOf(sys.st, k) && b.ticket.id != a.ticket.id
  {
    RemoveActiveEffect(sys.st, a, lt);
    RemoveActiveMembers(ActivesOf(sys.st, lt), a);
    forall k, b | b in ActivesOf(sys.st, k) && k != lt
      ensures b.ticket.id != a.ticket.id
    {
      assert HeldBy(sys, b, k) && HeldBy(sys, a, lt);
    }
  }

  /** A handle whose lease is gone, a second release, or a barrier's id: no effect. */
  lemma StaleReleaseIsNoOp(sys: Sys, id: nat, lt: LeaseType)
    requires Inv(sys) && (id !in sys.threads || !sys.threads[id].phase.Holding?)
    ensures ReleaseStep(sys, id, lt) == sys
  {
    HolderFound(sys, id, lt);
  }

  /** An effective release takes the lease with that id and no other lease or barrier. */
  lemma ReleaseTakesOnlyOwn(sys: Sys, id: nat, lt: LeaseType)
    requires Inv(sys) && FindActive(sys.st, id, lt).Some?
    ensures var s := Release(sys.st, id, lt);
            && (forall k, b :: b in ActivesOf(s, k) <==> b in ActivesOf(sys.st, k) && b.ticket.id != id)
            && s.queue == sys.st.queue && s.barriers == sys.st.barriers
  {
    forall k, b
      ensures b in ActivesOf(Release(sys.st, id, lt), k) <==> b in ActivesOf(sys.st, k) && b.ticket.id != id
    {
      ReleaseKeepsOthers(sys, id, lt, k, b);
    }
    ReleaseOnlySignals(sys.st, id, lt, lt);
  }

  lemma ReleaseKeepsOthers(sys: Sys, id: nat, lt: LeaseType, k: LeaseType, b: Active)
    requires Inv(sys) && FindActive(sys.st, id, lt).Some?
    ensures b in ActivesOf(Release(sys.st, id, lt), k) <==> b in ActivesOf(sys.st, k) && b.ticket.id != id
  {
    hide Inv;
    FindActiveIsMember(sys.st, id, lt);
    OnlyOwnLeaseLeaves(sys, FindActive(sys.st, id, lt).value, lt);
    ReleaseOnlySignals(sys.st, id, lt, k);
  }

  lemma ReleaseOnlySignals(s: State, id: nat, lt: LeaseType, k: LeaseType)
    requires FindActive(s, id, lt).Some?
    ensures ActivesOf(Release(s, id, lt), k) == ActivesOf(RemoveActive(s, id, lt), k)
    ensures Release(s, id, lt).queue == s.queue && Release(s, id, lt).barriers == s.barriers
  {}

  /** A timer only ever takes its own lease, and not before `maxLeaseHold` has passed
      since that lease was acquired or last touched. */
  lemma WatchdogWaitsForHold(sys: Sys, id: nat, lt: LeaseType, now: int)
    requires Inv(sys) && ExpireStep(sys, id, lt, now).st != sys.st
    ensures id in sys.threads && sys.threads[id].phase.Holding?
    ensures sys.threads[id].phase.progressAt + sys.st.opts.maxLeaseHold <= now
    ensures ExpireStep(sys, id, lt, now).threads == sys.threads[id := sys.threads[id].(phase := Released)]
    ensures ExpireStep(sys, id, lt, now).st.forcedReleases == sys.st.forcedReleases + 1
  {
    FindActiveIsMember(sys.st, id, lt);
    assert HeldBy(sys, FindActive(sys.st, id, lt).value, lt);
  }

  ghost function Rung(p: Phase): nat {
    match p
    case Prepared => 0
    case Sleeping(_, _) => 1
    case Holding(_, _) => 2
    case Released => 3
    case TimedOut => 3
  }

  /** A step moves a caller's phase forward or leaves it; a held lease's progress mark
      never moves back, and a finished caller stays finished with the same outcome. */
  ghost predicate Forward(sys: Sys, next: Sys, id: nat)
    requires id in sys.threads
  {
    && id in next.threads
    && next.threads[id].ticket == sys.threads[id].ticket
    && var p, q := sys.threads[id].phase, next.threads[id].phase;
       && Rung(p) <= Rung(q)
       && (p.Released? || p.TimedOut? ==> q == p)
       && (p.Holding? ==> !q.TimedOut?)
       && (p.Holding? && q.Holding? ==> p.progressAt <= q.progressAt)
  }

  ghost predicate Clocked(sys: Sys) {
    forall id :: id in sys.threads && sys.threads[id].phase.Holding? ==> sys.threads[id].phase.progressAt <= sys.clock
  }

  lemma EvaluationMovesForward(sys: Sys, k: nat, now: int, at: int, id: nat)
    requires Clocked(sys) && IsSleeping(sys, k) && sys.clock <= now <= at && id in sys.threads
    ensures Clocked(Evaluate(sys, k, now, at)) && Forward(sys, Evaluate(sys, k, now, at), id)
  {}

  lemma ArrivalMovesForward(sys: Sys, k: nat, now: int, at: int, id: nat)
    requires Clocked(sys) && Enabled(sys, Arrive(k, now, at)) && id in sys.threads
    ensures Clocked(Apply(sys, Arrive(k, now, at))) && Forward(sys, Apply(sys, Arrive(k, now, at)), id)
  {
    assert Clocked(Insert(sys, k));
    EvaluationMovesForward(Insert(sys, k), k, now, at, id);
  }

  lemma TouchMovesForward(sys: Sys, k: nat, lt: LeaseType, now: int, id: nat)
    requires Inv(sys) && Clocked(sys) && sys.clock <= now && id in sys.threads
    ensures Clocked(TouchStep(sys, k, lt, now)) && Forward(sys, TouchStep(sys, k, lt, now), id)
  {
    HolderFound(sys, k, lt);
  }

  lemma LeaveMovesForward(sys: Sys, k: nat, id: nat)
    requires Inv(sys) && Clocked(sys) && id in sys.threads
    ensures Clocked(LeaveStep(sys, k)) && Forward(sys, LeaveStep(sys, k), id)
  {
    var i := ActiveIndex(sys.st.barriers, k);
    if i < |sys.st.barriers| {
      assert ActivesOf(sys.st, Barrier) == sys.st.barriers;
      assert HeldBy(sys, sys.st.barriers[i], Barrier);
    }
  }

  lemma RemovalMovesForward(sys: Sys, step: Step, id: nat)
    requires Inv(sys) && Clocked(sys) && Enabled(sys, step) && id in sys.threads
    requires step.ReleaseLease? || step.TimerFires? || step.LeaveBarrier?
    ensures Clocked(Apply(sys, step)) && Forward(sys, Apply(sys, step), id)
  {
    hide Inv, FindActive, Release, ReleaseExpired, LeaveStep, Expired;
    match step
    case ReleaseLease(k, lt) => HolderFound(sys, k, lt);
    case TimerFires(k, lt, now) => HolderFound(sys, k, lt);
    case LeaveBarrier(k) => LeaveMovesForward(sys, k, id);
  }

  lemma PreparationMovesForward(sys: Sys, t: Ticket, id: nat)
    requires Inv(sys) && Clocked(sys) && t.id == sys.lastId + 1 && id in sys.threads
    ensures Clocked(Prepare(sys, t)) && Forward(sys, Prepare(sys, t), id)
  {
    assert ThreadOk(sys, id);
  }

  lemma StepMovesForward(sys: Sys, step: Step, id: nat)
    requires Inv(sys) && Clocked(sys) && Enabled(sys, step) && id in sys.threads
    ensures Clocked(Apply(sys, step)) && Forward(sys, Apply(sys, step), id)
  {
    hide Inv, Evaluate, Prepare, TouchStep, ReleaseStep, ExpireStep, LeaveStep, GiveUp;
    match step
    case PrepareLease(req, lt, enqueued) =>
      PreparationMovesForward(sys, LeaseTicket(sys.lastId + 1, req, lt, enqueued), id);
    case PrepareBarrier(req, policy, enqueued) =>
      PreparationMovesForward(sys, BarrierTicket(sys.lastId + 1, req, policy, enqueued), id);
    case Arrive(k, now, at) => ArrivalMovesForward(sys, k, now, at, id);
    case Wake(k, now, at) => EvaluationMovesForward(sys, k, now, at, id);
    case ContextDone(_) =>
    case TouchLease(k, lt, now) => TouchMovesForward(sys, k, lt, now, id);
    case _ => RemovalMovesForward(sys, step, id);
  }

  lemma HolderFound(sys: Sys, id: nat, lt: LeaseType)
    requires Inv(sys)
    ensures FindActive(sys.st, id, lt).Some? ==> id in sys.threads && sys.threads[id].phase.Holding?
  {
    if FindActive(sys.st, id, lt).Some? {
      FindActiveIsMember(sys.st, id, lt);
      assert HeldBy(sys, FindActive(sys.st, id, lt).value, lt);
    }
  }

  lemma {:induction false} RunMovesForward(sys: Sys, steps: seq<Step>, id: nat)
    requires Inv(sys) && Clocked(sys) && Runs(sys, steps) && id in sys.threads
    ensures Clocked(After(sys, steps)) && Forward(sys, After(sys, steps), id)
    decreases |steps|
  {
    if |steps| > 0 {
      hide Inv, Apply, Enabled, Clocked;
      StepMovesForward(sys, steps[0], id);
      StepKeepsInv(sys, steps[0]);
      RunMovesForward(Apply(sys, steps[0]), steps[1..], id);
    }
  }

  lemma StepKeepsClock(sys: Sys, step: Step)
    requires Inv(sys) && Clocked(sys) && Enabled(sys, step)
    ensures Clocked(Apply(sys, step))
  {
    if id :| id in sys.threads {
      StepMovesForward(sys, step, id);
    }
  }

  /** No lease was acquired or touched in the future, in any reachable state. */
  lemma {:induction false} RunKeepsClock(sys: Sys, steps: seq<Step>)
    requires Inv(sys) && Clocked(sys) && Runs(sys, steps)
    ensures Clocked(After(sys, steps))
    decreases |steps|
  {
    if |steps| > 0 {
      hide Inv, Apply, Enabled, Clocked;
      StepKeepsClock(sys, steps[0]);
      StepKeepsInv(sys, steps[0]);
      RunKeepsClock(Apply(sys, steps[0]), steps[1..]);
    }
  }

  lemma StartIsClocked(o: Options, clock: int, before: seq<Step>)
    requires Runs(Start(o, clock), before)
    ensures Inv(After(Start(o, clock), before)) && Clocked(After(Start(o, clock), before))
  {
    StartInv(o, clock);
    RunKeepsInv(Start(o, clock), before);
    RunKeepsClock(Start(o, clock), before);
  }

  /** From any reachable state on, a caller only moves forward, whatever happens next. */
  lemma CallersOnlyMoveForward(o: Options, clock: int, before: seq<Step>, steps: seq<Step>, id: nat)
    requires Runs(Start(o, clock), before) && Runs(After(Start(o, clock), before), steps)
    requires id in After(Start(o, clock), before).threads
    ensures var sys := After(Start(o, clock), before); Forward(sys, After(sys, steps), id)
  {
    StartIsClocked(o, clock, before);
    RunMovesForward(After(Start(o, clock), before), steps, id);
  }

  /** In every run, a lease acquired or touched at time `p` is never force-released before
      `p + maxLeaseHold`, however many steps lie between. */
  lemma NoEarlyForcedRelease(o: Options, clock: int, before: seq<Step>, steps: seq<Step>,
                             id: nat, lt: LeaseType, now: int)
    requires Runs(Start(o, clock), before) && Runs(After(Start(o, clock), before), steps)
    requires var sys := After(Start(o, clock), before);
             && id in sys.threads && sys.threads[id].phase.Holding?
             && ExpireStep(After(sys, steps), id, lt, now).st != After(sys, steps).st
    ensures var sys := After(Start(o, clock), before);
            sys.threads[id].phase.progressAt + After(sys, steps).st.opts.maxLeaseHold <= now
  {
    StartIsClocked(o, clock, before);
    var sys := After(Start(o, clock), before);
    RunKeepsInv(sys, steps);
    RunMovesForward(sys, steps, id);
    WatchdogWaitsForHold(After(sys, steps), id, lt, now);
  }

  // ----------------------------------------------------------------- wake-ups

  /** `i` is the first aged ticket that may run now, and had not aged at `before`. */
  ghost predicate AgedMeanwhile(v: Sched, i: nat, before: int, now: int) {
    && i < |v.queue|
    && v.sessions == 0 && !v.oneshot
    && First(v, now, AgedNonAKA, |v.queue|) == Some(i)
    && !Aged(v.queue[i], before)
  }

  lemma FirstOnlyGrows(v: Sched, before: int, now: int, pick: Pick, n: nat)
    requires n <= |v.queue| && before <= now
    ensures pick != AgedNonAKA ==> First(v, now, pick, n) == First(v, before, pick, n)
    ensures First(v, now, AgedNonAKA, n).None? ==> First(v, before, AgedNonAKA, n).None?
  {
    forall j | 0 <= j < n
      ensures Matches(v, before, pick, j) ==> Matches(v, now, pick, j)
      ensures pick != AgedNonAKA ==> Matches(v, before, pick, j) == Matches(v, now, pick, j)
    {}
    if n > 0 {
      FirstOnlyGrows(v, before, now, pick, n - 1);
    }
  }

  lemma NoneAgedSameSelection(v: Sched, before: int, now: int)
    requires before <= now && First(v, now, AgedNonAKA, |v.queue|).None?
    ensures SelectedIndex(v, now) == SelectedIndex(v, before)
  {
    FirstOnlyGrows(v, before, now, AnyAKA, |v.queue|);
    FirstOnlyGrows(v, before, now, AnyEligible, |v.queue|);
    FirstOnlyGrows(v, before, now, AgedNonAKA, |v.queue|);
  }

  lemma FirstAgedStays(v: Sched, i: nat, before: int, now: int)
    requires before <= now && First(v, now, AgedNonAKA, |v.queue|) == Some(i) && Aged(v.queue[i], before)
    ensures SelectedIndex(v, before) == Some(i)
  {
    assert Matches(v, before, AgedNonAKA, i);
    var r := First(v, before, AgedNonAKA, |v.queue|);
    assert Matches(v, now, AgedNonAKA, r.value);
  }

  /** A refused ticket becomes admissible, with nothing but time passing, exactly when it
      is the first runnable non-AKA transport to have aged and did so since the refusal. */
  lemma RefusalLiftedOnlyByAging(v: Sched, i: nat, before: int, now: int)
    requires WellFormedQueue(v.queue) && i < |v.queue| && before <= now
    requires !CanEnter(v, v.queue[i], before)
    ensures CanEnter(v, v.queue[i], now) <==> AgedMeanwhile(v, i, before, now)
  {
    assert WellFormed(v.queue[i]);
    if CanEnter(v, v.queue[i], now) {
      AdmittedPosition(v, i, now);
      PendingBarrierCheckRedundant(v, i, before);
      SelectedPosition(v, i, before);
      if First(v, now, AgedNonAKA, |v.queue|).None? {
        NoneAgedSameSelection(v, before, now);
      } else if Aged(v.queue[i], before) {
        FirstAgedStays(v, i, before, now);
      }
    }
    if AgedMeanwhile(v, i, before, now) {
      SelectedPosition(v, i, now);
      PendingBarrierCheckRedundant(v, i, now);
    }
  }

  ghost predicate AsleepOnCurrent(sys: Sys, id: nat) {
    IsSleeping(sys, id) && sys.threads[id].phase.heard == sys.st.epoch
  }

  /** The position of a waiting caller's ticket. */
  ghost function Place(sys: Sys, id: nat): nat {
    TicketIndex(sys.st.queue, id)
  }

  lemma PlaceOfWaiter(sys: Sys, id: nat)
    requires Inv(sys) && IsSleeping(sys, id)
    ensures Place(sys, id) < |sys.st.queue| && sys.st.queue[Place(sys, id)] == sys.threads[id].ticket
  {
    assert ThreadOk(sys, id);
    RemoveTicketMembers(sys.st.queue, sys.threads[id].ticket);
    assert QueuedBy(sys, sys.st.queue[Place(sys, id)]);
  }

  lemma QueueIsWellFormed(sys: Sys)
    requires Inv(sys)
    ensures WellFormedQueue(sys.st.queue)
  {
    forall i | 0 <= i < |sys.st.queue|
      ensures WellFormed(sys.st.queue[i])
    {
      assert QueuedBy(sys, sys.st.queue[i]);
      assert ThreadOk(sys, sys.st.queue[i].id);
    }
  }

  /** Lost wake-ups, exactly: a caller asleep on the current channel could be admitted
      right now if and only if its ticket is the first runnable non-AKA transport to have
      aged, and it crossed the 500 ms threshold after its last evaluation. Sessions,
      oneshots, AKA transports and barriers never sleep through a grant. */
  lemma AsleepExactlyWhenRefused(sys: Sys, id: nat, now: int)
    requires Inv(sys) && AsleepOnCurrent(sys, id) && sys.clock <= now
    ensures CanEnter(SchedOf(sys.st), sys.threads[id].ticket, now)
       <==> AgedMeanwhile(SchedOf(sys.st), Place(sys, id), sys.threads[id].phase.evaluatedAt, now)
    ensures CanEnter(SchedOf(sys.st), sys.threads[id].ticket, now) ==>
              IsTransportWait(sys.threads[id].ticket) && sys.threads[id].ticket.cls != USIMAKA
  {
    PlaceOfWaiter(sys, id);
    QueueIsWellFormed(sys);
    RefusalLiftedOnlyByAging(SchedOf(sys.st), Place(sys, id), sys.threads[id].phase.evaluatedAt, now);
  }

  /** As long as the caller's own ticket does not cross the threshold, nothing is lost. */
  lemma NoLostWakeUp(sys: Sys, id: nat, now: int)
    requires Inv(sys) && AsleepOnCurrent(sys, id) && sys.clock <= now
    requires Aged(sys.threads[id].ticket, now) ==> Aged(sys.threads[id].ticket, sys.threads[id].phase.evaluatedAt)
    ensures !CanEnter(SchedOf(sys.st), sys.threads[id].ticket, now)
  {
    AsleepExactlyWhenRefused(sys, id, now);
    PlaceOfWaiter(sys, id);
  }

  /** The state a granting step evaluates: a newcomer has just joined the queue. */
  ghost function AtEvaluation(sys: Sys, step: Step): Sys
    requires step.Arrive? || step.Wake?
  {
    if step.Arrive? && step.id in sys.threads then Insert(sys, step.id) else sys
  }

  lemma NewcomerIsLast(sys: Sys, k: nat, waiter: nat)
    requires Inv(sys) && k in sys.threads && sys.threads[k].phase == Prepared && IsSleeping(sys, waiter)
    ensures var mid := Insert(sys, k);
            && Inv(mid) && IsSleeping(mid, k) && IsSleeping(mid, waiter)
            && Place(mid, waiter) < Place(mid, k)
  {
    var mid := Insert(sys, k);
    InsertKeepsInv(sys, k);
    PlaceOfWaiter(sys, waiter);
    PlaceOfWaiter(mid, waiter);
    PlaceOfWaiter(mid, k);
    QueueIsWellFormed(mid);
    OwnIndex(mid.st.queue, |sys.st.queue|);
    OwnIndex(mid.st.queue, Place(sys, waiter));
  }

  /** Limited overtaking, over every run and for every grant, a newcomer's in its first locked
      section included: when a lease waiter is admitted past an aged non-AKA transport that no
      active barrier blocks, both are QMI transports on different channels, the one left behind
      waits for a channel that is held, and the window has room. */
  lemma OvertakingInEveryRun(o: Options, clock: int, steps: seq<Step>, step: Step, waiter: nat)
    requires Runs(Start(o, clock), steps)
    requires step.Arrive? || step.Wake?
    requires var sys := After(Start(o, clock), steps);
             && Enabled(sys, step) && Apply(sys, step).threads[step.id].phase.Holding?
             && sys.threads[step.id].ticket.kind == LeaseWait
             && IsSleeping(sys, waiter) && (step.Wake? ==> Place(sys, waiter) < Place(sys, step.id))
             && IsTransportWait(sys.threads[waiter].ticket) && sys.threads[waiter].ticket.cls != USIMAKA
             && Aged(sys.threads[waiter].ticket, step.now)
             && !BlockedByBarrier(SchedOf(sys.st), sys.threads[waiter].ticket.cls)
    ensures var sys := After(Start(o, clock), steps);
            var v := SchedOf(sys.st);
            var passed, passing := sys.threads[waiter].ticket, sys.threads[step.id].ticket;
            && passed.scope == QMIChannel && passing.scope == QMIChannel && passed.channel != passing.channel
            && ChannelHeld(v, passed.channel) && !ChannelHeld(v, passing.channel)
            && !HasExclusive(v) && QMICount(v.transports) < v.opts.maxQMITransports
  {
    hide Inv, CanEnter, IsTransportWait, Aged, BlockedByBarrier, ChannelHeld, HasExclusive, QMICount, Place, Enter;
    hide SchedOf;
    StartInv(o, clock);
    RunKeepsInv(Start(o, clock), steps);
    var sys := After(Start(o, clock), steps);
    var mid := AtEvaluation(sys, step);
    if step.Arrive? {
      NewcomerIsLast(sys, step.id, waiter);
      JoiningKeepsHolders(sys.st, sys.threads[step.id].ticket);
      SameHolders(SchedOf(sys.st), SchedOf(mid.st), sys.threads[waiter].ticket, sys.threads[step.id].ticket);
    }
    GrantOvertakes(mid, step.id, waiter, step.now, step.at);
  }

  predicate HoldersEqual(v: Sched, w: Sched) {
    v.opts == w.opts && v.transports == w.transports && v.barriers == w.barriers
  }

  lemma JoiningKeepsHolders(s: State, t: Ticket)
    ensures HoldersEqual(SchedOf(s), SchedOf(Enqueue(s, t)))
  {}

  lemma SameHolders(v: Sched, w: Sched, passed: Ticket, passing: Ticket)
    requires HoldersEqual(v, w)
    ensures BlockedByBarrier(v, passed.cls) == BlockedByBarrier(w, passed.cls)
    ensures ChannelHeld(v, passed.channel) == ChannelHeld(w, passed.channel)
    ensures ChannelHeld(v, passing.channel) == ChannelHeld(w, passing.channel)
    ensures HasExclusive(v) == HasExclusive(w) && QMICount(v.transports) == QMICount(w.transports) && v.opts == w.opts
  {}

  lemma GrantOvertakes(sys: Sys, k: nat, waiter: nat, now: int, at: int)
    requires Inv(sys) && IsSleeping(sys, k) && IsSleeping(sys, waiter) && Place(sys, waiter) < Place(sys, k)
    requires Evaluate(sys, k, now, at).threads[k].phase.Holding? && sys.threads[k].ticket.kind == LeaseWait
    requires var passed := sys.threads[waiter].ticket;
             && IsTransportWait(passed) && passed.cls != USIMAKA && Aged(passed, now)
             && !BlockedByBarrier(SchedOf(sys.st), passed.cls)
    ensures var v := SchedOf(sys.st);
            var passed, passing := sys.threads[waiter].ticket, sys.threads[k].ticket;
            && passed.scope == QMIChannel && passing.scope == QMIChannel && passed.channel != passing.channel
            && ChannelHeld(v, passed.channel) && !ChannelHeld(v, passing.channel)
            && !HasExclusive(v) && QMICount(v.transports) < v.opts.maxQMITransports
  {
    PlaceOfWaiter(sys, k);
    PlaceOfWaiter(sys, waiter);
    QueueIsWellFormed(sys);
    LimitedOvertaking(SchedOf(sys.st), Place(sys, waiter), Place(sys, k), now);
  }
}
