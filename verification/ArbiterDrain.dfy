/** How the arbiter's queue drains once holders let go, and the one way it stalls. */
module ArbiterDrain {
  import opened Common
  import opened ArbiterState
  import opened Scheduling
  import opened ArbiterProtocol
  import opened ArbiterInvariant
  import opened ArbiterRuns

  function Load(s: State): nat {
    2 * |s.queue| + |s.sessions| + (if s.oneshot.Some? then 1 else 0) + |s.transports| + |s.barriers|
  }

  /** Callers asleep on a channel that has been closed. */
  ghost function Stale(sys: Sys): set<nat> {
    set id | id in sys.threads && sys.threads[id].phase.Sleeping? && sys.threads[id].phase.heard != sys.st.epoch
  }

  /** An upper bound on how many effective steps can follow without new requests. */
  ghost function Rank(sys: Sys): nat {
    Load(sys.st) * (|sys.threads| + 1) + |Stale(sys)|
  }

  /** Steps that start no request and are not stale calls or mere touches. */
  ghost predicate Effective(sys: Sys, step: Step) {
    && Enabled(sys, step)
    && match step
       case Wake(_, _, _) => true
       case ContextDone(_) => true
       case ReleaseLease(id, lt) => FindActive(sys.st, id, lt).Some?
       case TimerFires(id, lt, now) =>
        FindActive(sys.st, id, lt).Some? && Expired(FindActive(sys.st, id, lt).value, now)
       case LeaveBarrier(id) => ActiveIndex(sys.st.barriers, id) < |sys.st.barriers|
       case _ => false
  }

  lemma StaleIsFew(sys: Sys)
    ensures |Stale(sys)| <= |sys.threads|
  {
    SubsetSize(Stale(sys), sys.threads.Keys);
  }

  lemma SubsetSize<T>(a: set<T>, b: set<T>)
    requires a <= b
    ensures |a| <= |b|
  {
    if a != {} {
      var x :| x in a;
      SubsetSize(a - {x}, b - {x});
    }
  }

  lemma LowerLoadLowersRank(sys: Sys, next: Sys)
    requires Load(next.st) < Load(sys.st) && |next.threads| == |sys.threads|
    ensures Rank(next) < Rank(sys)
  {
    hide Load, Stale;
    StaleIsFew(next);
    var n := |sys.threads| + 1;
    var a, b := Load(next.st), Load(sys.st);
    assert (a + 1) * n <= b * n;
  }

  lemma SameKeysSameSize(m: map<nat, Thread>, k: map<nat, Thread>)
    requires m.Keys == k.Keys
    ensures |m| == |k|
  {
    assert |m.Keys| == |m| && |k.Keys| == |k|;
  }

  lemma EnterLowersLoad(s: State, t: Ticket, now: int, at: int)
    requires DistinctIds(s.queue) && t in s.queue && WellFormed(t) && CanEnter(SchedOf(s), t, now)
    ensures Load(Enter(s, t, at)) == Load(s) - 1
  {
    RemoveTicketMembers(s.queue, t);
  }

  lemma RemovalLowersLoad(s: State, a: Active, lt: LeaseType)
    requires DistinctActives(ActivesOf(s, lt)) && a in ActivesOf(s, lt)
    ensures lt != Barrier ==> Load(RemoveActive(s, a.ticket.id, lt)) == Load(s) - 1
    ensures lt == Barrier ==> Load(ReleaseBarrier(s, a.ticket.id)) == Load(s) - 1
  {
    RemoveActiveMembers(ActivesOf(s, lt), a);
    ActiveIndexOf(ActivesOf(s, lt), a);
  }

  /** Every effective step either serves somebody, frees something, or has one woken
      caller re-check the current state. */
  lemma WakeLowersRank(sys: Sys, id: nat, now: int, at: int)
    requires Inv(sys) && Enabled(sys, Wake(id, now, at))
    ensures Rank(Evaluate(sys, id, now, at)) < Rank(sys)
    ensures |Evaluate(sys, id, now, at).threads| == |sys.threads|
  {
    hide CanEnter, Load, Inv, WellFormed, DistinctIds, Enter;
    var next := Evaluate(sys, id, now, at);
    var t := sys.threads[id].ticket;
    InvOfSleeper(sys, id);
    SameKeysSameSize(next.threads, sys.threads);
    if CanEnter(SchedOf(sys.st), t, now) {
      EnterLowersLoad(sys.st, t, now, at);
      LowerLoadLowersRank(sys, next);
    } else {
      assert Stale(next) == Stale(sys) - {id};
      assert id in Stale(sys);
    }
  }

  lemma InvOfSleeper(sys: Sys, id: nat)
    requires Inv(sys) && IsSleeping(sys, id)
    ensures var t := sys.threads[id].ticket;
            WellFormed(t) && t.id == id && t in sys.st.queue && DistinctIds(sys.st.queue)
  {
    SleeperIsQueued(sys, id);
  }

  lemma TimeoutLowersLoad(sys: Sys, id: nat)
    requires Inv(sys) && IsSleeping(sys, id)
    ensures Load(GiveUp(sys.st, id)) < Load(sys.st)
  {
    SleeperIsQueued(sys, id);
    RemoveTicketMembers(sys.st.queue, sys.threads[id].ticket);
  }

  lemma ReleaseLowersLoad(sys: Sys, id: nat, lt: LeaseType, now: int)
    requires Inv(sys) && FindActive(sys.st, id, lt).Some?
    ensures Load(Release(sys.st, id, lt)) < Load(sys.st)
    ensures Expired(FindActive(sys.st, id, lt).value, now) ==> Load(ReleaseExpired(sys.st, id, lt, now)) < Load(sys.st)
  {
    hide Inv, FindActive, RemoveActive, Expired, ActivesOf;
    FindActiveIsMember(sys.st, id, lt);
    InvOfLease(sys, FindActive(sys.st, id, lt).value, lt);
    RemovalLowersLoad(sys.st, FindActive(sys.st, id, lt).value, lt);
  }

  lemma InvOfLease(sys: Sys, a: Active, lt: LeaseType)
    requires Inv(sys) && a in ActivesOf(sys.st, lt)
    ensures DistinctActives(ActivesOf(sys.st, lt))
  {}

  lemma LeaveLowersLoad(sys: Sys, id: nat)
    requires Inv(sys) && ActiveIndex(sys.st.barriers, id) < |sys.st.barriers|
    ensures Load(ReleaseBarrier(sys.st, id)) < Load(sys.st)
  {
    assert ActivesOf(sys.st, Barrier) == sys.st.barriers;
    RemovalLowersLoad(sys.st, sys.st.barriers[ActiveIndex(sys.st.barriers, id)], Barrier);
  }

  lemma HandBackLowersRank(sys: Sys, step: Step)
    requires Inv(sys) && Effective(sys, step) && !step.Wake?
    ensures Rank(Apply(sys, step)) < Rank(sys) && |Apply(sys, step).threads| == |sys.threads|
  {
    hide Inv, Load, FindActive, Expired, Release, ReleaseExpired, ReleaseBarrier, GiveUp, Rank;
    var next := Apply(sys, step);
    SameKeysSameSize(next.threads, sys.threads);
    match step {
      case ContextDone(id) => TimeoutLowersLoad(sys, id);
      case ReleaseLease(id, lt) => ReleaseLowersLoad(sys, id, lt, sys.clock);
      case TimerFires(id, lt, now) => ReleaseLowersLoad(sys, id, lt, now);
      case LeaveBarrier(id) => LeaveLowersLoad(sys, id);
      case _ =>
    }
    LowerLoadLowersRank(sys, next);
  }

  lemma EffectiveStepLowersRank(sys: Sys, step: Step)
    requires Inv(sys) && Effective(sys, step)
    ensures Rank(Apply(sys, step)) < Rank(sys)
  {
    if step.Wake? {
      WakeLowersRank(sys, step.id, step.now, step.at);
    } else {
      HandBackLowersRank(sys, step);
    }
  }

  ghost predicate EffectiveRun(sys: Sys, steps: seq<Step>)
    decreases |steps|
  {
    |steps| > 0 ==> Effective(sys, steps[0]) && EffectiveRun(Apply(sys, steps[0]), steps[1..])
  }

  /** Without new requests the arbiter comes to rest: the rank bounds every run. */
  lemma {:induction false} EffectiveRunsAreShort(sys: Sys, steps: seq<Step>)
    requires Inv(sys) && EffectiveRun(sys, steps)
    ensures Runs(sys, steps) && |steps| <= Rank(sys)
    decreases |steps|
  {
    if |steps| > 0 {
      StepKeepsInv(sys, steps[0]);
      EffectiveStepLowersRank(sys, steps[0]);
      EffectiveRunsAreShort(Apply(sys, steps[0]), steps[1..]);
    }
  }

  // ------------------------------------------------------------------ stalling

  /** Nothing is held, somebody is queued, and every queued caller sleeps on the
      current channel, so that only a new request or a timeout can wake anyone. */
  ghost predicate Stalled(sys: Sys) {
    && NoLease(SchedOf(sys.st)) && sys.st.barriers == []
    && sys.st.queue != []
    && forall id :: IsSleeping(sys, id) ==> AsleepOnCurrent(sys, id)
  }

  /** A stall has one cause: a queued non-AKA transport crossed the aging threshold after
      its own last evaluation, is first in line now, and nobody told it. */
  lemma StallMeansAging(sys: Sys, now: int) returns (id: nat)
    requires Inv(sys) && Stalled(sys) && sys.clock <= now
    ensures AsleepOnCurrent(sys, id) && CanEnter(SchedOf(sys.st), sys.threads[id].ticket, now)
    ensures AgedMeanwhile(SchedOf(sys.st), Place(sys, id), sys.threads[id].phase.evaluatedAt, now)
  {
    var v := SchedOf(sys.st);
    QueueIsWellFormed(sys);
    NeverStuckWhenFree(v, now);
    var i :| 0 <= i < |v.queue| && CanEnter(v, v.queue[i], now);
    id := v.queue[i].id;
    assert QueuedBy(sys, v.queue[i]);
    AsleepExactlyWhenRefused(sys, id, now);
  }

  /** Nobody asleep on the current channel has crossed the threshold unnoticed. */
  ghost predicate NoneCrossed(sys: Sys) {
    forall id :: AsleepOnCurrent(sys, id) && Aged(sys.threads[id].ticket, sys.clock) ==>
      Aged(sys.threads[id].ticket, sys.threads[id].phase.evaluatedAt)
  }

  lemma NoneCrossedNotStalled(sys: Sys)
    requires Inv(sys) && NoneCrossed(sys)
    ensures !Stalled(sys)
  {
    if Stalled(sys) {
      var id := StallMeansAging(sys, sys.clock);
      NoLostWakeUp(sys, id, sys.clock);
      assert false;
    }
  }

  ghost predicate Cooperative(sys: Sys, step: Step) {
    Effective(sys, step) && (step.Wake? || step.ReleaseLease? || step.LeaveBarrier?)
  }

  /** Unless it is stalled, a busy arbiter has a step that brings it closer to idle. */
  lemma SomebodyCanMove(sys: Sys) returns (step: Step)
    requires Inv(sys) && Load(sys.st) > 0 && !Stalled(sys)
    ensures Cooperative(sys, step) && (step.Wake? ==> step.now == step.at == sys.clock)
  {
    if |sys.st.sessions| > 0 {
      step := LeaseOwnerReleases(sys, sys.st.sessions[0], Session);
    } else if sys.st.oneshot.Some? {
      step := LeaseOwnerReleases(sys, sys.st.oneshot.value, OneShot);
    } else if |sys.st.transports| > 0 {
      step := LeaseOwnerReleases(sys, sys.st.transports[0], Transport);
    } else if |sys.st.barriers| > 0 {
      step := LeaveBarrier(sys.st.barriers[0].ticket.id);
    } else {
      var id :| IsSleeping(sys, id) && !AsleepOnCurrent(sys, id);
      step := Wake(id, sys.clock, sys.clock);
    }
  }

  lemma LeaseOwnerReleases(sys: Sys, a: Active, lt: LeaseType) returns (step: Step)
    requires Inv(sys) && lt != Barrier && a in ActivesOf(sys.st, lt)
    ensures Cooperative(sys, step) && step.ReleaseLease?
  {
    RemoveActiveEffect(sys.st, a, lt);
    step := ReleaseLease(a.ticket.id, lt);
  }

  /** After a broadcast nobody is asleep on the current channel. */
  lemma BroadcastCrossesNobody(sys: Sys, next: Sys)
    requires RefusalsStand(sys) && next.st.epoch == sys.st.epoch + 1
    requires forall id :: IsSleeping(next, id) ==> IsSleeping(sys, id) && next.threads[id] == sys.threads[id]
    ensures NoneCrossed(next)
  {}

  lemma WakeCrossesNobody(sys: Sys, id: nat)
    requires Inv(sys) && NoneCrossed(sys) && Enabled(sys, Wake(id, sys.clock, sys.clock))
    ensures NoneCrossed(Evaluate(sys, id, sys.clock, sys.clock))
  {
    var next := Evaluate(sys, id, sys.clock, sys.clock);
    if CanEnter(SchedOf(sys.st), sys.threads[id].ticket, sys.clock) {
      BroadcastCrossesNobody(sys, next);
    } else {
      assert forall k :: AsleepOnCurrent(next, k) && k != id ==> AsleepOnCurrent(sys, k);
    }
  }

  lemma HandBackBroadcasts(sys: Sys, step: Step)
    requires Inv(sys) && Cooperative(sys, step) && !step.Wake?
    ensures var next := Apply(sys, step);
            next.st.epoch == sys.st.epoch + 1 && next.clock == sys.clock &&
            forall id :: IsSleeping(next, id) ==> IsSleeping(sys, id) && next.threads[id] == sys.threads[id]
  {}

  /** A cooperative step with no time passing makes nobody miss a threshold. */
  lemma CooperationCrossesNobody(sys: Sys, step: Step)
    requires Inv(sys) && NoneCrossed(sys) && Cooperative(sys, step)
    requires step.Wake? ==> step.now == step.at == sys.clock
    ensures NoneCrossed(Apply(sys, step)) && Apply(sys, step).clock == sys.clock
  {
    if step.Wake? {
      WakeCrossesNobody(sys, step.id);
    } else {
      HandBackBroadcasts(sys, step);
      BroadcastCrossesNobody(sys, Apply(sys, step));
    }
  }

  /** If every holder lets go and no caller sleeps past its own aging threshold, the
      arbiter serves its whole queue: there is a run of wake-ups, releases and barrier
      exits, no longer than the rank, that ends idle. */
  lemma {:induction false} QueueDrains(sys: Sys) returns (steps: seq<Step>)
    requires Inv(sys) && NoneCrossed(sys)
    ensures EffectiveRun(sys, steps) && Runs(sys, steps)
    ensures forall i :: 0 <= i < |steps| ==> steps[i].Wake? || steps[i].ReleaseLease? || steps[i].LeaveBarrier?
    ensures |steps| <= Rank(sys) && IsIdle(After(sys, steps).st)
    decreases Rank(sys)
  {
    if Load(sys.st) == 0 {
      steps := [];
    } else {
      NoneCrossedNotStalled(sys);
      var step := SomebodyCanMove(sys);
      StepKeepsInv(sys, step);
      CooperationCrossesNobody(sys, step);
      EffectiveStepLowersRank(sys, step);
      var rest := QueueDrains(Apply(sys, step));
      steps := [step] + rest;
      assert steps[1..] == rest;
    }
    EffectiveRunsAreShort(sys, steps);
  }

  /** Nobody has a wake-up, a release or a barrier exit to make. */
  ghost predicate AtRest(sys: Sys) {
    forall step :: !Cooperative(sys, step)
  }

  /** There is nothing left to do exactly when the arbiter is idle or stalled. */
  lemma AtRestIffIdleOrStalled(sys: Sys)
    requires Inv(sys)
    ensures AtRest(sys) <==> IsIdle(sys.st) || Stalled(sys)
  {
    if !IsIdle(sys.st) && !Stalled(sys) {
      var step := SomebodyCanMove(sys);
      assert Cooperative(sys, step);
    }
    if IsIdle(sys.st) || Stalled(sys) {
      forall step
        ensures !Cooperative(sys, step)
      {
        NothingToDo(sys, step);
      }
    }
  }

  lemma NothingToDo(sys: Sys, step: Step)
    requires Inv(sys) && (IsIdle(sys.st) || Stalled(sys))
    ensures !Cooperative(sys, step)
  {
    if step.Wake? && IsSleeping(sys, step.id) {
      assert ThreadOk(sys, step.id);
    }
  }

  /** Every run of steps that do something, in any order and with any time passing, is no
      longer than the rank, and where it can go no further the arbiter is idle or stalled. */
  lemma EveryMaximalRunEnds(sys: Sys, steps: seq<Step>)
    requires Inv(sys) && EffectiveRun(sys, steps) && Runs(sys, steps) && AtRest(After(sys, steps))
    ensures |steps| <= Rank(sys) && (IsIdle(After(sys, steps).st) || Stalled(After(sys, steps)))
  {
    EffectiveRunsAreShort(sys, steps);
    RunKeepsInv(sys, steps);
    AtRestIffIdleOrStalled(After(sys, steps));
  }

  // ------------------------------------------------------------ a stalling run

  function TransportRequest(c: APDUClass): Request {
    Request("caller", "AT", c, 0, Unspecified)
  }

  function Waiting(id: nat, c: APDUClass): Ticket {
    LeaseTicket(id, TransportRequest(c), Transport, 0)
  }

  /** Two exclusive transports, an ordinary one ahead of an AKA one, nothing active. */
  function TwoWaiters(): Sched {
    Sched(Options(120_000_000_000, 1, 1), [Waiting(2, EUICCWrite), Waiting(3, USIMAKA)], 0, false, [], [])
  }

  lemma TwoWaitersSelection(now: int)
    ensures SelectedIndex(TwoWaiters(), now) == Some(if now >= TRANSPORT_PRIORITY_AGING then 0 else 1)
    ensures CanEnter(TwoWaiters(), Waiting(2, EUICCWrite), now) <==> now >= TRANSPORT_PRIORITY_AGING
    ensures CanEnter(TwoWaiters(), Waiting(3, USIMAKA), now) <==> now < TRANSPORT_PRIORITY_AGING
  {
    var v := TwoWaiters();
    assert UnblockedInFront(v, 0) && UnblockedInFront(v, 1);
    FrontIsEligible(v, 0);
    FrontIsEligible(v, 1);
    assert Matches(v, now, AnyEligible, 0) && Matches(v, now, AnyAKA, 1);
    assert !Matches(v, now, AnyAKA, 0) && !Matches(v, now, AgedNonAKA, 1);
    assert Matches(v, now, AgedNonAKA, 0) == (now >= TRANSPORT_PRIORITY_AGING);
    SelectedPosition(v, 0, now);
    SelectedPosition(v, 1, now);
    PendingBarrierCheckRedundant(v, 0, now);
    PendingBarrierCheckRedundant(v, 1, now);
  }

  const LIMITS := Options(120_000_000_000, 1, 1)
  const AGE := TRANSPORT_PRIORITY_AGING

  function Holder(): Active {
    Active(Waiting(1, EUICCWrite), 0, Some(120_000_000_000))
  }

  function StallStep(k: nat): Step
    requires k < 9
  {
    [PrepareLease(TransportRequest(EUICCWrite), Transport, 0), Arrive(1, 0, 0),
     PrepareLease(TransportRequest(EUICCWrite), Transport, 0), Arrive(2, 0, 0),
     PrepareLease(TransportRequest(USIMAKA), Transport, 0), Arrive(3, 0, 0),
     ReleaseLease(1, Transport), Wake(2, AGE - 1, AGE - 1), Wake(3, AGE, AGE)][k]
  }

  function Owners(p1: Phase, p2: Option<Phase>, p3: Option<Phase>): map<nat, Thread> {
    var m := map[1 := Thread(Waiting(1, EUICCWrite), p1)];
    var n := if p2.Some? then m[2 := Thread(Waiting(2, EUICCWrite), p2.value)] else m;
    if p3.Some? then n[3 := Thread(Waiting(3, USIMAKA), p3.value)] else n
  }

  /** The states a holder, an ordinary waiter and an AKA waiter pass through. */
  function StallState(k: nat): Sys
    requires k <= 9
  {
    var held := [Holder()];
    var w2, w3 := Waiting(2, EUICCWrite), Waiting(3, USIMAKA);
    var h := Holding(Holder(), 0);
    match k
    case 0 => Start(Options(0, 0, 0), 0)
    case 1 => Sys(Init(Options(0, 0, 0)), 1, Owners(Prepared, None, None), 0)
    case 2 => Sys(State(LIMITS, [], [], None, held, [], 2, 1, 1, 0, 0), 1, Owners(h, None, None), 0)
    case 3 => Sys(State(LIMITS, [], [], None, held, [], 2, 1, 1, 0, 0), 2, Owners(h, Some(Prepared), None), 0)
    case 4 => Sys(State(LIMITS, [w2], [], None, held, [], 3, 2, 1, 0, 0), 2, Owners(h, Some(Sleeping(3, 0)), None), 0)
    case 5 => Sys(State(LIMITS, [w2], [], None, held, [], 3, 2, 1, 0, 0), 3,
                  Owners(h, Some(Sleeping(3, 0)), Some(Prepared)), 0)
    case 6 => Sys(State(LIMITS, [w2, w3], [], None, held, [], 4, 3, 1, 0, 0), 3,
                  Owners(h, Some(Sleeping(3, 0)), Some(Sleeping(4, 0))), 0)
    case 7 => Sys(State(LIMITS, [w2, w3], [], None, [], [], 5, 3, 1, 0, 0), 3,
                  Owners(Released, Some(Sleeping(3, 0)), Some(Sleeping(4, 0))), 0)
    case 8 => Sys(State(LIMITS, [w2, w3], [], None, [], [], 5, 3, 1, 0, 0), 3,
                  Owners(Released, Some(Sleeping(5, AGE - 1)), Some(Sleeping(4, 0))), AGE - 1)
    case _ => Sys(State(LIMITS, [w2, w3], [], None, [], [], 5, 3, 1, 0, 0), 3,
                  Owners(Released, Some(Sleeping(5, AGE - 1)), Some(Sleeping(5, AGE))), AGE)
  }

  ghost predicate StepsTo(sys: Sys, step: Step, next: Sys) {
    Enabled(sys, step) && Apply(sys, step) == next
  }

  lemma FirstHolderEnters()
    ensures StepsTo(StallState(1), StallStep(1), StallState(2))
  {
    var mid := Insert(StallState(1), 1);
    var v := SchedOf(mid.st);
    assert mid.st.queue == [Waiting(1, EUICCWrite)];
    assert UnblockedInFront(v, 0);
    FrontIsEligible(v, 0);
    EligibleMeansSelection(v, 0, 0);
    assert CanEnter(v, mid.st.queue[0], 0);
    FirstGrant(mid);
  }

  lemma FirstGrant(mid: Sys)
    requires mid == Insert(StallState(1), 1) && CanEnter(SchedOf(mid.st), mid.st.queue[0], 0)
    ensures StepsTo(StallState(1), StallStep(1), StallState(2))
  {
    hide CanEnter;
    assert RemoveTicket(mid.st.queue, 1) == [];
  }

  /** While an exclusive transport is active, no other transport enters. */
  lemma RefusedBehindHolder(v: Sched, i: nat, now: int)
    requires DistinctIds(v.queue) && i < |v.queue| && |v.transports| > 0
    requires IsTransportWait(v.queue[i]) && v.queue[i].scope != QMIChannel
    ensures !CanEnter(v, v.queue[i], now)
  {
    SelectedPosition(v, i, now);
    SelectedMatches(v, now);
    assert !Fits(v, v.queue[i]);
  }

  lemma OrdinaryWaiterQueuesUp()
    ensures StepsTo(StallState(3), StallStep(3), StallState(4))
  {
    hide CanEnter;
    RefusedBehindHolder(SchedOf(Insert(StallState(3), 2).st), 0, 0);
  }

  lemma AKAWaiterQueuesUp()
    ensures StepsTo(StallState(5), StallStep(5), StallState(6))
  {
    hide CanEnter, Aged, SelectedIndex, SelectedTransport, Reaches, Passes;
    RefusedBehindHolder(SchedOf(Insert(StallState(5), 3).st), 1, 0);
  }

  lemma OrdinarySleepsAgain()
    ensures StepsTo(StallState(7), StallStep(7), StallState(8))
  {
    hide CanEnter;
    assert SchedOf(StallState(7).st) == TwoWaiters();
    TwoWaitersSelection(AGE - 1);
  }

  lemma AKASleepsAgain()
    ensures StepsTo(StallState(8), StallStep(8), StallState(9))
  {
    hide CanEnter;
    assert SchedOf(StallState(8).st) == TwoWaiters();
    TwoWaitersSelection(AGE);
  }

  lemma HolderLetsGo()
    ensures StepsTo(StallState(6), StallStep(6), StallState(7))
  {
    assert RemoveActiveSeq([Holder()], 1) == [];
  }

  lemma CallersPrepare()
    ensures StepsTo(StallState(0), StallStep(0), StallState(1))
    ensures StepsTo(StallState(2), StallStep(2), StallState(3))
    ensures StepsTo(StallState(4), StallStep(4), StallState(5))
  {}

  lemma StallSteps(k: nat)
    requires k < 9
    ensures StepsTo(StallState(k), StallStep(k), StallState(k + 1))
  {
    hide StepsTo;
    match k
    case 1 => FirstHolderEnters();
    case 3 => OrdinaryWaiterQueuesUp();
    case 5 => AKAWaiterQueuesUp();
    case 6 => HolderLetsGo();
    case 7 => OrdinarySleepsAgain();
    case 8 => AKASleepsAgain();
    case _ => CallersPrepare();
  }

  function StallRun(k: nat): seq<Step>
    requires k <= 9
    decreases 9 - k
  {
    if k == 9 then [] else [StallStep(k)] + StallRun(k + 1)
  }

  lemma {:induction false} StallRunReaches(k: nat)
    requires k <= 9
    ensures Runs(StallState(k), StallRun(k)) && After(StallState(k), StallRun(k)) == StallState(9)
    decreases 9 - k
  {
    if k < 9 {
      StallSteps(k);
      StallRunReaches(k + 1);
      assert StallRun(k)[1..] == StallRun(k + 1);
    }
  }

  lemma EndsStalled()
    ensures var sys := StallState(9);
            && Stalled(sys) && AsleepOnCurrent(sys, 2) && AsleepOnCurrent(sys, 3)
            && CanEnter(SchedOf(sys.st), sys.threads[2].ticket, sys.clock)
  {
    assert SchedOf(StallState(9).st) == TwoWaiters();
    TwoWaitersSelection(AGE);
  }

  /** The wake-up guarantee fails without the aging proviso: an ordinary waiter
      evaluated just before its threshold and an AKA waiter evaluated just after it both
      sleep on the current channel of an otherwise empty arbiter, although the ordinary
      one may enter. */
  lemma AgingCanStall()
    ensures exists steps :: Runs(Start(Options(0, 0, 0), 0), steps)
                            && StalledWithGrantable(After(Start(Options(0, 0, 0), 0), steps))
  {
    StallRunReaches(0);
    EndsStalled();
    assert StallState(0) == Start(Options(0, 0, 0), 0);
    assert StalledWithGrantable(After(StallState(0), StallRun(0)));
  }

  ghost predicate StalledWithGrantable(sys: Sys) {
    Stalled(sys)
    && exists id :: AsleepOnCurrent(sys, id) && CanEnter(SchedOf(sys.st), sys.threads[id].ticket, sys.clock)
  }
}
