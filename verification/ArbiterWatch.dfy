/** What hangs off the arbiter without taking part in admission: the watchdog timers, each a
    timer that is armed or a callback on its way, and the callers of `WaitIdle`. */
module ArbiterWatch {
  import opened Common
  import opened ArbiterState
  import opened Scheduling
  import opened ArbiterProtocol
  import opened ArbiterInvariant
  import A = ArbiterRuns

  /** A caller of `WaitIdle`; `heard` is the epoch of the channel it sleeps on. */
  datatype Idler = Looking | WaitsOn(heard: nat) | Returned(idle: bool)

  /** `inFlight` counts the callbacks of a lease that have left their timer and not yet run;
      a touch can arm the timer again before an earlier callback gets the lock. */
  datatype Watch = Watch(sys: Sys, armed: Timers, inFlight: multiset<nat>, idlers: map<nat, Idler>)

  datatype Step =
    | Section(step: ArbiterProtocol.Step)
    | TimerDue(id: nat, now: int)
    | Callback(id: nat, now: int)
    | CallWaitIdle(w: nat)
    | LookIdle(w: nat)
    | IdlerWoken(w: nat)
    | IdlerGivesUp(w: nat)

  function Start(o: Options, clock: int): Watch {
    Watch(ArbiterProtocol.Start(o, clock), map[], multiset{}, map[])
  }

  predicate Enabled(f: Watch, step: Step) {
    match step
    case Section(s) => ArbiterProtocol.Enabled(f.sys, s) && !s.TimerFires?
    case TimerDue(id, now) => id in f.armed && f.armed[id] <= now && f.sys.clock <= now
    case Callback(id, now) => id in f.inFlight && id in f.sys.threads && f.sys.clock <= now
    case CallWaitIdle(w) => w !in f.idlers
    case LookIdle(w) => w in f.idlers && f.idlers[w] == Looking
    case IdlerWoken(w) => w in f.idlers && f.idlers[w].WaitsOn? && f.idlers[w].heard != f.sys.st.epoch
    case IdlerGivesUp(w) => w in f.idlers && f.idlers[w].WaitsOn?
  }

  function LeaseTypeOf(sys: Sys, id: nat): LeaseType
    requires id in sys.threads
  {
    sys.threads[id].ticket.leaseType
  }

  /** What a locked section does to the timers. */
  function ArmAfter(sys: Sys, armed: Timers, step: ArbiterProtocol.Step): Timers
    requires ArbiterProtocol.Enabled(sys, step)
  {
    match step
    case Arrive(id, now, at) => ArmIfGranted(Insert(sys, id), armed, id, now, at)
    case Wake(id, now, at) => ArmIfGranted(sys, armed, id, now, at)
    case ReleaseLease(id, lt) => DisarmOnRelease(armed, sys.st, id, lt)
    case TouchLease(id, lt, now) => ArmOnTouch(armed, sys.st, id, lt, now)
    case _ => armed
  }

  function ArmIfGranted(sys: Sys, armed: Timers, id: nat, now: int, at: int): Timers
    requires id in sys.threads
  {
    var t := sys.threads[id].ticket;
    if CanEnter(SchedOf(sys.st), t, now) then ArmOnEnter(armed, sys.st, t, at) else armed
  }

  function Apply(f: Watch, step: Step): Watch
    requires Enabled(f, step)
  {
    match step
    case Section(s) => f.(sys := ArbiterProtocol.Apply(f.sys, s), armed := ArmAfter(f.sys, f.armed, s))
    case TimerDue(id, now) =>
      f.(sys := f.sys.(clock := now), armed := f.armed - {id}, inFlight := f.inFlight + multiset{id})
    case Callback(id, now) =>
      var lt := LeaseTypeOf(f.sys, id);
      f.(sys := ExpireStep(f.sys, id, lt, now), armed := RearmOnCallback(f.armed, f.sys.st, id, lt, now),
         inFlight := f.inFlight - multiset{id})
    case CallWaitIdle(w) => f.(idlers := f.idlers[w := Looking])
    case LookIdle(w) =>
      f.(idlers := f.idlers[w := if IsIdle(f.sys.st) then Returned(true) else WaitsOn(f.sys.st.epoch)])
    case IdlerWoken(w) => f.(idlers := f.idlers[w := Looking])
    case IdlerGivesUp(w) => f.(idlers := f.idlers[w := Returned(false)])
  }

  // ---------------------------------------------------------------- invariants

  predicate HoldsLease(sys: Sys, id: nat) {
    id in sys.threads && sys.threads[id].phase.Holding? && sys.threads[id].ticket.leaseType != Barrier
  }

  /** An armed timer belongs to a lease and is due at its deadline; a lease without one has a
      callback on its way. */
  predicate TimerFits(sys: Sys, armed: Timers, inFlight: multiset<nat>, id: nat) {
    && (id in armed ==> HoldsLease(sys, id) && sys.threads[id].phase.lease.expiresAt == Some(armed[id]))
    && (HoldsLease(sys, id) ==> id in armed || id in inFlight)
  }

  ghost predicate TimersFit(f: Watch) {
    forall id: nat :: TimerFits(f.sys, f.armed, f.inFlight, id)
  }

  /** Who sleeps on the current channel has seen the arbiter busy, and it still is. */
  predicate IdlerFits(st: State, idler: Idler) {
    idler.WaitsOn? ==> idler.heard <= st.epoch && (idler.heard == st.epoch ==> !IsIdle(st))
  }

  ghost predicate IdlersFit(f: Watch) {
    forall w :: w in f.idlers ==> IdlerFits(f.sys.st, f.idlers[w])
  }

  ghost predicate Inv(f: Watch) {
    ArbiterProtocol.Inv(f.sys) && TimersFit(f) && IdlersFit(f)
  }

  // -------------------------------------------------------------------- timers

  lemma LeaseIsFound(sys: Sys, id: nat, lt: LeaseType)
    requires ArbiterProtocol.Inv(sys)
    ensures FindActive(sys.st, id, lt).Some? ==>
              HoldsLease(sys, id) && sys.threads[id].ticket.leaseType == lt
              && FindActive(sys.st, id, lt) == Some(sys.threads[id].phase.lease)
    ensures HoldsLease(sys, id) && sys.threads[id].ticket.leaseType == lt ==> FindActive(sys.st, id, lt).Some?
  {
    if FindActive(sys.st, id, lt).Some? {
      FindActiveIsMember(sys.st, id, lt);
      assert HeldBy(sys, FindActive(sys.st, id, lt).value, lt);
    }
    if HoldsLease(sys, id) && sys.threads[id].ticket.leaseType == lt {
      assert ThreadOk(sys, id);
      assert DistinctActives(ActivesOf(sys.st, lt));
      RemoveActiveEffect(sys.st, sys.threads[id].phase.lease, lt);
    }
  }

  lemma GrantKeepsTimers(sys: Sys, armed: Timers, inFlight: multiset<nat>, k: nat, now: int, at: int, id: nat)
    requires ArbiterProtocol.Inv(sys) && IsSleeping(sys, k) && TimerFits(sys, armed, inFlight, id)
    ensures TimerFits(Evaluate(sys, k, now, at), ArmIfGranted(sys, armed, k, now, at), inFlight, id)
  {
    assert ThreadOk(sys, k);
  }

  lemma ReleaseKeepsTimers(sys: Sys, armed: Timers, inFlight: multiset<nat>, k: nat, lt: LeaseType, id: nat)
    requires ArbiterProtocol.Inv(sys) && TimerFits(sys, armed, inFlight, id)
    ensures TimerFits(ReleaseStep(sys, k, lt), DisarmOnRelease(armed, sys.st, k, lt), inFlight, id)
  {
    hide FindActive, Release, ArbiterProtocol.Inv;
    LeaseIsFound(sys, k, lt);
  }

  lemma TouchKeepsTimers(sys: Sys, armed: Timers, inFlight: multiset<nat>, k: nat, lt: LeaseType, now: int, id: nat)
    requires ArbiterProtocol.Inv(sys) && TimerFits(sys, armed, inFlight, id)
    ensures TimerFits(TouchStep(sys, k, lt, now), ArmOnTouch(armed, sys.st, k, lt, now), inFlight, id)
  {
    hide FindActive, Touch, ArbiterProtocol.Inv;
    LeaseIsFound(sys, k, lt);
  }

  lemma CallbackKeepsTimers(sys: Sys, armed: Timers, inFlight: multiset<nat>, k: nat, now: int, id: nat)
    requires ArbiterProtocol.Inv(sys) && TimerFits(sys, armed, inFlight, id) && k in sys.threads
    ensures var lt := LeaseTypeOf(sys, k);
            TimerFits(ExpireStep(sys, k, lt, now),
                      RearmOnCallback(armed, sys.st, k, lt, now), inFlight - multiset{k}, id)
  {
    hide FindActive, ReleaseExpired, ArbiterProtocol.Inv;
    LeaseIsFound(sys, k, LeaseTypeOf(sys, k));
  }

  lemma LeaveKeepsTimers(sys: Sys, armed: Timers, inFlight: multiset<nat>, k: nat, id: nat)
    requires ArbiterProtocol.Inv(sys) && TimerFits(sys, armed, inFlight, id)
    ensures TimerFits(LeaveStep(sys, k), armed, inFlight, id)
  {
    LeaverIsNoLease(sys, k);
  }

  lemma PreparationKeepsTimers(sys: Sys, armed: Timers, inFlight: multiset<nat>, t: Ticket, id: nat)
    requires ArbiterProtocol.Inv(sys) && TimerFits(sys, armed, inFlight, id) && t.id == sys.lastId + 1
    ensures TimerFits(Prepare(sys, t), armed, inFlight, id)
  {
    NextIdIsFree(sys);
  }

  lemma SectionKeepsTimers(f: Watch, s: ArbiterProtocol.Step, id: nat)
    requires ArbiterProtocol.Inv(f.sys) && TimerFits(f.sys, f.armed, f.inFlight, id) && Enabled(f, Section(s))
    ensures TimerFits(ArbiterProtocol.Apply(f.sys, s), ArmAfter(f.sys, f.armed, s), f.inFlight, id)
  {
    hide TimerFits, ArbiterProtocol.Inv, Evaluate, ArmIfGranted, ReleaseStep, TouchStep, LeaveStep, Prepare;
    hide DisarmOnRelease, ArmOnTouch, GiveUp;
    match s
    case Arrive(k, now, at) => ArrivalKeepsTimers(f.sys, f.armed, f.inFlight, k, now, at, id);
    case Wake(k, now, at) => GrantKeepsTimers(f.sys, f.armed, f.inFlight, k, now, at, id);
    case ReleaseLease(k, lt) => ReleaseKeepsTimers(f.sys, f.armed, f.inFlight, k, lt, id);
    case TouchLease(k, lt, now) => TouchKeepsTimers(f.sys, f.armed, f.inFlight, k, lt, now, id);
    case LeaveBarrier(k) => LeaveKeepsTimers(f.sys, f.armed, f.inFlight, k, id);
    case PrepareLease(req, lt, enqueued) =>
      PreparationKeepsTimers(f.sys, f.armed, f.inFlight, LeaseTicket(f.sys.lastId + 1, req, lt, enqueued), id);
    case PrepareBarrier(req, policy, enqueued) =>
      PreparationKeepsTimers(f.sys, f.armed, f.inFlight, BarrierTicket(f.sys.lastId + 1, req, policy, enqueued), id);
    case ContextDone(k) => TimeoutKeepsTimers(f.sys, f.armed, f.inFlight, k, id);
  }

  lemma ArrivalKeepsTimers(sys: Sys, armed: Timers, inFlight: multiset<nat>, k: nat, now: int, at: int, id: nat)
    requires ArbiterProtocol.Inv(sys) && TimerFits(sys, armed, inFlight, id)
    requires k in sys.threads && sys.threads[k].phase == Prepared
    ensures var mid := Insert(sys, k);
            TimerFits(Evaluate(mid, k, now, at), ArmIfGranted(mid, armed, k, now, at), inFlight, id)
  {
    InsertKeepsInv(sys, k);
    GrantKeepsTimers(Insert(sys, k), armed, inFlight, k, now, at, id);
  }

  lemma TimeoutKeepsTimers(sys: Sys, armed: Timers, inFlight: multiset<nat>, k: nat, id: nat)
    requires IsSleeping(sys, k) && TimerFits(sys, armed, inFlight, id)
    ensures TimerFits(sys.(st := GiveUp(sys.st, k), threads := SetPhase(sys.threads, k, TimedOut)), armed, inFlight, id)
  {}

  lemma NextIdIsFree(sys: Sys)
    requires ArbiterProtocol.Inv(sys)
    ensures sys.lastId + 1 !in sys.threads
  {
    forall id | id in sys.threads
      ensures id <= sys.lastId
    {
      assert ThreadOk(sys, id);
    }
  }

  lemma LeaverIsNoLease(sys: Sys, k: nat)
    requires ArbiterProtocol.Inv(sys)
    ensures LeaveStep(sys, k) != sys ==> !HoldsLease(sys, k)
  {
    var i := ActiveIndex(sys.st.barriers, k);
    if i < |sys.st.barriers| {
      assert ActivesOf(sys.st, Barrier) == sys.st.barriers;
      assert HeldBy(sys, sys.st.barriers[i], Barrier);
    }
  }

  lemma StepKeepsTimers(f: Watch, step: Step)
    requires Inv(f) && Enabled(f, step)
    ensures TimersFit(Apply(f, step))
  {
    forall id: nat
      ensures TimerFits(Apply(f, step).sys, Apply(f, step).armed, Apply(f, step).inFlight, id)
    {
      assert TimerFits(f.sys, f.armed, f.inFlight, id);
      StepKeepsTimer(f, step, id);
    }
  }

  lemma StepKeepsTimer(f: Watch, step: Step, id: nat)
    requires ArbiterProtocol.Inv(f.sys) && TimerFits(f.sys, f.armed, f.inFlight, id) && Enabled(f, step)
    ensures var next := Apply(f, step); TimerFits(next.sys, next.armed, next.inFlight, id)
  {
    hide ArbiterProtocol.Inv, ArbiterProtocol.Apply, ArmAfter, ExpireStep, RearmOnCallback;
    match step
    case Section(s) => SectionKeepsTimers(f, s, id);
    case Callback(k, now) => CallbackKeepsTimers(f.sys, f.armed, f.inFlight, k, now, id);
    case _ =>
  }

  // ----------------------------------------------------------- waiting for idle

  /** A locked section that keeps the channel neither frees nor fills the arbiter, and no
      section goes back to an earlier channel. */
  ghost predicate KeepsIdle(st: State, next: State) {
    st.epoch <= next.epoch && (st.epoch == next.epoch ==> IsIdle(next) == IsIdle(st))
  }

  lemma TurnKeepsIdle(sys: Sys, k: nat, now: int, at: int)
    requires k in sys.threads
    ensures KeepsIdle(sys.st, Evaluate(sys, k, now, at).st)
  {
    hide CanEnter, IsIdle;
  }

  lemma HandBackKeepsIdle(st: State, id: nat, lt: LeaseType, now: int)
    ensures KeepsIdle(st, Release(st, id, lt)) && KeepsIdle(st, ReleaseExpired(st, id, lt, now))
    ensures KeepsIdle(st, ReleaseBarrier(st, id)) && KeepsIdle(st, GiveUp(st, id))
  {
    hide IsIdle, FindActive, RemoveTicket;
  }

  lemma TouchKeepsIdle(st: State, id: nat, lt: LeaseType, now: int)
    ensures KeepsIdle(st, Touch(st, id, lt, now))
  {}

  lemma SectionKeepsIdle(sys: Sys, s: ArbiterProtocol.Step)
    requires ArbiterProtocol.Enabled(sys, s)
    ensures KeepsIdle(sys.st, ArbiterProtocol.Apply(sys, s).st)
  {
    hide IsIdle, Evaluate, Release, ReleaseExpired, ReleaseBarrier, GiveUp, Touch, FindActive;
    match s
    case Arrive(k, now, at) => TurnKeepsIdle(Insert(sys, k), k, now, at);
    case Wake(k, now, at) => TurnKeepsIdle(sys, k, now, at);
    case ReleaseLease(k, lt) => HandBackKeepsIdle(sys.st, k, lt, sys.clock);
    case TimerFires(k, lt, now) => HandBackKeepsIdle(sys.st, k, lt, now);
    case TouchLease(k, lt, now) => TouchKeepsIdle(sys.st, k, lt, now);
    case LeaveBarrier(k) => HandBackKeepsIdle(sys.st, k, Barrier, sys.clock);
    case ContextDone(k) => HandBackKeepsIdle(sys.st, k, Barrier, sys.clock);
    case _ =>
  }

  lemma StepKeepsIdlers(f: Watch, step: Step)
    requires Inv(f) && Enabled(f, step)
    ensures IdlersFit(Apply(f, step))
  {
    hide ArbiterProtocol.Inv, TimersFit, IsIdle, ArmAfter, ExpireStep, RearmOnCallback;
    match step
    case Section(s) => SectionKeepsIdle(f.sys, s);
    case Callback(id, now) => SectionKeepsIdle(f.sys, TimerFires(id, LeaseTypeOf(f.sys, id), now));
    case _ =>
  }

  lemma StepKeepsInv(f: Watch, step: Step)
    requires Inv(f) && Enabled(f, step)
    ensures Inv(Apply(f, step))
  {
    StepKeepsTimers(f, step);
    StepKeepsIdlers(f, step);
    match step
    case Section(s) => ArbiterInvariant.StepKeepsInv(f.sys, s);
    case TimerDue(_, now) => TickKeepsInv(f.sys, now);
    case Callback(id, now) => ExpireKeepsInv(f.sys, id, LeaseTypeOf(f.sys, id), now);
    case _ =>
  }

  // ---------------------------------------------------------------------- runs

  ghost predicate Runs(f: Watch, steps: seq<Step>)
    decreases |steps|
  {
    |steps| > 0 ==> Enabled(f, steps[0]) && Runs(Apply(f, steps[0]), steps[1..])
  }

  ghost function After(f: Watch, steps: seq<Step>): Watch
    requires Runs(f, steps)
    decreases |steps|
  {
    if |steps| == 0 then f else After(Apply(f, steps[0]), steps[1..])
  }

  lemma {:induction false} RunKeepsInv(f: Watch, steps: seq<Step>)
    requires Inv(f) && Runs(f, steps)
    ensures Inv(After(f, steps))
    decreases |steps|
  {
    if |steps| > 0 {
      hide Inv, Apply, Enabled;
      StepKeepsInv(f, steps[0]);
      RunKeepsInv(Apply(f, steps[0]), steps[1..]);
    }
  }

  lemma RunFromStart(o: Options, clock: int, steps: seq<Step>)
    requires Runs(Start(o, clock), steps)
    ensures Inv(After(Start(o, clock), steps))
  {
    A.StartInv(o, clock);
    RunKeepsInv(Start(o, clock), steps);
  }

  /** No lease goes unwatched: over every run, each active session, oneshot and transport has
      its timer armed for exactly its deadline, or a callback on its way. */
  lemma EveryLeaseIsWatched(o: Options, clock: int, steps: seq<Step>, lt: LeaseType, a: Active)
    requires Runs(Start(o, clock), steps) && lt != Barrier && a in ActivesOf(After(Start(o, clock), steps).sys.st, lt)
    ensures var f := After(Start(o, clock), steps);
            && (a.ticket.id in f.armed || a.ticket.id in f.inFlight)
            && (a.ticket.id in f.armed ==> a.expiresAt == Some(f.armed[a.ticket.id]))
  {
    RunFromStart(o, clock, steps);
    LeaseIsKnown(After(Start(o, clock), steps), lt, a);
  }

  /** Nor is a timer left behind: an armed one always belongs to an active lease. */
  lemma NoTimerWithoutLease(o: Options, clock: int, steps: seq<Step>, id: nat)
    requires Runs(Start(o, clock), steps) && id in After(Start(o, clock), steps).armed
    ensures var f := After(Start(o, clock), steps);
            exists lt, a :: lt != Barrier && a in ActivesOf(f.sys.st, lt) && a.ticket.id == id
  {
    RunFromStart(o, clock, steps);
    var f := After(Start(o, clock), steps);
    assert TimerFits(f.sys, f.armed, f.inFlight, id);
    assert ThreadOk(f.sys, id);
    assert f.sys.threads[id].phase.lease in ActivesOf(f.sys.st, f.sys.threads[id].ticket.leaseType);
  }

  /** The watchdog can always do its work: once a lease is past its deadline, the timer and its
      callback, or the callback on its way, take the lease away. */
  lemma OverdueLeaseCanBeTaken(f: Watch, lt: LeaseType, a: Active, now: int) returns (steps: seq<Step>)
    requires Inv(f) && lt != Barrier && a in ActivesOf(f.sys.st, lt)
    requires f.sys.clock <= now && Expired(a, now)
    ensures forall i :: 0 <= i < |steps| ==> steps[i].TimerDue? || steps[i].Callback?
    ensures |steps| <= 2 && Runs(f, steps)
    ensures var next := After(f, steps).sys.st;
            && FindActive(next, a.ticket.id, lt).None? && next.forcedReleases == f.sys.st.forcedReleases + 1
  {
    hide Inv, FindActive, ActivesOf;
    var id := a.ticket.id;
    LeaseIsKnown(f, lt, a);
    if id in f.inFlight {
      CallbackTakes(f, lt, a, now);
      steps := [Callback(id, now)];
    } else {
      var due := Apply(f, TimerDue(id, now));
      StepKeepsInv(f, TimerDue(id, now));
      CallbackTakes(due, lt, a, now);
      steps := [TimerDue(id, now), Callback(id, now)];
      assert steps[1..] == [Callback(id, now)];
    }
  }

  lemma CallbackTakes(f: Watch, lt: LeaseType, a: Active, now: int)
    requires Inv(f) && lt != Barrier && a in ActivesOf(f.sys.st, lt) && a.ticket.id in f.inFlight
    requires f.sys.clock <= now && Expired(a, now)
    ensures var steps := [Callback(a.ticket.id, now)];
            && Runs(f, steps) && After(f, steps) == Apply(f, steps[0])
            && FindActive(After(f, steps).sys.st, a.ticket.id, lt).None?
            && After(f, steps).sys.st.forcedReleases == f.sys.st.forcedReleases + 1
  {
    hide Inv, ArbiterProtocol.Inv, FindActive, ActivesOf, RemoveActive;
    var step := Callback(a.ticket.id, now);
    LeaseIsKnown(f, lt, a);
    CallbackGoes(f, lt, a, now);
    StepKeepsInv(f, step);
    LeaseIsGone(Apply(f, step), a.ticket.id, lt);
    assert [step][1..] == [];
  }

  lemma LeaseIsKnown(f: Watch, lt: LeaseType, a: Active)
    requires Inv(f) && lt != Barrier && a in ActivesOf(f.sys.st, lt)
    ensures a.ticket.id in f.sys.threads && LeaseTypeOf(f.sys, a.ticket.id) == lt
    ensures FindActive(f.sys.st, a.ticket.id, lt) == Some(a)
    ensures a.ticket.id in f.armed || a.ticket.id in f.inFlight
    ensures a.ticket.id in f.armed ==> a.expiresAt == Some(f.armed[a.ticket.id])
  {
    OwnerKnowsLease(f.sys, a, lt);
    RemoveActiveEffect(f.sys.st, a, lt);
    assert TimerFits(f.sys, f.armed, f.inFlight, a.ticket.id);
  }

  lemma CallbackGoes(f: Watch, lt: LeaseType, a: Active, now: int)
    requires Inv(f) && lt != Barrier && a in ActivesOf(f.sys.st, lt) && a.ticket.id in f.inFlight
    requires f.sys.clock <= now && Expired(a, now)
    ensures var step := Callback(a.ticket.id, now);
            && Enabled(f, step)
            && var next := Apply(f, step).sys;
               && next.st.forcedReleases == f.sys.st.forcedReleases + 1
               && a.ticket.id in next.threads && next.threads[a.ticket.id].phase == Released
  {
    hide Inv, FindActive, RearmOnCallback, RemoveActive;
    LeaseIsKnown(f, lt, a);
    RemoveKeepsCount(f.sys.st, a.ticket.id, lt);
  }

  lemma RemoveKeepsCount(st: State, id: nat, lt: LeaseType)
    ensures RemoveActive(st, id, lt).forcedReleases == st.forcedReleases
  {}

  lemma LeaseIsGone(f: Watch, id: nat, lt: LeaseType)
    requires Inv(f) && id in f.sys.threads && f.sys.threads[id].phase == Released
    ensures FindActive(f.sys.st, id, lt).None?
  {
    LeaseIsFound(f.sys, id, lt);
  }

  /** `WaitIdle` misses nothing: over every run, a caller asleep on the current channel means
      that the arbiter is not idle. */
  lemma IdleIsNeverMissed(o: Options, clock: int, steps: seq<Step>, w: nat)
    requires Runs(Start(o, clock), steps)
    requires var f := After(Start(o, clock), steps);
             w in f.idlers && f.idlers[w] == WaitsOn(f.sys.st.epoch)
    ensures !IsIdle(After(Start(o, clock), steps).sys.st)
  {
    RunFromStart(o, clock, steps);
  }
}
