/** Every step of the arbiter protocol keeps the invariant, so every run does. */
module ArbiterInvariant {
  import opened Common
  import opened ArbiterState
  import opened Scheduling
  import opened ArbiterProtocol

  // --------------------------------------------------------------- ownership

  lemma PrepareOwnership(sys: Sys, t: Ticket)
    requires Ownership(sys) && t.id == sys.lastId + 1 && WellFormed(t)
    ensures Ownership(Prepare(sys, t))
  {
    var next := Prepare(sys, t);
    forall id | id in next.threads
      ensures ThreadOk(next, id)
    {
      if id != t.id {
        assert ThreadOk(sys, id);
      }
    }
    forall u | u in next.st.queue
      ensures QueuedBy(next, u)
    {
      assert QueuedBy(sys, u) && ThreadOk(sys, u.id);
    }
    forall lt, a | a in ActivesOf(next.st, lt)
      ensures HeldBy(next, a, lt)
    {
      assert HeldBy(sys, a, lt) && ThreadOk(sys, a.ticket.id);
    }
  }

  lemma InsertOwnership(sys: Sys, id: nat)
    requires Ownership(sys) && id in sys.threads && sys.threads[id].phase == Prepared
    ensures Ownership(Insert(sys, id))
  {
    hide DistinctActives;
    var next := Insert(sys, id);
    var t := sys.threads[id].ticket;
    assert ThreadOk(sys, id);
    forall u | u in sys.st.queue
      ensures u.id != id && QueuedBy(next, u)
    {
      assert QueuedBy(sys, u);
    }
    forall lt
      ensures ActivesOf(next.st, lt) == ActivesOf(sys.st, lt)
    {}
    forall lt, a | a in ActivesOf(next.st, lt)
      ensures HeldBy(next, a, lt)
    {
      assert HeldBy(sys, a, lt);
    }
    forall k | k in next.threads
      ensures ThreadOk(next, k)
    {
      assert ThreadOk(sys, k);
    }
  }

  /** A refused waiter goes back to sleep: only its phase and the clock move. */
  lemma SleepOwnership(sys: Sys, id: nat, p: Phase, clock: int)
    requires Ownership(sys) && IsSleeping(sys, id) && p.Sleeping?
    ensures Ownership(sys.(clock := clock, threads := SetPhase(sys.threads, id, p)))
  {
    var next := sys.(clock := clock, threads := SetPhase(sys.threads, id, p));
    forall k | k in next.threads
      ensures ThreadOk(next, k)
    {
      assert ThreadOk(sys, k);
    }
    forall u | u in next.st.queue
      ensures QueuedBy(next, u)
    {
      assert QueuedBy(sys, u);
    }
    forall lt, a | a in ActivesOf(next.st, lt)
      ensures HeldBy(next, a, lt)
    {
      assert HeldBy(sys, a, lt);
    }
  }

  /** `s` is `sys.st` with `t` moved from the queue into the lease or barrier `a`. */
  ghost predicate GainedOnly(sys: Sys, s: State, t: Ticket, a: Active) {
    && a.ticket == t
    && ActivesOf(s, t.leaseType) == ActivesOf(sys.st, t.leaseType) + [a]
    && (forall k :: k != t.leaseType ==> ActivesOf(s, k) == ActivesOf(sys.st, k))
    && s.queue == RemoveTicket(sys.st.queue, t.id) && s.opts == sys.st.opts
  }

  function Gained(sys: Sys, s: State, id: nat, a: Active, at: int): Sys {
    Sys(s, sys.lastId, SetPhase(sys.threads, id, Holding(a, at)), at)
  }

  /** Leases and barriers held before are still held, by others than the one that enters. */
  lemma GainOthers(sys: Sys, s: State, id: nat, a: Active, at: int, k: LeaseType, b: Active)
    requires Ownership(sys) && IsSleeping(sys, id) && GainedOnly(sys, s, sys.threads[id].ticket, a)
    requires b in ActivesOf(sys.st, k)
    ensures b.ticket.id != id && HeldBy(Gained(sys, s, id, a, at), b, k)
  {
    assert HeldBy(sys, b, k);
    assert ThreadOk(sys, id);
  }

  lemma GainDistinct(sys: Sys, s: State, id: nat, a: Active, at: int, k: LeaseType)
    requires Ownership(sys) && IsSleeping(sys, id) && GainedOnly(sys, s, sys.threads[id].ticket, a)
    ensures DistinctActives(ActivesOf(s, k))
  {
    var before := ActivesOf(sys.st, k);
    assert DistinctActives(before);
    forall i | 0 <= i < |before|
      ensures before[i].ticket.id != a.ticket.id
    {
      assert ThreadOk(sys, id);
      GainOthers(sys, s, id, a, at, k, before[i]);
    }
  }

  lemma GainHeld(sys: Sys, s: State, id: nat, a: Active, at: int, k: LeaseType, b: Active)
    requires Ownership(sys) && IsSleeping(sys, id) && GainedOnly(sys, s, sys.threads[id].ticket, a)
    requires a.expiresAt == if a.ticket.leaseType == Barrier then None else Some(at + s.opts.maxLeaseHold)
    requires b in ActivesOf(s, k)
    ensures HeldBy(Gained(sys, s, id, a, at), b, k)
  {
    if b in ActivesOf(sys.st, k) {
      GainOthers(sys, s, id, a, at, k, b);
    } else {
      assert b == a && k == a.ticket.leaseType;
      assert ThreadOk(sys, id);
    }
  }

  lemma GainOwnership(sys: Sys, s: State, id: nat, a: Active, at: int)
    requires Ownership(sys) && IsSleeping(sys, id) && GainedOnly(sys, s, sys.threads[id].ticket, a)
    requires a.expiresAt == if a.ticket.leaseType == Barrier then None else Some(at + s.opts.maxLeaseHold)
    ensures Ownership(Gained(sys, s, id, a, at))
  {
    var next := Gained(sys, s, id, a, at);
    assert ThreadOk(sys, id);
    RemoveTicketMembers(sys.st.queue, sys.threads[id].ticket);
    forall k
      ensures DistinctActives(ActivesOf(s, k))
    {
      GainDistinct(sys, s, id, a, at, k);
    }
    forall k, b | b in ActivesOf(s, k)
      ensures HeldBy(next, b, k)
    {
      GainHeld(sys, s, id, a, at, k, b);
    }
    forall u | u in s.queue
      ensures QueuedBy(next, u)
    {
      assert QueuedBy(sys, u);
    }
    forall k | k in next.threads
      ensures ThreadOk(next, k)
    {
      assert ThreadOk(sys, k);
    }
  }

  lemma EnterOwnership(sys: Sys, id: nat, at: int)
    requires Ownership(sys) && IsSleeping(sys, id) && PositiveLimits(sys.st.opts)
    requires sys.threads[id].ticket.leaseType == OneShot ==> sys.st.oneshot.None?
    ensures var t := sys.threads[id].ticket;
            Ownership(sys.(st := Enter(sys.st, t, at), clock := at,
                           threads := SetPhase(sys.threads, id, Holding(NewActive(sys.st, t, at), at))))
  {
    assert ThreadOk(sys, id);
    EnterEffect(sys.st, sys.threads[id].ticket, at);
    GainOwnership(sys, Enter(sys.st, sys.threads[id].ticket, at), id,
                  NewActive(sys.st, sys.threads[id].ticket, at), at);
  }

  function GivenUp(sys: Sys, id: nat): Sys {
    sys.(st := GiveUp(sys.st, id), threads := SetPhase(sys.threads, id, TimedOut))
  }

  lemma TimeoutHeld(sys: Sys, id: nat, lt: LeaseType)
    requires Ownership(sys) && IsSleeping(sys, id)
    ensures ActivesOf(GivenUp(sys, id).st, lt) == ActivesOf(sys.st, lt)
    ensures forall a :: a in ActivesOf(sys.st, lt) ==> HeldBy(GivenUp(sys, id), a, lt)
  {
    forall a | a in ActivesOf(sys.st, lt)
      ensures HeldBy(GivenUp(sys, id), a, lt)
    {
      assert HeldBy(sys, a, lt);
    }
  }

  lemma TimeoutOwnership(sys: Sys, id: nat)
    requires Ownership(sys) && IsSleeping(sys, id)
    ensures TicketIndex(sys.st.queue, id) < |sys.st.queue|
    ensures Ownership(GivenUp(sys, id))
  {
    var next := GivenUp(sys, id);
    assert ThreadOk(sys, id);
    RemoveTicketMembers(sys.st.queue, sys.threads[id].ticket);
    forall lt
      ensures ActivesOf(next.st, lt) == ActivesOf(sys.st, lt)
      ensures forall a :: a in ActivesOf(sys.st, lt) ==> HeldBy(next, a, lt)
    {
      TimeoutHeld(sys, id, lt);
    }
    forall u | u in next.st.queue
      ensures QueuedBy(next, u)
    {
      assert QueuedBy(sys, u);
    }
    forall k | k in next.threads
      ensures ThreadOk(next, k)
    {
      assert ThreadOk(sys, k);
    }
  }

  /** `s` is `sys.st` without the active lease or barrier `a`. */
  ghost predicate LostOnly(sys: Sys, s: State, a: Active, lt: LeaseType) {
    && a in ActivesOf(sys.st, lt)
    && ActivesOf(s, lt) == RemoveActiveSeq(ActivesOf(sys.st, lt), a.ticket.id)
    && (forall k :: k != lt ==> ActivesOf(s, k) == ActivesOf(sys.st, k))
    && s.queue == sys.st.queue && s.opts == sys.st.opts
  }

  /** No two lease sets share an id. */
  lemma HoldersDiffer(sys: Sys, a: Active, lt: LeaseType, b: Active, k: LeaseType)
    requires Ownership(sys) && a in ActivesOf(sys.st, lt) && b in ActivesOf(sys.st, k) && b != a
    ensures b.ticket.id != a.ticket.id
  {
    assert HeldBy(sys, a, lt) && HeldBy(sys, b, k);
  }

  lemma LeaveHeld(sys: Sys, s: State, a: Active, lt: LeaseType, clock: int, k: LeaseType, b: Active)
    requires Ownership(sys) && LostOnly(sys, s, a, lt) && b in ActivesOf(s, k)
    ensures HeldBy(Sys(s, sys.lastId, SetPhase(sys.threads, a.ticket.id, Released), clock), b, k)
  {
    assert b in ActivesOf(sys.st, k) && b.ticket.id != a.ticket.id by {
      if k == lt {
        assert DistinctActives(ActivesOf(sys.st, lt));
        RemoveActiveMembers(ActivesOf(sys.st, lt), a);
      } else {
        assert HeldBy(sys, a, lt) && HeldBy(sys, b, k);
        HoldersDiffer(sys, a, lt, b, k);
      }
    }
    assert HeldBy(sys, b, k);
  }

  lemma LeaveOwnership(sys: Sys, s: State, a: Active, lt: LeaseType, clock: int)
    requires Ownership(sys) && LostOnly(sys, s, a, lt)
    ensures Ownership(Sys(s, sys.lastId, SetPhase(sys.threads, a.ticket.id, Released), clock))
  {
    hide ActivesOf, RemoveActiveSeq, WellFormed, DistinctActives;
    var next := Sys(s, sys.lastId, SetPhase(sys.threads, a.ticket.id, Released), clock);
    forall k, b | b in ActivesOf(s, k)
      ensures HeldBy(next, b, k)
    {
      LeaveHeld(sys, s, a, lt, clock, k, b);
    }
    RemoveActiveMembers(ActivesOf(sys.st, lt), a);
    assert HeldBy(sys, a, lt);
    forall k | true
      ensures DistinctActives(ActivesOf(s, k))
    {
      assert DistinctActives(ActivesOf(sys.st, k));
    }
    forall u | u in s.queue
      ensures QueuedBy(next, u)
    {
      assert QueuedBy(sys, u);
    }
    forall k | k in next.threads
      ensures ThreadOk(next, k)
    {
      assert ThreadOk(sys, k);
    }
  }

  lemma TouchThreads(sys: Sys, a: Active, lt: LeaseType, now: int)
    requires Ownership(sys) && lt != Barrier && a in ActivesOf(sys.st, lt) && PositiveLimits(sys.st.opts)
    ensures var next := TouchStep(sys, a.ticket.id, lt, now);
            && next.st == Touch(sys.st, a.ticket.id, lt, now) && next.lastId == sys.lastId
            && next.threads == SetPhase(sys.threads, a.ticket.id,
                                        Holding(a.(expiresAt := Some(now + sys.st.opts.maxLeaseHold)), now))
  {
    hide ActivesOf, FindActive, Touch;
    assert DistinctActives(ActivesOf(sys.st, lt));
    RemoveActiveEffect(sys.st, a, lt);
  }

  lemma TouchHeldOther(sys: Sys, a: Active, lt: LeaseType, now: int, k: LeaseType, b: Active)
    requires Ownership(sys) && lt != Barrier && a in ActivesOf(sys.st, lt) && PositiveLimits(sys.st.opts)
    requires b in ActivesOf(sys.st, k) && b.ticket.id != a.ticket.id
    ensures HeldBy(TouchStep(sys, a.ticket.id, lt, now), b, k)
  {
    hide ActivesOf, TouchStep, Touch, WellFormed;
    assert HeldBy(sys, b, k);
    TouchThreads(sys, a, lt, now);
    assert DistinctActives(ActivesOf(sys.st, lt));
    TouchEffect(sys.st, a, lt, now);
  }

  lemma TouchHeldOwn(sys: Sys, a: Active, lt: LeaseType, now: int)
    requires Ownership(sys) && lt != Barrier && a in ActivesOf(sys.st, lt) && PositiveLimits(sys.st.opts)
    ensures HeldBy(TouchStep(sys, a.ticket.id, lt, now), a.(expiresAt := Some(now + sys.st.opts.maxLeaseHold)), lt)
  {
    hide ActivesOf, TouchStep, Touch, WellFormed;
    assert HeldBy(sys, a, lt);
    TouchThreads(sys, a, lt, now);
    assert DistinctActives(ActivesOf(sys.st, lt));
    TouchEffect(sys.st, a, lt, now);
  }

  lemma TouchHeld(sys: Sys, a: Active, lt: LeaseType, now: int, k: LeaseType, b: Active)
    requires Ownership(sys) && lt != Barrier && a in ActivesOf(sys.st, lt) && PositiveLimits(sys.st.opts)
    requires b in ActivesOf(TouchStep(sys, a.ticket.id, lt, now).st, k)
    ensures HeldBy(TouchStep(sys, a.ticket.id, lt, now), b, k)
  {
    hide ActivesOf, ExtendSeq, HeldBy, TouchStep, ThreadOk, Touch, DistinctActives;
    var until := now + sys.st.opts.maxLeaseHold;
    assert DistinctActives(ActivesOf(sys.st, lt));
    TouchEffect(sys.st, a, lt, now);
    TouchThreads(sys, a, lt, now);
    if b == a.(expiresAt := Some(until)) && k == lt {
      TouchHeldOwn(sys, a, lt, now);
    } else {
      if k == lt {
        ExtendMembers(ActivesOf(sys.st, lt), a, until);
      } else {
        assert k != lt && a != b by {
          SetsApart(sys, a, lt, b, k);
        }
        HoldersDiffer(sys, a, lt, b, k);
      }
      TouchHeldOther(sys, a, lt, now, k, b);
    }
  }

  lemma SetsApart(sys: Sys, a: Active, lt: LeaseType, b: Active, k: LeaseType)
    requires Ownership(sys) && a in ActivesOf(sys.st, lt) && b in ActivesOf(sys.st, k) && k != lt
    ensures a != b
  {
    assert HeldBy(sys, a, lt) && HeldBy(sys, b, k);
  }

  lemma TouchOwnership(sys: Sys, a: Active, lt: LeaseType, now: int)
    requires Ownership(sys) && lt != Barrier && a in ActivesOf(sys.st, lt) && PositiveLimits(sys.st.opts)
    ensures Ownership(TouchStep(sys, a.ticket.id, lt, now))
  {
    hide ActivesOf, ExtendSeq, WellFormed, Touch, DistinctActives;
    var next := TouchStep(sys, a.ticket.id, lt, now);
    forall k, b | b in ActivesOf(next.st, k)
      ensures HeldBy(next, b, k)
    {
      TouchHeld(sys, a, lt, now, k, b);
    }
    RemoveActiveEffect(sys.st, a, lt);
    TouchEffect(sys.st, a, lt, now);
    ExtendMembers(ActivesOf(sys.st, lt), a, now + sys.st.opts.maxLeaseHold);
    assert HeldBy(sys, a, lt);
    forall k
      ensures DistinctActives(ActivesOf(next.st, k))
    {
      assert DistinctActives(ActivesOf(sys.st, k));
    }
    forall u | u in next.st.queue
      ensures QueuedBy(next, u)
    {
      assert QueuedBy(sys, u);
    }
    forall k | k in next.threads
      ensures ThreadOk(next, k)
    {
      assert ThreadOk(sys, k);
    }
  }

  // ------------------------------------------------------ exclusion, isolation

  lemma AllQMICount(ts: seq<Ticket>)
    requires forall i :: 0 <= i < |ts| ==> ts[i].scope == QMIChannel
    ensures QMICount(ts) == |ts|
  {
    if |ts| > 0 {
      AllQMICount(ts[..|ts| - 1]);
    }
  }

  lemma AdmittedTransportFits(s: State, t: Ticket, now: int)
    requires DistinctIds(s.queue) && t in s.queue && IsTransportWait(t) && CanEnter(SchedOf(s), t, now)
    ensures Fits(SchedOf(s), t)
  {
    var i :| 0 <= i < |s.queue| && s.queue[i] == t;
    AdmittedPosition(SchedOf(s), i, now);
  }

  lemma WindowGrows(s: State, a: Active)
    requires PositiveLimits(s.opts) && TransportWindow(s) && WellFormed(a.ticket) && Fits(SchedOf(s), a.ticket)
    ensures TransportWindow(s.(transports := s.transports + [a]))
  {
    var v := SchedOf(s);
    assert forall i :: 0 <= i < |s.transports| ==> v.transports[i] == s.transports[i].ticket;
    if a.ticket.scope == QMIChannel {
      AllQMICount(v.transports);
    }
  }

  lemma EnterExclusion(s: State, t: Ticket, now: int, at: int)
    requires Exclusion(s) && DistinctIds(s.queue) && t in s.queue && WellFormed(t)
    requires CanEnter(SchedOf(s), t, now)
    ensures Exclusion(Enter(s, t, at))
  {
    if t.leaseType == Transport {
      AdmittedTransportFits(s, t, now);
      WindowGrows(s, NewActive(s, t, at));
    }
  }

  lemma EnterIsolation(s: State, t: Ticket, now: int, at: int)
    requires Isolation(s) && WellFormed(t) && CanEnter(SchedOf(s), t, now)
    ensures Isolation(Enter(s, t, at))
  {
    var r := Enter(s, t, at);
    EnterEffect(s, t, at);
    forall lt, a, b | lt != Barrier && a in ActivesOf(r, lt) && b in r.barriers
      ensures a.ticket.cls !in b.ticket.blocked
    {
      if a in ActivesOf(s, lt) && b in s.barriers {
      } else if t.kind == LeaseWait {
        assert a.ticket == t && b in s.barriers;
        var k :| 0 <= k < |s.barriers| && s.barriers[k] == b;
        assert SchedOf(s).barriers[k] == b.ticket;
      }
    }
  }

  lemma RemovalExclusion(s: State, a: Active, lt: LeaseType)
    requires Exclusion(s) && lt != Barrier && DistinctActives(ActivesOf(s, lt)) && a in ActivesOf(s, lt)
    ensures Exclusion(RemoveActive(s, a.ticket.id, lt))
  {
    ActiveIndexOf(ActivesOf(s, lt), a);
  }

  lemma RemovalIsolation(sys: Sys, s: State, a: Active, lt: LeaseType)
    requires Ownership(sys) && Isolation(sys.st) && LostOnly(sys, s, a, lt)
    ensures Isolation(s)
  {
    RemoveActiveMembers(ActivesOf(sys.st, lt), a);
    assert s.barriers == ActivesOf(s, Barrier) && sys.st.barriers == ActivesOf(sys.st, Barrier);
  }

  lemma TouchKeepsExclusion(s: State, a: Active, lt: LeaseType, now: int)
    requires Exclusion(s)
    requires lt != Barrier && DistinctActives(ActivesOf(s, lt)) && a in ActivesOf(s, lt)
    ensures Exclusion(Touch(s, a.ticket.id, lt, now))
  {
    ActiveIndexOf(ActivesOf(s, lt), a);
  }

  lemma TouchKeepsIsolation(s: State, a: Active, lt: LeaseType, now: int)
    requires Isolation(s) && s.opts.maxLeaseHold > 0
    requires lt != Barrier && DistinctActives(ActivesOf(s, lt)) && a in ActivesOf(s, lt)
    ensures Isolation(Touch(s, a.ticket.id, lt, now))
  {
    hide ActivesOf, Touch, ExtendSeq;
    TouchEffect(s, a, lt, now);
    var next := Touch(s, a.ticket.id, lt, now);
    ExtendMembers(ActivesOf(s, lt), a, now + s.opts.maxLeaseHold);
    forall k, x, b | k != Barrier && x in ActivesOf(next, k) && b in next.barriers
      ensures x.ticket.cls !in b.ticket.blocked
    {
      var y := if k == lt && x.ticket == a.ticket then a else x;
      assert y in ActivesOf(s, k) && b in s.barriers;
    }
  }

  // -------------------------------------------------------------- wake-ups

  /** A section that broadcasts leaves nobody asleep on the current channel. */
  lemma BroadcastWakesAll(sys: Sys, next: Sys)
    requires RefusalsStand(sys) && next.st.epoch == sys.st.epoch + 1 && sys.clock <= next.clock
    requires forall id :: IsSleeping(next, id) ==>
               IsSleeping(sys, id) && next.threads[id].phase == sys.threads[id].phase
    ensures RefusalsStand(next)
  {}

  /** A section that keeps the channel also keeps everything verdicts depend on. */
  lemma QuietSectionKeepsRefusals(sys: Sys, next: Sys)
    requires RefusalsStand(sys) && next.st.epoch == sys.st.epoch && sys.clock <= next.clock
    requires SchedOf(next.st) == SchedOf(sys.st)
    requires forall id :: IsSleeping(next, id) ==> IsSleeping(sys, id) && next.threads[id] == sys.threads[id]
    ensures RefusalsStand(next)
  {}

  // ------------------------------------------------------------------- steps

  lemma PrepareKeepsInv(sys: Sys, t: Ticket)
    requires Inv(sys) && t.id == sys.lastId + 1 && WellFormed(t)
    ensures Inv(Prepare(sys, t))
  {
    PrepareOwnership(sys, t);
    QuietSectionKeepsRefusals(sys, Prepare(sys, t));
  }

  lemma InsertKeepsInv(sys: Sys, id: nat)
    requires Inv(sys) && id in sys.threads && sys.threads[id].phase == Prepared
    ensures Inv(Insert(sys, id)) && IsSleeping(Insert(sys, id), id)
  {
    hide Ownership, CanEnter, SchedOf;
    var next := Insert(sys, id);
    InsertOwnership(sys, id);
    assert forall lt :: ActivesOf(next.st, lt) == ActivesOf(sys.st, lt);
  }

  /** What ownership says of a sleeping caller and of a lease. */
  lemma SleeperIsQueued(sys: Sys, id: nat)
    requires Ownership(sys) && IsSleeping(sys, id)
    ensures var t := sys.threads[id].ticket;
            WellFormed(t) && t.id == id && t in sys.st.queue && DistinctIds(sys.st.queue)
  {
    assert ThreadOk(sys, id);
  }

  lemma OwnerKnowsLease(sys: Sys, a: Active, lt: LeaseType)
    requires Ownership(sys) && a in ActivesOf(sys.st, lt)
    ensures HeldBy(sys, a, lt) && DistinctActives(ActivesOf(sys.st, lt))
  {}

  /** What a grant does besides moving the ticket. */
  lemma GrantBroadcasts(sys: Sys, id: nat, now: int, at: int)
    requires Ownership(sys) && Conservation(sys.st) && RefusalsStand(sys) && IsSleeping(sys, id)
    requires sys.clock <= now <= at && CanEnter(SchedOf(sys.st), sys.threads[id].ticket, now)
    ensures Conservation(Evaluate(sys, id, now, at).st) && RefusalsStand(Evaluate(sys, id, now, at))
  {
    hide Ownership, RefusalsStand, CanEnter, NewActive, ActivesOf, RemoveTicket, Enter, WellFormed;
    var t := sys.threads[id].ticket;
    SleeperIsQueued(sys, id);
    EnterEffect(sys.st, t, at);
    RemoveTicketMembers(sys.st.queue, t);
    BroadcastWakesAll(sys, Evaluate(sys, id, now, at));
  }

  lemma GrantKeepsInv(sys: Sys, id: nat, now: int, at: int)
    requires Inv(sys) && IsSleeping(sys, id) && sys.clock <= now <= at
    requires CanEnter(SchedOf(sys.st), sys.threads[id].ticket, now)
    ensures Inv(Evaluate(sys, id, now, at))
  {
    hide Ownership, Exclusion, Isolation, Conservation, RefusalsStand, CanEnter, WellFormed, Enter;
    var t := sys.threads[id].ticket;
    SleeperIsQueued(sys, id);
    OneShotIsFree(sys.st, t, now);
    EnterExclusion(sys.st, t, now, at);
    EnterIsolation(sys.st, t, now, at);
    EnterOwnership(sys, id, at);
    GrantBroadcasts(sys, id, now, at);
  }

  lemma OneShotIsFree(s: State, t: Ticket, now: int)
    requires Exclusion(s) && WellFormed(t) && CanEnter(SchedOf(s), t, now)
    ensures PositiveLimits(s.opts) && (t.leaseType == OneShot ==> s.oneshot.None?)
  {}

  lemma RefusalKeepsInv(sys: Sys, id: nat, now: int, at: int)
    requires Inv(sys) && IsSleeping(sys, id) && sys.clock <= now <= at
    requires !CanEnter(SchedOf(sys.st), sys.threads[id].ticket, now)
    ensures Inv(Evaluate(sys, id, now, at))
  {
    SleepOwnership(sys, id, Sleeping(sys.st.epoch, now), at);
  }

  lemma EvaluateKeepsInv(sys: Sys, id: nat, now: int, at: int)
    requires Inv(sys) && IsSleeping(sys, id) && sys.clock <= now <= at
    ensures Inv(Evaluate(sys, id, now, at))
  {
    if CanEnter(SchedOf(sys.st), sys.threads[id].ticket, now) {
      GrantKeepsInv(sys, id, now, at);
    } else {
      RefusalKeepsInv(sys, id, now, at);
    }
  }

  lemma ContextDoneKeepsInv(sys: Sys, id: nat)
    requires Inv(sys) && IsSleeping(sys, id)
    ensures Inv(Apply(sys, ContextDone(id)))
  {
    hide Ownership, RefusalsStand, ActivesOf, RemoveTicket, TicketIndex, WellFormed;
    var next := GivenUp(sys, id);
    TimeoutOwnership(sys, id);
    assert Isolation(next.st) by {
      forall lt
        ensures ActivesOf(next.st, lt) == ActivesOf(sys.st, lt)
      {
        TimeoutHeld(sys, id, lt);
      }
    }
    assert Conservation(next.st) by {
      SleeperIsQueued(sys, id);
      RemoveTicketMembers(sys.st.queue, sys.threads[id].ticket);
    }
    BroadcastWakesAll(sys, next);
  }

  function Removed(s: State, id: nat, lt: LeaseType, forced: nat): State {
    Signal(RemoveActive(s, id, lt).(forcedReleases := forced))
  }

  lemma RemovalEffect(sys: Sys, a: Active, lt: LeaseType, forced: nat)
    requires Ownership(sys) && lt != Barrier && a in ActivesOf(sys.st, lt)
    ensures var s := Removed(sys.st, a.ticket.id, lt, forced);
            && LostOnly(sys, s, a, lt) && s.epoch == sys.st.epoch + 1
            && (Conservation(sys.st) ==> Conservation(s))
            && (Exclusion(sys.st) ==> Exclusion(s))
  {
    RemoveActiveEffect(sys.st, a, lt);
    var r := RemoveActive(sys.st, a.ticket.id, lt);
    forall k
      ensures ActivesOf(Removed(sys.st, a.ticket.id, lt, forced), k) == ActivesOf(r, k)
    {}
    if Exclusion(sys.st) {
      RemovalExclusion(sys.st, a, lt);
    }
  }

  /** Release and watchdog both take one known lease out and broadcast. */
  lemma RemovalKeepsInv(sys: Sys, a: Active, lt: LeaseType, forced: nat, clock: int)
    requires Inv(sys) && lt != Barrier && a in ActivesOf(sys.st, lt) && sys.clock <= clock
    ensures Inv(Sys(Removed(sys.st, a.ticket.id, lt, forced), sys.lastId,
                    SetPhase(sys.threads, a.ticket.id, Released), clock))
  {
    var s := Removed(sys.st, a.ticket.id, lt, forced);
    RemovalEffect(sys, a, lt, forced);
    LeaveOwnership(sys, s, a, lt, clock);
    RemovalIsolation(sys, s, a, lt);
    BroadcastWakesAll(sys, Sys(s, sys.lastId, SetPhase(sys.threads, a.ticket.id, Released), clock));
  }

  lemma ReleaseKeepsInv(sys: Sys, id: nat, lt: LeaseType)
    requires Inv(sys)
    ensures Inv(ReleaseStep(sys, id, lt))
  {
    if FindActive(sys.st, id, lt).Some? {
      FindActiveIsMember(sys.st, id, lt);
      RemovalKeepsInv(sys, FindActive(sys.st, id, lt).value, lt, sys.st.forcedReleases, sys.clock);
      assert Release(sys.st, id, lt) == Removed(sys.st, id, lt, sys.st.forcedReleases);
    }
  }

  lemma ExpiryRemoves(sys: Sys, id: nat, lt: LeaseType, now: int)
    requires FindActive(sys.st, id, lt).Some? && Expired(FindActive(sys.st, id, lt).value, now)
    ensures ExpireStep(sys, id, lt, now)
            == Sys(Removed(sys.st, id, lt, sys.st.forcedReleases + 1), sys.lastId,
                   SetPhase(sys.threads, id, Released), now)
  {}

  lemma ExpireKeepsInv(sys: Sys, id: nat, lt: LeaseType, now: int)
    requires Inv(sys) && sys.clock <= now
    ensures Inv(ExpireStep(sys, id, lt, now))
  {
    var a := FindActive(sys.st, id, lt);
    if a.Some? && Expired(a.value, now) {
      FindActiveIsMember(sys.st, id, lt);
      ExpiryRemoves(sys, id, lt, now);
      RemovalKeepsInv(sys, a.value, lt, sys.st.forcedReleases + 1, now);
    } else {
      TickKeepsInv(sys, now);
    }
  }

  lemma TickKeepsInv(sys: Sys, now: int)
    requires Inv(sys) && sys.clock <= now
    ensures Inv(sys.(clock := now))
  {
    var next := sys.(clock := now);
    forall k | k in next.threads
      ensures ThreadOk(next, k)
    {
      assert ThreadOk(sys, k);
    }
    forall u | u in next.st.queue
      ensures QueuedBy(next, u)
    {
      assert QueuedBy(sys, u);
    }
    forall lt, a | a in ActivesOf(next.st, lt)
      ensures HeldBy(next, a, lt)
    {
      assert HeldBy(sys, a, lt);
    }
    QuietSectionKeepsRefusals(sys, next);
  }

  lemma TouchKeepsInv(sys: Sys, id: nat, lt: LeaseType, now: int)
    requires Inv(sys) && sys.clock <= now
    ensures Inv(TouchStep(sys, id, lt, now))
  {
    if FindActive(sys.st, id, lt).Some? {
      FindActiveIsMember(sys.st, id, lt);
      LeaseTouchKeepsInv(sys, FindActive(sys.st, id, lt).value, lt, now);
    } else {
      TickKeepsInv(sys, now);
    }
  }

  lemma LeaseTouchKeepsInv(sys: Sys, a: Active, lt: LeaseType, now: int)
    requires Inv(sys) && sys.clock <= now && lt != Barrier && a in ActivesOf(sys.st, lt)
    ensures Inv(TouchStep(sys, a.ticket.id, lt, now))
  {
    hide Ownership, Isolation, RefusalsStand, FindActive, Touch, ActivesOf, TransportWindow, DistinctActives, SchedOf;
    OwnerKnowsLease(sys, a, lt);
    TouchOwnership(sys, a, lt, now);
    TouchEffect(sys.st, a, lt, now);
    RemoveActiveEffect(sys.st, a, lt);
    TouchKeepsSched(sys.st, a.ticket.id, lt, now);
    TouchKeepsExclusion(sys.st, a, lt, now);
    TouchKeepsIsolation(sys.st, a, lt, now);
    QuietSectionKeepsRefusals(sys, TouchStep(sys, a.ticket.id, lt, now));
  }

  lemma BarrierLeaveEffect(s: State, id: nat)
    requires ActiveIndex(s.barriers, id) < |s.barriers|
    ensures var r := ReleaseBarrier(s, id);
            && r.barriers == RemoveActiveSeq(s.barriers, id) && r.epoch == s.epoch + 1
            && (forall k :: k != Barrier ==> ActivesOf(r, k) == ActivesOf(s, k))
            && r.queue == s.queue && r.opts == s.opts
            && (Conservation(s) ==> Conservation(r)) && (Exclusion(s) ==> Exclusion(r))
  {}

  lemma LeaveKeepsInv(sys: Sys, id: nat)
    requires Inv(sys)
    ensures Inv(LeaveStep(sys, id))
  {
    hide Ownership, Exclusion, Isolation, Conservation, RefusalsStand, ReleaseBarrier, RemoveActiveSeq;
    var i := ActiveIndex(sys.st.barriers, id);
    if i < |sys.st.barriers| {
      var b := sys.st.barriers[i];
      BarrierLeaveEffect(sys.st, id);
      assert ActivesOf(sys.st, Barrier) == sys.st.barriers;
      LeaveOwnership(sys, ReleaseBarrier(sys.st, id), b, Barrier, sys.clock);
      RemovalIsolation(sys, ReleaseBarrier(sys.st, id), b, Barrier);
      BroadcastWakesAll(sys, LeaveStep(sys, id));
    }
  }

  lemma ArrivalKeepsInv(sys: Sys, step: Step)
    requires Inv(sys) && Enabled(sys, step) && step.Arrive?
    ensures Inv(Apply(sys, step))
  {
    InsertKeepsInv(sys, step.id);
    EvaluateKeepsInv(Insert(sys, step.id), step.id, step.now, step.at);
  }

  lemma PrepareLeaseKeepsInv(sys: Sys, req: Request, lt: LeaseType, enqueued: int)
    requires Inv(sys) && lt != Barrier
    ensures Inv(Apply(sys, PrepareLease(req, lt, enqueued)))
  {
    LeaseTicketWellFormed(sys.lastId + 1, req, lt, enqueued);
    PrepareKeepsInv(sys, LeaseTicket(sys.lastId + 1, req, lt, enqueued));
  }

  lemma PrepareBarrierKeepsInv(sys: Sys, req: Request, policy: seq<APDUClass>, enqueued: int)
    requires Inv(sys)
    ensures Inv(Apply(sys, PrepareBarrier(req, policy, enqueued)))
  {
    BarrierTicketWellFormed(sys.lastId + 1, req, policy, enqueued);
    PrepareKeepsInv(sys, BarrierTicket(sys.lastId + 1, req, policy, enqueued));
  }

  lemma StepKeepsInv(sys: Sys, step: Step)
    requires Inv(sys) && Enabled(sys, step)
    ensures Inv(Apply(sys, step))
  {
    match step
    case PrepareLease(req, lt, enqueued) => PrepareLeaseKeepsInv(sys, req, lt, enqueued);
    case PrepareBarrier(req, policy, enqueued) => PrepareBarrierKeepsInv(sys, req, policy, enqueued);
    case Arrive(_, _, _) => ArrivalKeepsInv(sys, step);
    case Wake(id, now, at) => EvaluateKeepsInv(sys, id, now, at);
    case ContextDone(id) => ContextDoneKeepsInv(sys, id);
    case ReleaseLease(id, lt) => ReleaseKeepsInv(sys, id, lt);
    case TimerFires(id, lt, now) => ExpireKeepsInv(sys, id, lt, now);
    case TouchLease(id, lt, now) => TouchKeepsInv(sys, id, lt, now);
    case LeaveBarrier(id) => LeaveKeepsInv(sys, id);
  }
}
