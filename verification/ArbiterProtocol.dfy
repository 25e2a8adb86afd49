/** The arbiter under concurrent callers: a step per lock-protected section, taken in
    any order by any number of threads, with timers and handles that may fire late,
    twice or with a stale id. The invariants here hold in every reachable state. */
module ArbiterProtocol {
  import opened Common
  import opened ArbiterState
  import opened Scheduling

  /** Where the caller that owns a ticket stands.
      `heard` is the epoch of the channel it sleeps on and `evaluatedAt` the clock of
      its last verdict; `progressAt` is the last acquire or touch of its lease. */
  datatype Phase =
    | Prepared
    | Sleeping(heard: nat, evaluatedAt: int)
    | Holding(lease: Active, progressAt: int)
    | Released
    | TimedOut

  datatype Thread = Thread(ticket: Ticket, phase: Phase)

  datatype Sys = Sys(st: State, lastId: nat, threads: map<nat, Thread>, clock: int)

  datatype Step =
    | PrepareLease(req: Request, lt: LeaseType, enqueued: int)
    | PrepareBarrier(req: Request, policy: seq<APDUClass>, enqueued: int)
    | Arrive(id: nat, now: int, at: int)
    | Wake(id: nat, now: int, at: int)
    | ContextDone(id: nat)
    | ReleaseLease(id: nat, lt: LeaseType)
    | TimerFires(id: nat, lt: LeaseType, now: int)
    | TouchLease(id: nat, lt: LeaseType, now: int)
    | LeaveBarrier(id: nat)

  function Start(o: Options, clock: int): Sys {
    Sys(Init(o), 0, map[], clock)
  }

  function SetPhase(m: map<nat, Thread>, id: nat, p: Phase): map<nat, Thread> {
    if id in m then m[id := m[id].(phase := p)] else m
  }

  function Prepare(sys: Sys, t: Ticket): Sys {
    sys.(lastId := t.id, threads := sys.threads[t.id := Thread(t, Prepared)])
  }

  /** Append the ticket and broadcast; the caller is about to evaluate, so it counts
      as asleep on the channel that was just closed. */
  function Insert(sys: Sys, id: nat): Sys
    requires id in sys.threads
  {
    sys.(st := Enqueue(sys.st, sys.threads[id].ticket),
         threads := SetPhase(sys.threads, id, Sleeping(sys.st.epoch, sys.clock)))
  }

  /** One turn of the retry loop: enter at `at`, or sleep on the current channel. */
  function Evaluate(sys: Sys, id: nat, now: int, at: int): Sys
    requires id in sys.threads
  {
    var t := sys.threads[id].ticket;
    if CanEnter(SchedOf(sys.st), t, now) then
      sys.(st := Enter(sys.st, t, at), clock := at,
           threads := SetPhase(sys.threads, id, Holding(NewActive(sys.st, t, at), at)))
    else
      sys.(clock := at, threads := SetPhase(sys.threads, id, Sleeping(sys.st.epoch, now)))
  }

  predicate IsSleeping(sys: Sys, id: nat) {
    id in sys.threads && sys.threads[id].phase.Sleeping?
  }

  predicate Enabled(sys: Sys, step: Step) {
    match step
    case PrepareLease(_, lt, _) => lt != Barrier
    case PrepareBarrier(_, _, _) => true
    case Arrive(id, now, at) => id in sys.threads && sys.threads[id].phase == Prepared && sys.clock <= now <= at
    case Wake(id, now, at) =>
      IsSleeping(sys, id) && sys.threads[id].phase.heard != sys.st.epoch && sys.clock <= now <= at
    case ContextDone(id) => IsSleeping(sys, id)
    case ReleaseLease(_, _) => true
    case TimerFires(_, _, now) => sys.clock <= now
    case TouchLease(_, _, now) => sys.clock <= now
    case LeaveBarrier(_) => true
  }

  function Apply(sys: Sys, step: Step): Sys
    requires Enabled(sys, step)
  {
    match step
    case PrepareLease(req, lt, enqueued) => Prepare(sys, LeaseTicket(sys.lastId + 1, req, lt, enqueued))
    case PrepareBarrier(req, policy, enqueued) => Prepare(sys, BarrierTicket(sys.lastId + 1, req, policy, enqueued))
    case Arrive(id, now, at) => Evaluate(Insert(sys, id), id, now, at)
    case Wake(id, now, at) => Evaluate(sys, id, now, at)
    case ContextDone(id) => sys.(st := GiveUp(sys.st, id), threads := SetPhase(sys.threads, id, TimedOut))
    case ReleaseLease(id, lt) => ReleaseStep(sys, id, lt)
    case TimerFires(id, lt, now) => ExpireStep(sys, id, lt, now)
    case TouchLease(id, lt, now) => TouchStep(sys, id, lt, now)
    case LeaveBarrier(id) => LeaveStep(sys, id)
  }

  function ReleaseStep(sys: Sys, id: nat, lt: LeaseType): Sys {
    if FindActive(sys.st, id, lt).None? then sys
    else sys.(st := Release(sys.st, id, lt), threads := SetPhase(sys.threads, id, Released))
  }

  function ExpireStep(sys: Sys, id: nat, lt: LeaseType, now: int): Sys {
    var a := FindActive(sys.st, id, lt);
    var ticking := sys.(clock := now);
    if a.None? || !Expired(a.value, now) then ticking
    else ticking.(st := ReleaseExpired(sys.st, id, lt, now), threads := SetPhase(sys.threads, id, Released))
  }

  function TouchStep(sys: Sys, id: nat, lt: LeaseType, now: int): Sys {
    var a := FindActive(sys.st, id, lt);
    var ticking := sys.(clock := now);
    if a.None? || sys.st.opts.maxLeaseHold <= 0 then ticking
    else
      ticking.(st := Touch(sys.st, id, lt, now),
               threads := SetPhase(sys.threads, id,
                            Holding(a.value.(expiresAt := Some(now + sys.st.opts.maxLeaseHold)), now)))
  }

  function LeaveStep(sys: Sys, id: nat): Sys {
    if ActiveIndex(sys.st.barriers, id) == |sys.st.barriers| then sys
    else sys.(st := ReleaseBarrier(sys.st, id), threads := SetPhase(sys.threads, id, Released))
  }

  // -------------------------------------------------------------- invariants

  function ActivesOf(s: State, lt: LeaseType): seq<Active> {
    match lt
    case Session => s.sessions
    case OneShot => if s.oneshot.Some? then [s.oneshot.value] else []
    case Transport => s.transports
    case Barrier => s.barriers
  }

  ghost predicate DistinctActives(xs: seq<Active>) {
    forall i, j :: 0 <= i < j < |xs| ==> xs[i].ticket.id != xs[j].ticket.id
  }

  /** The lease's owner knows it, and its deadline is `maxLeaseHold` after the last
      acquire or touch; barriers have none. */
  ghost predicate HeldBy(sys: Sys, a: Active, lt: LeaseType) {
    && a.ticket.leaseType == lt
    && a.ticket.id in sys.threads
    && sys.threads[a.ticket.id].ticket == a.ticket
    && sys.threads[a.ticket.id].phase.Holding?
    && sys.threads[a.ticket.id].phase.lease == a
    && a.expiresAt == if lt == Barrier then None
                      else Some(sys.threads[a.ticket.id].phase.progressAt + sys.st.opts.maxLeaseHold)
  }

  ghost predicate QueuedBy(sys: Sys, t: Ticket) {
    t.id in sys.threads && sys.threads[t.id].ticket == t && sys.threads[t.id].phase.Sleeping?
  }

  ghost predicate ThreadOk(sys: Sys, id: nat)
    requires id in sys.threads
  {
    var t := sys.threads[id].ticket;
    && 0 < id <= sys.lastId
    && t.id == id && WellFormed(t)
    && (sys.threads[id].phase.Sleeping? ==> t in sys.st.queue)
    && (sys.threads[id].phase.Holding? ==>
          sys.threads[id].phase.lease.ticket == t && sys.threads[id].phase.lease in ActivesOf(sys.st, t.leaseType))
  }

  /** Every id is in exactly the place its owner's phase says, and nowhere else. */
  ghost predicate Ownership(sys: Sys) {
    && DistinctIds(sys.st.queue)
    && (forall lt :: DistinctActives(ActivesOf(sys.st, lt)))
    && (forall id :: id in sys.threads ==> ThreadOk(sys, id))
    && (forall t :: t in sys.st.queue ==> QueuedBy(sys, t))
    && (forall lt, a :: a in ActivesOf(sys.st, lt) ==> HeldBy(sys, a, lt))
  }

  /** One exclusive transport, or QMI transports on distinct channels within the window. */
  ghost predicate TransportWindow(s: State) {
    var ts := s.transports;
    || (|ts| == 1 && ts[0].ticket.scope != QMIChannel)
    || (&& |ts| <= s.opts.maxQMITransports
        && (forall i :: 0 <= i < |ts| ==> ts[i].ticket.scope == QMIChannel && ts[i].ticket.channel > 0)
        && (forall i, j :: 0 <= i < j < |ts| ==> ts[i].ticket.channel != ts[j].ticket.channel))
  }

  ghost predicate Exclusion(s: State) {
    && PositiveLimits(s.opts)
    && (s.sessions != [] ==> s.oneshot.None? && s.transports == [])
    && (s.oneshot.Some? ==> s.transports == [])
    && |s.sessions| <= s.opts.maxSessions
    && TransportWindow(s)
  }

  ghost predicate Isolation(s: State) {
    forall lt, a, b :: lt != Barrier && a in ActivesOf(s, lt) && b in s.barriers ==> a.ticket.cls !in b.ticket.blocked
  }

  ghost predicate Conservation(s: State) {
    s.waitRequests == s.acquires + s.waitTimeouts + |s.queue|
  }

  /** Who sleeps on the current channel was refused by the state as it is now. */
  ghost predicate RefusalsStand(sys: Sys) {
    forall id :: IsSleeping(sys, id) ==>
      && sys.threads[id].phase.heard <= sys.st.epoch
      && sys.threads[id].phase.evaluatedAt <= sys.clock
      && (sys.threads[id].phase.heard == sys.st.epoch ==>
            !CanEnter(SchedOf(sys.st), sys.threads[id].ticket, sys.threads[id].phase.evaluatedAt))
  }

  ghost predicate Inv(sys: Sys) {
    Ownership(sys) && Exclusion(sys.st) && Isolation(sys.st) && Conservation(sys.st) && RefusalsStand(sys)
  }

  // ------------------------------------------------------ sequence bookkeeping

  lemma RemoveAtMembers<T>(xs: seq<T>, i: nat)
    requires i < |xs|
    requires forall j :: 0 <= j < |xs| && j != i ==> xs[j] != xs[i]
    ensures forall x :: x in RemoveAt(xs, i) <==> x in xs && x != xs[i]
    ensures |RemoveAt(xs, i)| == |xs| - 1
  {
    var r := RemoveAt(xs, i);
    forall x | x in xs && x != xs[i]
      ensures x in r
    {
      var j :| 0 <= j < |xs| && xs[j] == x;
      assert if j < i then r[j] == x else r[j - 1] == x;
    }
    forall x | x in r
      ensures x in xs && x != xs[i]
    {
      var j :| 0 <= j < |r| && r[j] == x;
      assert x == if j < i then xs[j] else xs[j + 1];
    }
  }

  lemma RemoveAtKeepsIds(q: seq<Ticket>, i: nat)
    requires DistinctIds(q) && i < |q|
    ensures DistinctIds(RemoveAt(q, i))
  {
    var r := RemoveAt(q, i);
    assert forall j :: 0 <= j < |r| ==> r[j] == if j < i then q[j] else q[j + 1];
  }

  lemma RemoveTicketMembers(q: seq<Ticket>, t: Ticket)
    requires DistinctIds(q) && t in q
    ensures DistinctIds(RemoveTicket(q, t.id))
    ensures forall u :: u in RemoveTicket(q, t.id) <==> u in q && u.id != t.id
    ensures |RemoveTicket(q, t.id)| == |q| - 1
    ensures TicketIndex(q, t.id) < |q|
  {
    hide RemoveAt, TicketIndex;
    var k :| 0 <= k < |q| && q[k] == t;
    OwnIndex(q, k);
    RemoveAtMembers(q, k);
    RemoveAtKeepsIds(q, k);
    forall u
      ensures u in q && u.id == t.id ==> u == t
    {
      if u in q && u.id == t.id {
        var j :| 0 <= j < |q| && q[j] == u;
      }
    }
  }

  lemma ActiveIndexOf(xs: seq<Active>, a: Active)
    requires DistinctActives(xs) && a in xs
    ensures ActiveIndex(xs, a.ticket.id) < |xs| && xs[ActiveIndex(xs, a.ticket.id)] == a
  {
    var k :| 0 <= k < |xs| && xs[k] == a;
    assert ActiveIndex(xs, a.ticket.id) <= k;
  }

  lemma RemoveActiveMembers(xs: seq<Active>, a: Active)
    requires DistinctActives(xs) && a in xs
    ensures DistinctActives(RemoveActiveSeq(xs, a.ticket.id))
    ensures forall b :: b in RemoveActiveSeq(xs, a.ticket.id) <==> b in xs && b.ticket.id != a.ticket.id
    ensures |RemoveActiveSeq(xs, a.ticket.id)| == |xs| - 1
  {
    ActiveIndexOf(xs, a);
    RemoveAtMembers(xs, ActiveIndex(xs, a.ticket.id));
  }

  lemma ExtendMembers(xs: seq<Active>, a: Active, until: int)
    requires DistinctActives(xs) && a in xs
    ensures var ys := ExtendSeq(xs, a.ticket.id, until);
            && DistinctActives(ys) && Tickets(ys) == Tickets(xs)
            && forall b :: b in ys <==> b == a.(expiresAt := Some(until)) || (b in xs && b.ticket.id != a.ticket.id)
  {
    ActiveIndexOf(xs, a);
    var i := ActiveIndex(xs, a.ticket.id);
    var e := a.(expiresAt := Some(until));
    var ys := ExtendSeq(xs, a.ticket.id, until);
    assert ys == xs[i := e];
    assert ys[i] == e;
    forall b | b in xs && b.ticket.id != a.ticket.id
      ensures b in ys
    {
      var j :| 0 <= j < |xs| && xs[j] == b;
      assert ys[j] == b;
    }
    assert Tickets(ys) == Tickets(xs);
  }

  // ------------------------------------------------ what the sections do to leases

  /** The lease sets after taking `id` out of the set of its type. */
  lemma RemoveActiveEffect(s: State, a: Active, lt: LeaseType)
    requires lt != Barrier && DistinctActives(ActivesOf(s, lt)) && a in ActivesOf(s, lt)
    ensures FindActive(s, a.ticket.id, lt) == Some(a)
    ensures var r := RemoveActive(s, a.ticket.id, lt);
            && ActivesOf(r, lt) == RemoveActiveSeq(ActivesOf(s, lt), a.ticket.id)
            && (forall k :: k != lt ==> ActivesOf(r, k) == ActivesOf(s, k))
            && r.queue == s.queue && r.opts == s.opts && r.epoch == s.epoch
            && r.barriers == s.barriers
            && r.waitRequests == s.waitRequests && r.acquires == s.acquires && r.waitTimeouts == s.waitTimeouts
  {
    ActiveIndexOf(ActivesOf(s, lt), a);
  }

  lemma FindActiveIsMember(s: State, id: nat, lt: LeaseType)
    requires FindActive(s, id, lt).Some?
    ensures lt != Barrier && FindActive(s, id, lt).value in ActivesOf(s, lt)
    ensures FindActive(s, id, lt).value.ticket.id == id
  {}

  /** The lease sets after admitting a ticket. */
  lemma EnterEffect(s: State, t: Ticket, at: int)
    requires WellFormed(t)
    ensures var r := Enter(s, t, at); var a := NewActive(s, t, at);
            && (forall lt :: lt != t.leaseType ==> ActivesOf(r, lt) == ActivesOf(s, lt))
            && (t.leaseType != OneShot ==> ActivesOf(r, t.leaseType) == ActivesOf(s, t.leaseType) + [a])
            && (t.leaseType == OneShot ==> ActivesOf(r, OneShot) == [a])
            && r.queue == RemoveTicket(s.queue, t.id) && r.opts == s.opts && r.epoch == s.epoch + 1
            && r.waitRequests == s.waitRequests && r.acquires == s.acquires + 1 && r.waitTimeouts == s.waitTimeouts
  {}

  lemma TouchEffect(s: State, a: Active, lt: LeaseType, now: int)
    requires lt != Barrier && DistinctActives(ActivesOf(s, lt)) && a in ActivesOf(s, lt) && s.opts.maxLeaseHold > 0
    ensures var r := Touch(s, a.ticket.id, lt, now);
            && ActivesOf(r, lt) == ExtendSeq(ActivesOf(s, lt), a.ticket.id, now + s.opts.maxLeaseHold)
            && (forall k :: k != lt ==> ActivesOf(r, k) == ActivesOf(s, k))
            && r.queue == s.queue && r.opts == s.opts && r.epoch == s.epoch && r.barriers == s.barriers
            && r.waitRequests == s.waitRequests && r.acquires == s.acquires && r.waitTimeouts == s.waitTimeouts
  {
    RemoveActiveEffect(s, a, lt);
  }

  /** Touching a lease changes nothing an admission verdict looks at. */
  lemma TouchKeepsSched(s: State, id: nat, lt: LeaseType, now: int)
    ensures SchedOf(Touch(s, id, lt, now)) == SchedOf(s)
    ensures Touch(s, id, lt, now).epoch == s.epoch
  {
    if s.opts.maxLeaseHold > 0 && FindActive(s, id, lt).Some? && lt == Transport {
      assert Tickets(Touch(s, id, lt, now).transports) == Tickets(s.transports);
    }
  }
}
