/** What the admission rules mean for a queue of tickets: who may pass whom, and
    when somebody can always be admitted. */
module Scheduling {
  import opened Common
  import opened ArbiterState

  predicate DistinctIds(q: seq<Ticket>) {
    && (forall i :: 0 <= i < |q| ==> q[i].id > 0)
    && (forall i, j :: 0 <= i < j < |q| ==> q[i].id != q[j].id)
  }

  predicate WellFormedQueue(q: seq<Ticket>) {
    DistinctIds(q) && forall i :: 0 <= i < |q| ==> WellFormed(q[i])
  }

  lemma OwnIndex(q: seq<Ticket>, i: nat)
    requires DistinctIds(q) && i < |q|
    ensures TicketIndex(q, q[i].id) == i
  {
    assert TicketIndex(q, q[i].id) <= i;
  }

  lemma SelectedMatches(v: Sched, now: int)
    ensures SelectedIndex(v, now).Some? ==> Eligible(v, SelectedIndex(v, now).value)
  {}

  /** Tickets are identified by id, so a transport that passes the id comparison
      is the one at the selected position. */
  lemma SelectedPosition(v: Sched, i: nat, now: int)
    requires DistinctIds(v.queue) && i < |v.queue|
    ensures SelectedTransport(v, now) == v.queue[i].id <==> SelectedIndex(v, now) == Some(i)
  {
    SelectedMatches(v, now);
    assert v.queue[i].id > 0;
  }

  lemma EligiblePrefix(v: Sched, i: nat)
    requires Eligible(v, i)
    ensures forall j :: 0 <= j < i ==> IsTransportWait(v.queue[j])
  {
    forall j | 0 <= j < i
      ensures IsTransportWait(v.queue[j])
    {
      assert Passes(v, v.queue[j]);
    }
  }

  /** No lease is ever admitted across a barrier queued ahead of it, whatever that
      barrier blocks; so the explicit pending-barrier check never decides anything. */
  lemma NoLeaseCrossesBarrier(v: Sched, i: nat, now: int)
    requires DistinctIds(v.queue) && i < |v.queue|
    requires v.queue[i].kind == LeaseWait && TypeAdmits(v, v.queue[i], now)
    ensures forall j :: 0 <= j < i ==> v.queue[j].kind == LeaseWait
    ensures !PendingBarrierAhead(v, v.queue[i])
  {
    OwnIndex(v.queue, i);
    if v.queue[i].leaseType == Transport {
      SelectedPosition(v, i, now);
      SelectedMatches(v, now);
      EligiblePrefix(v, i);
    }
  }

  lemma PendingBarrierCheckRedundant(v: Sched, i: nat, now: int)
    requires DistinctIds(v.queue) && i < |v.queue|
    ensures CanAcquireLease(v, v.queue[i], now)
       <==> v.queue[i].kind == LeaseWait && !BlockedByBarrier(v, v.queue[i].cls) && TypeAdmits(v, v.queue[i], now)
  {
    if v.queue[i].kind == LeaseWait && TypeAdmits(v, v.queue[i], now) {
      NoLeaseCrossesBarrier(v, i, now);
    }
  }

  /** Barriers enter in queue order. */
  lemma BarriersEnterInOrder(v: Sched, i: nat)
    requires DistinctIds(v.queue) && i < |v.queue|
    ensures CanAcquireBarrier(v, v.queue[i])
       <==> v.queue[i].kind == BarrierWait && NoLease(v) && forall j :: 0 <= j < i ==> v.queue[j].kind != BarrierWait
  {
    var b := FirstBarrier(v.queue);
    if b < |v.queue| && b != i {
      assert v.queue[b].id != v.queue[i].id;
    }
  }

  /** Where an admissible lease stands in the queue. */
  lemma AdmittedPosition(v: Sched, i: nat, now: int)
    requires DistinctIds(v.queue) && i < |v.queue| && CanAcquireLease(v, v.queue[i], now)
    ensures if v.queue[i].leaseType == Transport
            then SelectedIndex(v, now) == Some(i) && Eligible(v, i)
                 && forall j :: 0 <= j <= i ==> IsTransportWait(v.queue[j])
            else i == 0
  {
    if v.queue[i].leaseType == Transport {
      SelectedPosition(v, i, now);
      SelectedMatches(v, now);
      EligiblePrefix(v, i);
    } else {
      OwnIndex(v.queue, i);
    }
  }

  /** At any instant at most one queued lease can be admitted. */
  lemma AdmissionIsUnique(v: Sched, i: nat, j: nat, now: int)
    requires DistinctIds(v.queue) && i < |v.queue| && j < |v.queue|
    requires CanAcquireLease(v, v.queue[i], now) && CanAcquireLease(v, v.queue[j], now)
    ensures i == j
  {
    AdmittedPosition(v, i, now);
    AdmittedPosition(v, j, now);
  }

  /** The selection never lies behind an aged non-AKA ticket that could run. */
  lemma SelectionNotBehindAged(v: Sched, i: nat, now: int)
    requires Eligible(v, i) && v.queue[i].cls != USIMAKA && Aged(v.queue[i], now)
    ensures SelectedIndex(v, now).Some? && SelectedIndex(v, now).value <= i
  {
    assert Matches(v, now, AgedNonAKA, i);
  }

  /** Limited overtaking. A waiting transport that has aged and is not AKA, and whose
      class no active barrier blocks, can be passed only by a QMI-channel transport on
      another channel, and only while its own channel is held. */
  lemma LimitedOvertaking(v: Sched, i: nat, j: nat, now: int)
    requires DistinctIds(v.queue) && i < j < |v.queue|
    requires IsTransportWait(v.queue[i]) && !BlockedByBarrier(v, v.queue[i].cls)
    requires v.queue[i].cls != USIMAKA && Aged(v.queue[i], now)
    requires CanAcquireLease(v, v.queue[j], now)
    ensures v.queue[i].scope == QMIChannel && ChannelHeld(v, v.queue[i].channel)
    ensures IsTransportWait(v.queue[j]) && v.queue[j].scope == QMIChannel
    ensures v.queue[j].channel != v.queue[i].channel && !ChannelHeld(v, v.queue[j].channel)
    ensures !HasExclusive(v) && QMICount(v.transports) < v.opts.maxQMITransports
  {
    AdmittedPosition(v, j, now);
    assert Passes(v, v.queue[i]) && Reaches(v, i);
    if Eligible(v, i) {
      SelectionNotBehindAged(v, i, now);
    }
  }

  /** A waiting exclusive transport that no barrier blocks closes the queue behind it
      as long as any transport is active: neither transports, sessions nor oneshots
      pass it. */
  lemma ExclusiveClosesQueue(v: Sched, i: nat, j: nat, now: int)
    requires DistinctIds(v.queue) && i < j < |v.queue|
    requires IsTransportWait(v.queue[i]) && v.queue[i].scope != QMIChannel
    requires !BlockedByBarrier(v, v.queue[i].cls)
    requires |v.transports| > 0
    ensures !CanAcquireLease(v, v.queue[j], now)
  {
    OwnIndex(v.queue, j);
    assert !Passes(v, v.queue[i]);
    assert !Eligible(v, j);
    SelectedPosition(v, j, now);
    SelectedMatches(v, now);
  }

  // ------------------------------------------------------------ somebody can go

  /** Some queued ticket can be admitted right now. */
  predicate SomeoneCanEnter(v: Sched, now: int) {
    exists i :: 0 <= i < |v.queue| && CanEnter(v, v.queue[i], now)
  }

  /** With no lease active: the queue holds a barrier, or its head is a session or
      oneshot no barrier blocks, or the transports at its front include one that no
      barrier blocks. */
  predicate QueueHasCandidate(v: Sched) {
    || FirstBarrier(v.queue) < |v.queue|
    || (|v.queue| > 0 && !IsTransportWait(v.queue[0]) && !BlockedByBarrier(v, v.queue[0].cls))
    || exists i :: 0 <= i < |v.queue| && UnblockedInFront(v, i)
  }

  predicate UnblockedInFront(v: Sched, i: nat) {
    && i < |v.queue|
    && (forall j :: 0 <= j <= i ==> IsTransportWait(v.queue[j]))
    && !BlockedByBarrier(v, v.queue[i].cls)
  }

  predicate PositiveLimits(o: Options) {
    o.maxLeaseHold > 0 && o.maxSessions > 0 && o.maxQMITransports > 0
  }

  lemma AllFitWhenFree(v: Sched, t: Ticket)
    requires |v.transports| == 0 && PositiveLimits(v.opts) && t.leaseType == Transport
    ensures Fits(v, t)
  {}

  lemma FrontIsEligible(v: Sched, i: nat)
    requires |v.transports| == 0 && PositiveLimits(v.opts) && UnblockedInFront(v, i)
    ensures Eligible(v, i)
  {
    forall j | 0 <= j < i
      ensures Passes(v, v.queue[j])
    {
      AllFitWhenFree(v, v.queue[j]);
    }
    AllFitWhenFree(v, v.queue[i]);
  }

  lemma EligibleMeansSelection(v: Sched, i: nat, now: int)
    requires DistinctIds(v.queue) && NoLease(v) && Eligible(v, i)
    ensures SelectedIndex(v, now).Some?
    ensures CanAcquireLease(v, v.queue[SelectedIndex(v, now).value], now)
  {
    assert Matches(v, now, AnyEligible, i);
    var k := SelectedIndex(v, now).value;
    SelectedMatches(v, now);
    SelectedPosition(v, k, now);
    NoLeaseCrossesBarrier(v, k, now);
  }

  /** With no lease active, somebody can be admitted exactly when the queue has a
      candidate; the clock plays no part in it. */
  lemma CandidateIffSomeoneCanEnter(v: Sched, now: int)
    requires WellFormedQueue(v.queue) && PositiveLimits(v.opts) && NoLease(v)
    ensures SomeoneCanEnter(v, now) <==> QueueHasCandidate(v)
  {
    if QueueHasCandidate(v) {
      CandidateCanEnter(v, now);
    }
    if SomeoneCanEnter(v, now) {
      var i :| 0 <= i < |v.queue| && CanEnter(v, v.queue[i], now);
      EntrantIsCandidate(v, i, now);
    }
  }

  lemma CandidateCanEnter(v: Sched, now: int)
    requires WellFormedQueue(v.queue) && PositiveLimits(v.opts) && NoLease(v) && QueueHasCandidate(v)
    ensures SomeoneCanEnter(v, now)
  {
    var b := FirstBarrier(v.queue);
    if b < |v.queue| {
      assert CanEnter(v, v.queue[b], now);
    } else if |v.queue| > 0 && !IsTransportWait(v.queue[0]) && !BlockedByBarrier(v, v.queue[0].cls) {
      assert WellFormed(v.queue[0]);
      NoLeaseCrossesBarrier(v, 0, now);
      assert CanEnter(v, v.queue[0], now);
    } else {
      var i :| 0 <= i < |v.queue| && UnblockedInFront(v, i);
      FrontIsEligible(v, i);
      EligibleMeansSelection(v, i, now);
      assert CanEnter(v, v.queue[SelectedIndex(v, now).value], now);
    }
  }

  lemma EntrantIsCandidate(v: Sched, i: nat, now: int)
    requires WellFormedQueue(v.queue) && NoLease(v) && i < |v.queue| && CanEnter(v, v.queue[i], now)
    ensures QueueHasCandidate(v)
  {
    assert WellFormed(v.queue[i]);
    if v.queue[i].kind == BarrierWait {
      assert FirstBarrier(v.queue) < |v.queue|;
    } else if v.queue[i].leaseType == Transport {
      SelectedPosition(v, i, now);
      SelectedMatches(v, now);
      EligiblePrefix(v, i);
      assert UnblockedInFront(v, i);
    } else {
      OwnIndex(v.queue, i);
    }
  }

  /** With neither lease nor barrier active, a non-empty queue always has somebody
      who can be admitted. */
  lemma NeverStuckWhenFree(v: Sched, now: int)
    requires WellFormedQueue(v.queue) && PositiveLimits(v.opts) && NoLease(v)
    requires |v.barriers| == 0 && |v.queue| > 0
    ensures SomeoneCanEnter(v, now)
  {
    if v.queue[0].kind == BarrierWait {
      assert FirstBarrier(v.queue) == 0;
    } else if IsTransportWait(v.queue[0]) {
      assert UnblockedInFront(v, 0);
    }
    CandidateIffSomeoneCanEnter(v, now);
  }

  // ------------------------------------------------- admission read off the state

  /** No active barrier blocks the class. */
  predicate Unblocked(v: Sched, c: APDUClass) {
    forall k :: 0 <= k < |v.barriers| ==> c !in v.barriers[k].blocked
  }

  /** Only QMI transports are active, and fewer than the window holds. */
  predicate WindowHasRoom(v: Sched) {
    && |v.transports| < v.opts.maxQMITransports
    && forall k :: 0 <= k < |v.transports| ==> v.transports[k].scope == QMIChannel
  }

  predicate ChannelFree(v: Sched, channel: int) {
    forall k :: 0 <= k < |v.transports| ==> v.transports[k].channel != channel
  }

  lemma {:induction false} CountsAllQMI(ts: seq<Ticket>)
    ensures QMICount(ts) == |ts| <==> forall k :: 0 <= k < |ts| ==> ts[k].scope == QMIChannel
  {
    if |ts| > 0 {
      CountsAllQMI(ts[..|ts| - 1]);
      assert forall k :: 0 <= k < |ts| - 1 ==> ts[..|ts| - 1][k] == ts[k];
    }
  }

  /** What a transport needs: none active if it is exclusive; if it is QMI-scoped, room in
      the window and its channel. */
  lemma FitsExactly(v: Sched, t: Ticket)
    requires t.leaseType == Transport
    ensures Fits(v, t) <==> if t.scope == QMIChannel then WindowHasRoom(v) && ChannelFree(v, t.channel)
                            else |v.transports| == 0
  {
    CountsAllQMI(v.transports);
  }

  /** A waiting transport holds up those behind it unless it is QMI-scoped and the window has
      room. */
  lemma GatesExactly(v: Sched, t: Ticket)
    requires t.leaseType == Transport
    ensures Gates(v, t) <==> !(t.scope == QMIChannel && WindowHasRoom(v))
  {
    CountsAllQMI(v.transports);
  }

  /** The transport at `i` can run: behind transports alone, unblocked, and with what it
      needs. While others are active, those in front of it that a barrier does not block
      have to be QMI-scoped. */
  predicate Runnable(v: Sched, i: nat) {
    && UnblockedTransports(v, i)
    && (|v.transports| > 0 ==>
          && WindowHasRoom(v) && ChannelFree(v, v.queue[i].channel)
          && forall j :: 0 <= j <= i ==> v.queue[j].scope == QMIChannel || !Unblocked(v, v.queue[j].cls))
  }

  predicate UnblockedTransports(v: Sched, i: nat) {
    && i < |v.queue|
    && (forall j :: 0 <= j <= i ==> IsTransportWait(v.queue[j]))
    && Unblocked(v, v.queue[i].cls)
  }

  lemma EligibleExactly(v: Sched, i: nat)
    requires PositiveLimits(v.opts)
    ensures Eligible(v, i) <==> Runnable(v, i)
  {
    if i < |v.queue| {
      forall j | 0 <= j <= i && IsTransportWait(v.queue[j])
        ensures |v.transports| == 0 ==> Passes(v, v.queue[j])
        ensures |v.transports| > 0 && WindowHasRoom(v) ==>
                  (Passes(v, v.queue[j]) <==> v.queue[j].scope == QMIChannel || !Unblocked(v, v.queue[j].cls))
      {
        PassesExactly(v, v.queue[j]);
      }
      if IsTransportWait(v.queue[i]) {
        FitsExactly(v, v.queue[i]);
      }
    }
  }

  lemma PassesExactly(v: Sched, t: Ticket)
    requires PositiveLimits(v.opts) && IsTransportWait(t)
    ensures |v.transports| == 0 ==> Passes(v, t)
    ensures |v.transports| > 0 && WindowHasRoom(v) ==> (Passes(v, t) <==> t.scope == QMIChannel || !Unblocked(v, t.cls))
  {
    FitsExactly(v, t);
    GatesExactly(v, t);
  }

  /** The order of preference: aged ordinary transports, then AKA, then the rest. */
  function Class(t: Ticket, now: int): nat {
    if t.cls == USIMAKA then 1 else if now - t.enqueued >= TRANSPORT_PRIORITY_AGING then 0 else 2
  }

  predicate Before(v: Sched, now: int, i: nat, j: nat)
    requires i < |v.queue| && j < |v.queue|
  {
    Class(v.queue[i], now) < Class(v.queue[j], now) || (Class(v.queue[i], now) == Class(v.queue[j], now) && i < j)
  }

  lemma SelectedBeats(v: Sched, now: int, k: nat, j: nat)
    requires SelectedIndex(v, now) == Some(k) && Eligible(v, j) && j != k
    ensures Eligible(v, k) && Before(v, now, k, j)
  {
    assert Matches(v, now, AnyEligible, j);
    if Class(v.queue[j], now) == 0 {
      assert Matches(v, now, AgedNonAKA, j);
    } else if Class(v.queue[j], now) == 1 {
      assert Matches(v, now, AnyAKA, j);
    }
  }

  /** The selection is the best of the runnable transports: preference first, then place. */
  lemma SelectionIsBest(v: Sched, now: int, i: nat)
    requires PositiveLimits(v.opts) && i < |v.queue|
    ensures SelectedIndex(v, now) == Some(i)
       <==> Runnable(v, i) && forall j: nat :: Runnable(v, j) && j != i ==> Before(v, now, i, j)
  {
    EligibleExactly(v, i);
    if SelectedIndex(v, now) == Some(i) {
      SelectedMatches(v, now);
      forall j: nat | Runnable(v, j) && j != i
        ensures Before(v, now, i, j)
      {
        EligibleExactly(v, j);
        SelectedBeats(v, now, i, j);
      }
    } else if Runnable(v, i) {
      assert Matches(v, now, AnyEligible, i);
      var k := SelectedIndex(v, now).value;
      SelectedBeats(v, now, k, i);
      EligibleExactly(v, k);
      assert !Before(v, now, i, k);
    }
  }

  /** The verdict on each kind of lease, read off queue and holders: a session or a oneshot
      from the head of the queue; a transport when it is the best of those that can run. */
  lemma LeaseEntersExactly(v: Sched, i: nat, now: int)
    requires WellFormedQueue(v.queue) && PositiveLimits(v.opts) && i < |v.queue| && v.queue[i].kind == LeaseWait
    ensures CanAcquireLease(v, v.queue[i], now) <==> LeaseMayEnter(v, i, now)
  {
    OwnIndex(v.queue, i);
    PendingBarrierCheckRedundant(v, i, now);
    assert WellFormed(v.queue[i]);
    if v.queue[i].leaseType == Transport {
      SelectedPosition(v, i, now);
      SelectionIsBest(v, now, i);
    }
  }

  predicate LeaseMayEnter(v: Sched, i: nat, now: int)
    requires i < |v.queue|
  {
    match v.queue[i].leaseType
    case Session =>
      i == 0 && Unblocked(v, v.queue[i].cls) && !v.oneshot && |v.transports| == 0 && v.sessions < v.opts.maxSessions
    case OneShot =>
      i == 0 && Unblocked(v, v.queue[i].cls) && !v.oneshot && |v.transports| == 0 && v.sessions == 0
    case Transport =>
      && v.sessions == 0 && !v.oneshot && Runnable(v, i)
      && forall j: nat :: j < |v.queue| && Runnable(v, j) && j != i ==> Before(v, now, i, j)
    case Barrier => false
  }

  lemma {:induction false} BestExists(v: Sched, now: int, i: nat)
    requires PositiveLimits(v.opts) && Runnable(v, i)
    ensures SelectedIndex(v, now).Some? && Runnable(v, SelectedIndex(v, now).value)
  {
    EligibleExactly(v, i);
    assert Matches(v, now, AnyEligible, i);
    SelectedMatches(v, now);
    EligibleExactly(v, SelectedIndex(v, now).value);
  }

  /** What is free is used. With any number of transports active and neither session nor
      oneshot, somebody can enter if and only if some queued transport can run. */
  lemma WindowIsUsed(v: Sched, now: int)
    requires WellFormedQueue(v.queue) && PositiveLimits(v.opts)
    requires v.sessions == 0 && !v.oneshot && |v.transports| > 0
    ensures SomeoneCanEnter(v, now) <==> exists i :: 0 <= i < |v.queue| && Runnable(v, i)
  {
    if i :| 0 <= i < |v.queue| && Runnable(v, i) {
      BestExists(v, now, i);
      var k := SelectedIndex(v, now).value;
      SelectedPosition(v, k, now);
      NoLeaseCrossesBarrier(v, k, now);
      assert CanEnter(v, v.queue[k], now);
    }
    if i :| 0 <= i < |v.queue| && CanEnter(v, v.queue[i], now) {
      assert WellFormed(v.queue[i]);
      LeaseEntersExactly(v, i, now);
    }
  }

  /** In particular a QMI transport at the head of the queue, of a class no barrier blocks
      and on a free channel, means that somebody enters while the window has room. */
  lemma HeadTransportIsServed(v: Sched, now: int)
    requires WellFormedQueue(v.queue) && PositiveLimits(v.opts) && v.sessions == 0 && !v.oneshot
    requires |v.queue| > 0 && v.queue[0].kind == LeaseWait && v.queue[0].leaseType == Transport
    requires v.queue[0].scope == QMIChannel
    requires forall k :: 0 <= k < |v.barriers| ==> v.queue[0].cls !in v.barriers[k].blocked
    requires |v.transports| < v.opts.maxQMITransports
    requires forall k :: 0 <= k < |v.transports| ==>
                           v.transports[k].scope == QMIChannel && v.transports[k].channel != v.queue[0].channel
    ensures SomeoneCanEnter(v, now)
  {
    assert Runnable(v, 0);
    if |v.transports| > 0 {
      WindowIsUsed(v, now);
    } else {
      assert UnblockedInFront(v, 0);
      CandidateIffSomeoneCanEnter(v, now);
    }
  }

  /** And sessions share: with only sessions active, somebody can enter if and only if the
      head of the queue is an unblocked session and fewer than the limit are active. */
  lemma SessionsShareExactly(v: Sched, now: int)
    requires WellFormedQueue(v.queue) && PositiveLimits(v.opts) && v.sessions > 0
    ensures SomeoneCanEnter(v, now)
       <==> && |v.queue| > 0 && v.queue[0].kind == LeaseWait && v.queue[0].leaseType == Session
            && Unblocked(v, v.queue[0].cls)
            && !v.oneshot && |v.transports| == 0 && v.sessions < v.opts.maxSessions
  {
    if |v.queue| > 0 && v.queue[0].kind == LeaseWait {
      LeaseEntersExactly(v, 0, now);
      assert CanEnter(v, v.queue[0], now) == CanAcquireLease(v, v.queue[0], now);
    }
    if i :| 0 <= i < |v.queue| && CanEnter(v, v.queue[i], now) {
      assert WellFormed(v.queue[i]);
      LeaseEntersExactly(v, i, now);
    }
  }

  /** A oneshot has the arbiter for itself. */
  lemma OneshotKeepsAllOut(v: Sched, now: int)
    requires v.oneshot
    ensures !SomeoneCanEnter(v, now)
  {}

  /** An AKA transport that can run goes before every ordinary one that has not aged. */
  lemma AKAGoesBeforeFresh(v: Sched, i: nat, j: nat, now: int)
    requires WellFormedQueue(v.queue) && PositiveLimits(v.opts) && i < |v.queue| && j < |v.queue|
    requires Runnable(v, i) && v.queue[i].cls == USIMAKA
    requires v.queue[j].kind == LeaseWait && v.queue[j].leaseType == Transport
    requires v.queue[j].cls != USIMAKA && now - v.queue[j].enqueued < TRANSPORT_PRIORITY_AGING
    ensures !CanAcquireLease(v, v.queue[j], now)
  {
    LeaseEntersExactly(v, j, now);
  }
}
