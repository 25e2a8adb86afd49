/** The arbiter with its real fields and scanning loops. Every method is proved to
    compute the value-level function of the same name in `ArbiterState`. */
module Arbiter {
  import opened Common
  import S = ArbiterState
  import Q = Scheduling

  /** The broadcast channel waiters sleep on. */
  class NotifyChannel {
    var closed: bool

    constructor ()
      ensures !closed
    {
      closed := false;
    }
  }

  class Arbiter {
    const opts: S.Options
    var queue: seq<S.Ticket>
    var activeSessions: seq<S.Active>
    var activeOneshot: Option<S.Active>
    var activeTransports: seq<S.Active>
    var activeBarriers: seq<S.Active>
    var notifyC: NotifyChannel
    ghost var epoch: nat
    /** The armed watchdog timers, which the source keeps in the lease objects. */
    var armed: S.Timers
    var waitRequests: nat
    var acquires: nat
    var waitTimeouts: nat
    var forcedReleases: nat

    ghost predicate Valid()
      reads this, notifyC
    {
      !notifyC.closed
    }

    ghost function View(): S.State
      reads this
    {
      S.State(opts, queue, activeSessions, activeOneshot, activeTransports, activeBarriers, epoch,
              waitRequests, acquires, waitTimeouts, forcedReleases)
    }

    ghost function Sched(): S.Sched
      reads this
    {
      S.SchedOf(View())
    }

    constructor (o: S.Options)
      ensures Valid() && fresh(notifyC)
      ensures View() == S.Init(o) && armed == map[]
    {
      opts := S.NormalizeOptions(o);
      queue, activeSessions, activeOneshot, activeTransports, activeBarriers := [], [], None, [], [];
      waitRequests, acquires, waitTimeouts, forcedReleases := 0, 0, 0, 0;
      epoch, armed := 0, map[];
      notifyC := new NotifyChannel();
    }

    // ------------------------------------------------------------ read-only scans

    method IsBlockedByActiveBarrier(cls: S.APDUClass) returns (b: bool)
      ensures b == S.BlockedByBarrier(Sched(), cls)
    {
      ghost var v := Sched();
      for i := 0 to |activeBarriers|
        invariant forall k :: 0 <= k < i ==> cls !in v.barriers[k].blocked
      {
        if cls in activeBarriers[i].ticket.blocked {
          assert cls in v.barriers[i].blocked;
          return true;
        }
      }
      return false;
    }

    method HasActiveExclusiveTransport() returns (b: bool)
      ensures b == S.HasExclusive(Sched())
    {
      ghost var v := Sched();
      for i := 0 to |activeTransports|
        invariant forall k :: 0 <= k < i ==> v.transports[k].scope == S.QMIChannel
      {
        if activeTransports[i].ticket.scope != S.QMIChannel {
          assert v.transports[i].scope != S.QMIChannel;
          return true;
        }
      }
      return false;
    }

    method ActiveQMITransportCount() returns (count: nat)
      ensures count == S.QMICount(Sched().transports)
    {
      ghost var ts := Sched().transports;
      count := 0;
      for i := 0 to |activeTransports|
        invariant count == S.QMICount(ts[..i])
      {
        assert ts[..i + 1][..i] == ts[..i];
        if activeTransports[i].ticket.scope == S.QMIChannel {
          count := count + 1;
        }
      }
      assert ts[..|ts|] == ts;
    }

    method HasActiveTransportOnChannel(channel: int) returns (b: bool)
      ensures b == S.ChannelHeld(Sched(), channel)
    {
      ghost var v := Sched();
      for i := 0 to |activeTransports|
        invariant forall k :: 0 <= k < i ==>
                                !(v.transports[k].scope == S.QMIChannel && v.transports[k].channel == channel)
      {
        if activeTransports[i].ticket.scope == S.QMIChannel && activeTransports[i].ticket.channel == channel {
          assert v.transports[i].scope == S.QMIChannel && v.transports[i].channel == channel;
          return true;
        }
      }
      return false;
    }

    /** A QMI transport needs room in the window and its channel, any other the modem alone. */
    method CanAcquireTransportNow(ticket: S.Ticket) returns (b: bool)
      ensures b == S.Fits(Sched(), ticket)
      ensures ticket.leaseType != S.Transport ==> !b
      ensures ticket.leaseType == S.Transport && ticket.scope != S.QMIChannel ==> (b <==> activeTransports == [])
      ensures ticket.leaseType == S.Transport && ticket.scope == S.QMIChannel ==>
                (b <==> && |activeTransports| < opts.maxQMITransports
                        && forall a :: a in activeTransports ==>
                             a.ticket.scope == S.QMIChannel && a.ticket.channel != ticket.channel)
    {
      ghost var v := Sched();
      if ticket.leaseType == S.Transport {
        Q.FitsExactly(v, ticket);
        assert forall k :: 0 <= k < |activeTransports| ==> v.transports[k] == activeTransports[k].ticket;
      }
      if ticket.leaseType != S.Transport {
        return false;
      }
      if ticket.scope != S.QMIChannel {
        return |activeTransports| == 0;
      }
      var exclusive := HasActiveExclusiveTransport();
      if exclusive {
        return false;
      }
      var count := ActiveQMITransportCount();
      if count >= opts.maxQMITransports {
        return false;
      }
      var held := HasActiveTransportOnChannel(ticket.channel);
      return !held;
    }

    /** Only a QMI transport in a window with room lets those behind it pass. */
    method TransportWaitGatesQueue(ticket: S.Ticket) returns (b: bool)
      ensures b == S.Gates(Sched(), ticket)
      ensures !b <==> && ticket.leaseType == S.Transport && ticket.scope == S.QMIChannel
                      && |activeTransports| < opts.maxQMITransports
                      && forall a :: a in activeTransports ==> a.ticket.scope == S.QMIChannel
    {
      ghost var v := Sched();
      if ticket.leaseType == S.Transport {
        Q.GatesExactly(v, ticket);
        assert forall k :: 0 <= k < |activeTransports| ==> v.transports[k] == activeTransports[k].ticket;
      }
      if ticket.leaseType != S.Transport || ticket.scope != S.QMIChannel {
        return true;
      }
      var exclusive := HasActiveExclusiveTransport();
      var count := ActiveQMITransportCount();
      return exclusive || count >= opts.maxQMITransports;
    }

    /** One position of the selection scan: it ends there, takes the ticket, or goes on. */
    method ScanTicket(ticket: S.Ticket) returns (stops: bool, takes: bool)
      ensures stops == !S.Passes(Sched(), ticket)
      ensures takes == (S.IsTransportWait(ticket) && !S.BlockedByBarrier(Sched(), ticket.cls)
                        && S.Fits(Sched(), ticket))
    {
      if ticket.kind == S.BarrierWait || ticket.leaseType != S.Transport {
        return true, false;
      }
      var blocked := IsBlockedByActiveBarrier(ticket.cls);
      if blocked {
        return false, false;
      }
      var fits := CanAcquireTransportNow(ticket);
      if fits {
        return false, true;
      }
      var gates := TransportWaitGatesQueue(ticket);
      return gates, false;
    }

    method SelectedTransport(now: int) returns (id: nat)
      ensures id == S.SelectedTransport(Sched(), now)
    {
      ghost var v := Sched();
      var oldestEligible: Option<nat> := None;
      var oldestAgedNonAKA: Option<nat> := None;
      var oldestAKA: Option<nat> := None;
      ghost var stop := |queue|;
      for i := 0 to |queue|
        invariant stop == |queue|
        invariant Scanned(v, now, i, oldestEligible, oldestAgedNonAKA, oldestAKA)
      {
        var ticket := queue[i];
        var stops, takes := ScanTicket(ticket);
        if stops {
          stop := i;
          break;
        }
        if !takes {
          ScanPasses(v, now, i, oldestEligible, oldestAgedNonAKA, oldestAKA);
          continue;
        }
        ScanTakes(v, now, i, oldestEligible, oldestAgedNonAKA, oldestAKA);
        if oldestEligible == None {
          oldestEligible := Some(i);
        }
        if ticket.cls == S.USIMAKA {
          if oldestAKA == None {
            oldestAKA := Some(i);
          }
          continue;
        }
        if oldestAgedNonAKA == None && now - ticket.enqueued >= S.TRANSPORT_PRIORITY_AGING {
          oldestAgedNonAKA := Some(i);
        }
      }
      ScanDone(v, now, stop, oldestEligible, oldestAgedNonAKA, oldestAKA);
      if oldestAgedNonAKA != None {
        return queue[oldestAgedNonAKA.value].id;
      } else if oldestAKA != None {
        return queue[oldestAKA.value].id;
      } else if oldestEligible != None {
        return queue[oldestEligible.value].id;
      } else {
        return 0;
      }
    }

    method SelectedBarrier() returns (id: nat)
      ensures id == S.SelectedBarrier(Sched())
    {
      for i := 0 to |queue|
        invariant forall j :: 0 <= j < i ==> queue[j].kind != S.BarrierWait
      {
        if queue[i].kind == S.BarrierWait {
          assert S.FirstBarrier(queue) == i;
          return queue[i].id;
        }
      }
      return 0;
    }

    method HasPendingBarrierAhead(ticket: S.Ticket) returns (b: bool)
      ensures b == S.PendingBarrierAhead(Sched(), ticket)
    {
      for i := 0 to |queue|
        invariant forall j :: 0 <= j < i ==> queue[j].id != ticket.id
        invariant forall j :: 0 <= j < i ==> !(queue[j].kind == S.BarrierWait && ticket.cls in queue[j].blocked)
      {
        var queued := queue[i];
        if queued.id == ticket.id {
          assert S.TicketIndex(queue, ticket.id) == i;
          return false;
        }
        if queued.kind != S.BarrierWait {
          continue;
        }
        if ticket.cls in queued.blocked {
          assert i < S.TicketIndex(queue, ticket.id) by {
            var k := S.TicketIndex(queue, ticket.id);
            assert k < |queue| ==> queue[k].id == ticket.id;
          }
          return true;
        }
      }
      return false;
    }

    method CanAcquireLease(ticket: S.Ticket, now: int) returns (b: bool)
      ensures b == S.CanAcquireLease(Sched(), ticket, now)
      ensures |queue| > 0 && ticket == queue[0] && ticket.kind == S.LeaseWait && ticket.leaseType == S.Session ==>
                (b <==> && activeOneshot.None? && activeTransports == [] && |activeSessions| < opts.maxSessions
                        && forall a :: a in activeBarriers ==> ticket.cls !in a.ticket.blocked)
      ensures |queue| > 0 && ticket == queue[0] && ticket.kind == S.LeaseWait && ticket.leaseType == S.OneShot ==>
                (b <==> && activeOneshot.None? && activeTransports == [] && activeSessions == []
                        && forall a :: a in activeBarriers ==> ticket.cls !in a.ticket.blocked)
    {
      if ticket.kind != S.LeaseWait {
        return false;
      }
      var blocked := IsBlockedByActiveBarrier(ticket.cls);
      if blocked {
        return false;
      }
      var pending := HasPendingBarrierAhead(ticket);
      if pending {
        return false;
      }
      var head := |queue| > 0 && queue[0].id == ticket.id;
      match ticket.leaseType {
        case Session =>
          return head && activeOneshot.None? && |activeTransports| == 0 && |activeSessions| < opts.maxSessions;
        case OneShot =>
          return head && |activeSessions| == 0 && activeOneshot.None? && |activeTransports| == 0;
        case Transport =>
          if |activeSessions| > 0 || activeOneshot.Some? {
            return false;
          }
          var selected := SelectedTransport(now);
          return selected == ticket.id;
        case Barrier =>
          return false;
      }
    }

    method CanAcquireBarrier(ticket: S.Ticket) returns (b: bool)
      ensures b == S.CanAcquireBarrier(Sched(), ticket)
    {
      if ticket.kind != S.BarrierWait {
        return false;
      }
      if |activeTransports| > 0 || |activeSessions| > 0 || activeOneshot.Some? {
        return false;
      }
      var selected := SelectedBarrier();
      return selected == ticket.id;
    }

    method FindActiveLocked(id: nat, lt: S.LeaseType) returns (r: Option<S.Active>)
      ensures r == S.FindActive(View(), id, lt)
    {
      match lt {
        case Session =>
          for i := 0 to |activeSessions|
            invariant forall j :: 0 <= j < i ==> activeSessions[j].ticket.id != id
          {
            if activeSessions[i].ticket.id == id {
              assert S.ActiveIndex(activeSessions, id) == i;
              return Some(activeSessions[i]);
            }
          }
        case OneShot =>
          if activeOneshot.Some? && activeOneshot.value.ticket.id == id {
            return activeOneshot;
          }
        case Transport =>
          for i := 0 to |activeTransports|
            invariant forall j :: 0 <= j < i ==> activeTransports[j].ticket.id != id
          {
            if activeTransports[i].ticket.id == id {
              assert S.ActiveIndex(activeTransports, id) == i;
              return Some(activeTransports[i]);
            }
          }
        case Barrier =>
      }
      return None;
    }

    method IsIdle() returns (b: bool)
      ensures b == S.IsIdle(View())
      ensures b <==> && queue == [] && activeBarriers == []
                     && activeSessions == [] && activeOneshot.None? && activeTransports == []
    {
      return activeOneshot.None? && |activeTransports| == 0 && |activeSessions| == 0 &&
             |activeBarriers| == 0 && |queue| == 0;
    }

    // ------------------------------------------------------------ state changes

    /** Closes the current channel, which is still open, and replaces it. */
    method SignalLocked()
      requires Valid()
      modifies this`notifyC, this`epoch, notifyC
      ensures Valid() && fresh(notifyC)
      ensures old(notifyC).closed
      ensures View() == S.Signal(old(View()))
    {
      notifyC.closed := true;
      notifyC := new NotifyChannel();
      epoch := epoch + 1;
    }

    method RemoveTicketLocked(id: nat) returns (removed: bool)
      modifies this`queue
      ensures removed == (S.TicketIndex(old(queue), id) < |old(queue)|)
      ensures View() == old(View()).(queue := S.RemoveTicket(old(queue), id))
    {
      for i := 0 to |queue|
        invariant queue == old(queue)
        invariant forall j :: 0 <= j < i ==> queue[j].id != id
      {
        if queue[i].id != id {
          continue;
        }
        assert S.TicketIndex(queue, id) == i;
        queue := queue[..i] + queue[i + 1..];
        return true;
      }
      return false;
    }

    method AddActiveLocked(active: S.Active)
      modifies this`activeSessions, this`activeOneshot, this`activeTransports
      ensures View() == S.AddActive(old(View()), active)
    {
      match active.ticket.leaseType {
        case Session => activeSessions := activeSessions + [active];
        case OneShot => activeOneshot := Some(active);
        case Transport => activeTransports := activeTransports + [active];
        case Barrier =>
      }
    }

    method RemoveActiveLocked(id: nat, lt: S.LeaseType) returns (released: Option<S.Active>)
      modifies this`activeSessions, this`activeOneshot, this`activeTransports
      ensures released == S.FindActive(old(View()), id, lt)
      ensures View() == S.RemoveActive(old(View()), id, lt)
    {
      match lt {
        case Session =>
          for i := 0 to |activeSessions|
            invariant View() == old(View())
            invariant forall j :: 0 <= j < i ==> activeSessions[j].ticket.id != id
          {
            if activeSessions[i].ticket.id == id {
              assert S.ActiveIndex(activeSessions, id) == i;
              released := Some(activeSessions[i]);
              activeSessions := activeSessions[..i] + activeSessions[i + 1..];
              return;
            }
          }
        case OneShot =>
          if activeOneshot.Some? && activeOneshot.value.ticket.id == id {
            released := activeOneshot;
            activeOneshot := None;
            return;
          }
        case Transport =>
          for i := 0 to |activeTransports|
            invariant View() == old(View())
            invariant forall j :: 0 <= j < i ==> activeTransports[j].ticket.id != id
          {
            if activeTransports[i].ticket.id == id {
              assert S.ActiveIndex(activeTransports, id) == i;
              released := Some(activeTransports[i]);
              activeTransports := activeTransports[..i] + activeTransports[i + 1..];
              return;
            }
          }
        case Barrier =>
      }
      return None;
    }

    /** First locked section of `acquire` and `BeginBarrier`. */
    method EnqueueTicket(ticket: S.Ticket)
      requires Valid()
      modifies this, notifyC
      ensures Valid() && fresh(notifyC) && old(notifyC).closed && armed == old(armed)
      ensures View() == S.Enqueue(old(View()), ticket)
    {
      queue := queue + [ticket];
      waitRequests := waitRequests + 1;
      SignalLocked();
    }

    /** One turn of the retry loop of `acquire`: admit the ticket, or report that
        it has to sleep on the channel that is current now. */
    method TryAcquireLease(ticket: S.Ticket, now: int, at: int) returns (granted: bool)
      requires Valid() && ticket.kind == S.LeaseWait
      modifies this, notifyC
      ensures Valid()
      ensures granted == S.CanAcquireLease(old(Sched()), ticket, now)
      ensures View() == if granted then S.Enter(old(View()), ticket, at) else old(View())
      ensures if epoch == old(epoch) then notifyC == old(notifyC) else old(notifyC).closed && fresh(notifyC)
      ensures armed == if granted then S.ArmOnEnter(old(armed), old(View()), ticket, at) else old(armed)
    {
      hide S.CanAcquireLease, S.RemoveTicket, S.TicketIndex, S.SchedOf, Arbiter.Sched;
      granted := CanAcquireLease(ticket, now);
      if granted {
        var removed := RemoveTicketLocked(ticket.id);
        var active := S.Active(ticket, at, None);
        if opts.maxLeaseHold > 0 {
          active := active.(expiresAt := Some(at + opts.maxLeaseHold));
          armed := armed[ticket.id := at + opts.maxLeaseHold];
        }
        AddActiveLocked(active);
        acquires := acquires + 1;
        SignalLocked();
      }
    }

    /** One turn of the retry loop of `BeginBarrier`. */
    method TryBeginBarrier(ticket: S.Ticket, at: int) returns (granted: bool)
      requires Valid() && ticket.kind == S.BarrierWait
      modifies this, notifyC
      ensures Valid()
      ensures granted == S.CanAcquireBarrier(old(Sched()), ticket)
      ensures View() == if granted then S.Enter(old(View()), ticket, at) else old(View())
      ensures if epoch == old(epoch) then notifyC == old(notifyC) else old(notifyC).closed && fresh(notifyC)
      ensures armed == old(armed)
    {
      granted := CanAcquireBarrier(ticket);
      if granted {
        var removed := RemoveTicketLocked(ticket.id);
        activeBarriers := activeBarriers + [S.Active(ticket, at, None)];
        acquires := acquires + 1;
        SignalLocked();
      }
    }

    /** The locked section a waiter runs when its context ends. */
    method GiveUp(id: nat)
      requires Valid()
      modifies this, notifyC
      ensures Valid()
      ensures View() == S.GiveUp(old(View()), id)
      ensures if epoch == old(epoch) then notifyC == old(notifyC) else old(notifyC).closed && fresh(notifyC)
      ensures armed == old(armed)
    {
      var removed := RemoveTicketLocked(id);
      if removed {
        waitTimeouts := waitTimeouts + 1;
        SignalLocked();
      }
    }

    method Touch(id: nat, lt: S.LeaseType, now: int) returns (touched: bool)
      requires Valid()
      modifies this
      ensures Valid() && notifyC == old(notifyC)
      ensures touched == S.FindActive(old(View()), id, lt).Some?
      ensures View() == S.Touch(old(View()), id, lt, now)
      ensures armed == S.ArmOnTouch(old(armed), old(View()), id, lt, now)
    {
      var active := FindActiveLocked(id, lt);
      if opts.maxLeaseHold <= 0 || active.None? {
        return active.Some?;
      }
      var until := Some(now + opts.maxLeaseHold);
      armed := armed[id := now + opts.maxLeaseHold];
      match lt {
        case Session =>
          var i := S.ActiveIndex(activeSessions, id);
          activeSessions := activeSessions[i := activeSessions[i].(expiresAt := until)];
        case OneShot =>
          activeOneshot := Some(activeOneshot.value.(expiresAt := until));
        case Transport =>
          var i := S.ActiveIndex(activeTransports, id);
          activeTransports := activeTransports[i := activeTransports[i].(expiresAt := until)];
        case Barrier =>
      }
      return true;
    }

    method Release(id: nat, lt: S.LeaseType)
      requires Valid()
      modifies this, notifyC
      ensures Valid()
      ensures View() == S.Release(old(View()), id, lt)
      ensures if epoch == old(epoch) then notifyC == old(notifyC) else old(notifyC).closed && fresh(notifyC)
      ensures armed == S.DisarmOnRelease(old(armed), old(View()), id, lt)
    {
      var released := RemoveActiveLocked(id, lt);
      if released.None? {
        AbsentIsNotRemoved(old(View()), id, lt);
        return;
      }
      armed := armed - {id};
      SignalLocked();
    }

    method ReleaseExpired(id: nat, lt: S.LeaseType, now: int)
      requires Valid()
      modifies this, notifyC
      ensures Valid()
      ensures View() == S.ReleaseExpired(old(View()), id, lt, now)
      ensures if epoch == old(epoch) then notifyC == old(notifyC) else old(notifyC).closed && fresh(notifyC)
      ensures armed == S.RearmOnCallback(old(armed), old(View()), id, lt, now)
    {
      var active := FindActiveLocked(id, lt);
      if active.None? {
        return;
      }
      if active.value.expiresAt.Some? && active.value.expiresAt.value - now > 0 {
        armed := armed[id := active.value.expiresAt.value];
        return;
      }
      var released := RemoveActiveLocked(id, lt);
      armed := armed - {id};
      forcedReleases := forcedReleases + 1;
      SignalLocked();
    }

    method ReleaseBarrier(id: nat)
      requires Valid()
      modifies this, notifyC
      ensures Valid()
      ensures View() == S.ReleaseBarrier(old(View()), id)
      ensures if epoch == old(epoch) then notifyC == old(notifyC) else old(notifyC).closed && fresh(notifyC)
      ensures armed == old(armed)
    {
      for i := 0 to |activeBarriers|
        invariant Valid() && View() == old(View()) && notifyC == old(notifyC) && armed == old(armed)
        invariant forall j :: 0 <= j < i ==> activeBarriers[j].ticket.id != id
      {
        if activeBarriers[i].ticket.id != id {
          continue;
        }
        assert S.ActiveIndex(activeBarriers, id) == i;
        activeBarriers := activeBarriers[..i] + activeBarriers[i + 1..];
        SignalLocked();
        return;
      }
    }
  }

  /** What the selection scan knows after `i` queue positions. */
  ghost predicate Scanned(v: S.Sched, now: int, i: nat, any: Option<nat>, aged: Option<nat>, aka: Option<nat>) {
    && S.Reaches(v, i)
    && any == S.First(v, now, S.AnyEligible, i)
    && aged == S.First(v, now, S.AgedNonAKA, i)
    && aka == S.First(v, now, S.AnyAKA, i)
  }

  lemma ScanPasses(v: S.Sched, now: int, i: nat, any: Option<nat>, aged: Option<nat>, aka: Option<nat>)
    requires i < |v.queue| && Scanned(v, now, i, any, aged, aka)
    requires S.Passes(v, v.queue[i]) && !S.Eligible(v, i)
    ensures Scanned(v, now, i + 1, any, aged, aka)
  {}

  lemma ScanTakes(v: S.Sched, now: int, i: nat, any: Option<nat>, aged: Option<nat>, aka: Option<nat>)
    requires i < |v.queue| && Scanned(v, now, i, any, aged, aka) && S.Eligible(v, i)
    ensures var t := v.queue[i];
            Scanned(v, now, i + 1,
                    if any.None? then Some(i) else any,
                    if aged.None? && t.cls != S.USIMAKA && S.Aged(t, now) then Some(i) else aged,
                    if aka.None? && t.cls == S.USIMAKA then Some(i) else aka)
  {}

  lemma ScanDone(v: S.Sched, now: int, stop: nat, any: Option<nat>, aged: Option<nat>, aka: Option<nat>)
    requires stop <= |v.queue| && Scanned(v, now, stop, any, aged, aka)
    requires stop < |v.queue| ==> !S.Passes(v, v.queue[stop])
    ensures S.SelectedIndex(v, now) == S.Preferred(aged, aka, any)
  {
    ScanStopped(v, now, S.AnyEligible, stop);
    ScanStopped(v, now, S.AgedNonAKA, stop);
    ScanStopped(v, now, S.AnyAKA, stop);
  }

  /** Past the position where the selection scan breaks off, nothing is eligible. */
  lemma ScanStopped(v: S.Sched, now: int, pick: S.Pick, stop: nat)
    requires stop <= |v.queue|
    requires stop < |v.queue| ==> !S.Passes(v, v.queue[stop])
    ensures S.First(v, now, pick, |v.queue|) == S.First(v, now, pick, stop)
  {
    if stop < |v.queue| {
      forall j | stop <= j < |v.queue|
        ensures !S.Eligible(v, j)
      {
        if j == stop {
          assert !S.Eligible(v, stop);
        } else {
          assert !S.Reaches(v, j);
        }
      }
    }
    FirstAgrees(v, now, pick, stop, |v.queue|);
  }

  lemma FirstAgrees(v: S.Sched, now: int, pick: S.Pick, n: nat, m: nat)
    requires n <= m <= |v.queue|
    requires forall j :: n <= j < m ==> !S.Matches(v, now, pick, j)
    ensures S.First(v, now, pick, m) == S.First(v, now, pick, n)
  {
    if n < m {
      FirstAgrees(v, now, pick, n, m - 1);
    }
  }

  lemma AbsentIsNotRemoved(s: S.State, id: nat, lt: S.LeaseType)
    requires S.FindActive(s, id, lt).None?
    ensures S.RemoveActive(s, id, lt) == s
  {}
}
