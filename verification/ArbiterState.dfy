/** The APDU arbiter as a value: tickets, leases, barriers and counters, the
    admission rules over them, and the effect of each lock-protected section.
    `Arbiter.dfy` proves the class with the real fields and loops against these. */
module ArbiterState {
  import opened Common

  datatype LeaseType = Session | OneShot | Transport | Barrier

  datatype Scope = Unspecified | Exclusive | QMIChannel | OtherScope(name: string)

  datatype APDUClass =
    | Unset | EUICCWrite | EUICCRead | USIMAKA | SMSC | SwitchBarrier | Recovery
    | OtherClass(name: string)

  datatype Kind = LeaseWait | BarrierWait

  /** 500 ms, in the nanoseconds every time stamp of the model counts. */
  const TRANSPORT_PRIORITY_AGING: int := 500_000_000

  datatype Options = Options(maxLeaseHold: int, maxSessions: int, maxQMITransports: int)

  datatype Request = Request(owner: string, mode: string, cls: APDUClass, channel: int, scope: Scope)

  datatype Ticket = Ticket(
    id: nat, owner: string, mode: string, cls: APDUClass, channel: int, scope: Scope,
    leaseType: LeaseType, kind: Kind, blocked: set<APDUClass>, enqueued: int)

  /** An active lease or, with no expiry, an active barrier. */
  datatype Active = Active(ticket: Ticket, acquiredAt: int, expiresAt: Option<int>)

  datatype State = State(
    opts: Options,
    queue: seq<Ticket>,
    sessions: seq<Active>,
    oneshot: Option<Active>,
    transports: seq<Active>,
    barriers: seq<Active>,
    epoch: nat,  // how often the broadcast channel has been closed and replaced
    waitRequests: nat, acquires: nat, waitTimeouts: nat, forcedReleases: nat)

  function NormalizeOptions(o: Options): (r: Options)
    ensures r.maxLeaseHold > 0 && r.maxSessions > 0 && r.maxQMITransports > 0
    ensures o.maxLeaseHold > 0 ==> r.maxLeaseHold == o.maxLeaseHold
    ensures o.maxSessions > 0 ==> r.maxSessions == o.maxSessions
    ensures o.maxQMITransports > 0 ==> r.maxQMITransports == o.maxQMITransports
    ensures o.maxLeaseHold <= 0 ==> r.maxLeaseHold == 120_000_000_000
    ensures (o.maxSessions <= 0 ==> r.maxSessions == 1) && (o.maxQMITransports <= 0 ==> r.maxQMITransports == 1)
  {
    Options(
      if o.maxLeaseHold <= 0 then 120_000_000_000 else o.maxLeaseHold,
      if o.maxSessions <= 0 then 1 else o.maxSessions,
      if o.maxQMITransports <= 0 then 1 else o.maxQMITransports)
  }

  function Init(o: Options): State {
    State(NormalizeOptions(o), [], [], None, [], [], 0, 0, 0, 0, 0)
  }

  // ---------------------------------------------------------------- tickets

  function NormalizeClass(c: APDUClass, lt: LeaseType): APDUClass {
    if c != Unset then c else if lt == OneShot then USIMAKA else EUICCWrite
  }

  function NormalizeTransportScope(scope: Scope, mode: string, channel: int, lt: LeaseType): Scope {
    if lt != Transport then Exclusive
    else if scope == QMIChannel && mode == "QMI" && channel > 0 then QMIChannel
    else Exclusive
  }

  function LeaseTicket(id: nat, req: Request, lt: LeaseType, enqueued: int): Ticket {
    Ticket(id, req.owner, req.mode, NormalizeClass(req.cls, lt), req.channel,
           NormalizeTransportScope(req.scope, req.mode, req.channel, lt), lt, LeaseWait, {}, enqueued)
  }

  function BlockedClasses(policy: seq<APDUClass>): set<APDUClass> {
    var named := set c | c in policy :: NormalizeClass(c, OneShot);
    if named == {} then {USIMAKA, SMSC} else named
  }

  function BarrierTicket(id: nat, req: Request, policy: seq<APDUClass>, enqueued: int): Ticket {
    Ticket(id, req.owner, req.mode, if req.cls == Unset then SwitchBarrier else req.cls, req.channel,
           Exclusive, Barrier, BarrierWait, BlockedClasses(policy), enqueued)
  }

  /** What normalisation guarantees of every ticket that reaches the queue. */
  predicate WellFormed(t: Ticket) {
    && t.id > 0
    && (t.kind == BarrierWait <==> t.leaseType == Barrier)
    && (t.scope == Exclusive || t.scope == QMIChannel)
    && (t.scope == QMIChannel ==> t.leaseType == Transport && t.channel > 0 && t.mode == "QMI")
    && (t.kind == BarrierWait ==> t.blocked != {})
  }

  lemma LeaseTicketWellFormed(id: nat, req: Request, lt: LeaseType, enqueued: int)
    requires id > 0 && lt != Barrier
    ensures WellFormed(LeaseTicket(id, req, lt, enqueued))
    ensures var t := LeaseTicket(id, req, lt, enqueued);
            && t.id == id && t.owner == req.owner && t.mode == req.mode && t.channel == req.channel
            && t.leaseType == lt && t.kind == LeaseWait && t.blocked == {} && t.enqueued == enqueued
            && (t.scope == QMIChannel
                <==> lt == Transport && req.scope == QMIChannel && req.mode == "QMI" && req.channel > 0)
            && (req.cls != Unset ==> t.cls == req.cls)
            && (req.cls == Unset && lt == OneShot ==> t.cls == USIMAKA)
            && (req.cls == Unset && lt != OneShot ==> t.cls == EUICCWrite)
  {}

  lemma BarrierTicketWellFormed(id: nat, req: Request, policy: seq<APDUClass>, enqueued: int)
    requires id > 0
    ensures WellFormed(BarrierTicket(id, req, policy, enqueued))
    ensures var t := BarrierTicket(id, req, policy, enqueued);
            && t.id == id && t.owner == req.owner && t.mode == req.mode && t.channel == req.channel
            && t.leaseType == Barrier && t.kind == BarrierWait && t.enqueued == enqueued
            && (req.cls != Unset ==> t.cls == req.cls) && (req.cls == Unset ==> t.cls == SwitchBarrier)
    ensures forall c :: c in BarrierTicket(id, req, policy, enqueued).blocked
                   <==> if policy == [] then c == USIMAKA || c == SMSC
                        else (c != Unset && c in policy) || (c == USIMAKA && Unset in policy)
  {
    var named := set c | c in policy :: NormalizeClass(c, OneShot);
    if policy != [] {
      assert NormalizeClass(policy[0], OneShot) in named;
    }
    forall c
      ensures c in named <==> (c != Unset && c in policy) || (c == USIMAKA && Unset in policy)
    {
      if c != Unset && c in policy {
        assert NormalizeClass(c, OneShot) == c;
      }
      if c == USIMAKA && Unset in policy {
        assert NormalizeClass(Unset, OneShot) == c;
      }
    }
  }

  // ------------------------------------------------- what admission looks at

  function Tickets(xs: seq<Active>): (r: seq<Ticket>)
    ensures |r| == |xs| && forall i :: 0 <= i < |xs| ==> r[i] == xs[i].ticket
  {
    seq(|xs|, i requires 0 <= i < |xs| => xs[i].ticket)
  }

  /** Everything an admission verdict depends on, apart from the clock: lease
      deadlines and counters are not part of it. */
  datatype Sched = Sched(
    opts: Options, queue: seq<Ticket>, sessions: nat, oneshot: bool,
    transports: seq<Ticket>, barriers: seq<Ticket>)

  function SchedOf(s: State): Sched {
    Sched(s.opts, s.queue, |s.sessions|, s.oneshot.Some?, Tickets(s.transports), Tickets(s.barriers))
  }

  predicate BlockedByBarrier(v: Sched, c: APDUClass) {
    exists k :: 0 <= k < |v.barriers| && c in v.barriers[k].blocked
  }

  predicate HasExclusive(v: Sched) {
    exists k :: 0 <= k < |v.transports| && v.transports[k].scope != QMIChannel
  }

  predicate ChannelHeld(v: Sched, channel: int) {
    exists k :: 0 <= k < |v.transports| && v.transports[k].scope == QMIChannel && v.transports[k].channel == channel
  }

  function QMICount(ts: seq<Ticket>): (n: nat)
    ensures n <= |ts|
  {
    if |ts| == 0 then 0
    else QMICount(ts[..|ts| - 1]) + if ts[|ts| - 1].scope == QMIChannel then 1 else 0
  }

  /** `canAcquireTransportNowLocked` */
  predicate Fits(v: Sched, t: Ticket) {
    && t.leaseType == Transport
    && if t.scope != QMIChannel then |v.transports| == 0
       else !HasExclusive(v) && QMICount(v.transports) < v.opts.maxQMITransports && !ChannelHeld(v, t.channel)
  }

  /** `transportWaitGatesQueueLocked` */
  predicate Gates(v: Sched, t: Ticket) {
    || t.leaseType != Transport
    || t.scope != QMIChannel
    || HasExclusive(v)
    || QMICount(v.transports) >= v.opts.maxQMITransports
  }

  predicate IsTransportWait(t: Ticket) {
    t.kind == LeaseWait && t.leaseType == Transport
  }

  /** A queued ticket the selection scan walks past, whatever it does with it. */
  predicate Passes(v: Sched, t: Ticket) {
    IsTransportWait(t) && (BlockedByBarrier(v, t.cls) || Fits(v, t) || !Gates(v, t))
  }

  predicate Reaches(v: Sched, i: nat) {
    i <= |v.queue| && forall j :: 0 <= j < i ==> Passes(v, v.queue[j])
  }

  predicate Eligible(v: Sched, i: nat) {
    && i < |v.queue|
    && Reaches(v, i)
    && IsTransportWait(v.queue[i])
    && !BlockedByBarrier(v, v.queue[i].cls)
    && Fits(v, v.queue[i])
  }

  predicate Aged(t: Ticket, now: int) {
    now - t.enqueued >= TRANSPORT_PRIORITY_AGING
  }

  datatype Pick = AgedNonAKA | AnyAKA | AnyEligible

  predicate Matches(v: Sched, now: int, pick: Pick, i: nat) {
    && Eligible(v, i)
    && match pick
       case AgedNonAKA => v.queue[i].cls != USIMAKA && Aged(v.queue[i], now)
       case AnyAKA => v.queue[i].cls == USIMAKA
       case AnyEligible => true
  }

  /** The least of the first `n` queue positions that matches `pick`. */
  function First(v: Sched, now: int, pick: Pick, n: nat): (r: Option<nat>)
    requires n <= |v.queue|
    ensures r.None? ==> forall j :: 0 <= j < n ==> !Matches(v, now, pick, j)
    ensures r.Some? ==> r.value < n && Matches(v, now, pick, r.value)
    ensures r.Some? ==> forall j :: 0 <= j < r.value ==> !Matches(v, now, pick, j)
  {
    if n == 0 then None
    else
      var p := First(v, now, pick, n - 1);
      if p.Some? then p else if Matches(v, now, pick, n - 1) then Some(n - 1) else None
  }

  function Preferred(aged: Option<nat>, aka: Option<nat>, any: Option<nat>): Option<nat> {
    if aged.Some? then aged else if aka.Some? then aka else any
  }

  /** The queue position `selectedTransportLocked` settles on. */
  function SelectedIndex(v: Sched, now: int): Option<nat> {
    Preferred(First(v, now, AgedNonAKA, |v.queue|), First(v, now, AnyAKA, |v.queue|),
              First(v, now, AnyEligible, |v.queue|))
  }

  function SelectedTransport(v: Sched, now: int): nat {
    var p := SelectedIndex(v, now);
    if p.Some? then v.queue[p.value].id else 0
  }

  function TicketIndex(q: seq<Ticket>, id: nat): (i: nat)
    ensures i <= |q|
    ensures i < |q| ==> q[i].id == id
    ensures forall j :: 0 <= j < i ==> q[j].id != id
  {
    if |q| == 0 then 0 else if q[0].id == id then 0 else 1 + TicketIndex(q[1..], id)
  }

  predicate PendingBarrierAhead(v: Sched, t: Ticket) {
    exists j :: 0 <= j < TicketIndex(v.queue, t.id) && v.queue[j].kind == BarrierWait && t.cls in v.queue[j].blocked
  }

  predicate IsHead(v: Sched, id: nat) {
    |v.queue| > 0 && v.queue[0].id == id
  }

  function FirstBarrier(q: seq<Ticket>): (i: nat)
    ensures i <= |q|
    ensures i < |q| ==> q[i].kind == BarrierWait
    ensures forall j :: 0 <= j < i ==> q[j].kind != BarrierWait
  {
    if |q| == 0 then 0 else if q[0].kind == BarrierWait then 0 else 1 + FirstBarrier(q[1..])
  }

  function SelectedBarrier(v: Sched): nat {
    var i := FirstBarrier(v.queue);
    if i < |v.queue| then v.queue[i].id else 0
  }

  predicate NoLease(v: Sched) {
    |v.transports| == 0 && v.sessions == 0 && !v.oneshot
  }

  /** The lease-type part of `canAcquireLeaseLocked`, after the barrier checks. */
  predicate TypeAdmits(v: Sched, t: Ticket, now: int) {
    match t.leaseType
    case Session => IsHead(v, t.id) && !v.oneshot && |v.transports| == 0 && v.sessions < v.opts.maxSessions
    case OneShot => IsHead(v, t.id) && NoLease(v)
    case Transport => v.sessions == 0 && !v.oneshot && SelectedTransport(v, now) == t.id
    case Barrier => false
  }

  predicate CanAcquireLease(v: Sched, t: Ticket, now: int) {
    && t.kind == LeaseWait
    && !BlockedByBarrier(v, t.cls)
    && !PendingBarrierAhead(v, t)
    && TypeAdmits(v, t, now)
  }

  predicate CanAcquireBarrier(v: Sched, t: Ticket) {
    t.kind == BarrierWait && NoLease(v) && SelectedBarrier(v) == t.id
  }

  predicate CanEnter(v: Sched, t: Ticket, now: int) {
    if t.kind == BarrierWait then CanAcquireBarrier(v, t) else CanAcquireLease(v, t, now)
  }

  // ------------------------------------------------- lock-protected sections

  function Signal(s: State): State {
    s.(epoch := s.epoch + 1)
  }

  function Enqueue(s: State, t: Ticket): State {
    Signal(s.(queue := s.queue + [t], waitRequests := s.waitRequests + 1))
  }

  function RemoveAt<T>(xs: seq<T>, i: nat): seq<T>
    requires i < |xs|
  {
    xs[..i] + xs[i + 1..]
  }

  function RemoveTicket(q: seq<Ticket>, id: nat): seq<Ticket> {
    var i := TicketIndex(q, id);
    if i < |q| then RemoveAt(q, i) else q
  }

  function AddActive(s: State, a: Active): State {
    match a.ticket.leaseType
    case Session => s.(sessions := s.sessions + [a])
    case OneShot => s.(oneshot := Some(a))
    case Transport => s.(transports := s.transports + [a])
    case Barrier => s
  }

  function NewActive(s: State, t: Ticket, at: int): Active {
    Active(t, at, if t.kind == LeaseWait && s.opts.maxLeaseHold > 0 then Some(at + s.opts.maxLeaseHold) else None)
  }

  function Enter(s: State, t: Ticket, at: int): State {
    var dequeued := s.(queue := RemoveTicket(s.queue, t.id));
    var admitted :=
      if t.kind == BarrierWait then dequeued.(barriers := s.barriers + [NewActive(s, t, at)])
      else AddActive(dequeued, NewActive(s, t, at));
    Signal(admitted.(acquires := s.acquires + 1))
  }

  /** A waiter whose context ended takes its ticket back. */
  function GiveUp(s: State, id: nat): State {
    if TicketIndex(s.queue, id) < |s.queue|
    then Signal(s.(queue := RemoveTicket(s.queue, id), waitTimeouts := s.waitTimeouts + 1))
    else s
  }

  function ActiveIndex(xs: seq<Active>, id: nat): (i: nat)
    ensures i <= |xs|
    ensures i < |xs| ==> xs[i].ticket.id == id
    ensures forall j :: 0 <= j < i ==> xs[j].ticket.id != id
  {
    if |xs| == 0 then 0 else if xs[0].ticket.id == id then 0 else 1 + ActiveIndex(xs[1..], id)
  }

  function RemoveActiveSeq(xs: seq<Active>, id: nat): seq<Active> {
    var i := ActiveIndex(xs, id);
    if i < |xs| then RemoveAt(xs, i) else xs
  }

  function FindActive(s: State, id: nat, lt: LeaseType): Option<Active> {
    match lt
    case Session =>
      var i := ActiveIndex(s.sessions, id);
      if i < |s.sessions| then Some(s.sessions[i]) else None
    case OneShot =>
      if s.oneshot.Some? && s.oneshot.value.ticket.id == id then s.oneshot else None
    case Transport =>
      var i := ActiveIndex(s.transports, id);
      if i < |s.transports| then Some(s.transports[i]) else None
    case Barrier => None
  }

  function RemoveActive(s: State, id: nat, lt: LeaseType): State {
    match lt
    case Session => s.(sessions := RemoveActiveSeq(s.sessions, id))
    case OneShot => if FindActive(s, id, OneShot).Some? then s.(oneshot := None) else s
    case Transport => s.(transports := RemoveActiveSeq(s.transports, id))
    case Barrier => s
  }

  function Release(s: State, id: nat, lt: LeaseType): State {
    if FindActive(s, id, lt).None? then s else Signal(RemoveActive(s, id, lt))
  }

  predicate Expired(a: Active, now: int) {
    a.expiresAt.Some? ==> a.expiresAt.value <= now
  }

  /** The watchdog callback, at whatever moment its timer fires. */
  function ReleaseExpired(s: State, id: nat, lt: LeaseType, now: int): State {
    var a := FindActive(s, id, lt);
    if a.None? || !Expired(a.value, now) then s
    else Signal(RemoveActive(s, id, lt).(forcedReleases := s.forcedReleases + 1))
  }

  function ExtendSeq(xs: seq<Active>, id: nat, until: int): seq<Active> {
    var i := ActiveIndex(xs, id);
    if i < |xs| then xs[i := xs[i].(expiresAt := Some(until))] else xs
  }

  function Touch(s: State, id: nat, lt: LeaseType, now: int): State {
    if s.opts.maxLeaseHold <= 0 || FindActive(s, id, lt).None? then s
    else
      var until := now + s.opts.maxLeaseHold;
      match lt
      case Session => s.(sessions := ExtendSeq(s.sessions, id, until))
      case OneShot => s.(oneshot := Some(s.oneshot.value.(expiresAt := Some(until))))
      case Transport => s.(transports := ExtendSeq(s.transports, id, until))
      case Barrier => s
  }

  function ReleaseBarrier(s: State, id: nat): State {
    if ActiveIndex(s.barriers, id) < |s.barriers|
    then Signal(s.(barriers := RemoveActiveSeq(s.barriers, id)))
    else s
  }

  // ------------------------------------------------------------ watchdog timers

  /** Armed watchdog timers: the lease id and the time the timer is due. */
  type Timers = map<nat, int>

  function ArmOnEnter(armed: Timers, s: State, t: Ticket, at: int): Timers {
    if t.kind == LeaseWait && s.opts.maxLeaseHold > 0 then armed[t.id := at + s.opts.maxLeaseHold] else armed
  }

  function ArmOnTouch(armed: Timers, s: State, id: nat, lt: LeaseType, now: int): Timers {
    if s.opts.maxLeaseHold <= 0 || FindActive(s, id, lt).None? then armed
    else armed[id := now + s.opts.maxLeaseHold]
  }

  function DisarmOnRelease(armed: Timers, s: State, id: nat, lt: LeaseType): Timers {
    if FindActive(s, id, lt).None? then armed else armed - {id}
  }

  /** A callback that comes before the lease's deadline arms the timer for the rest. */
  function RearmOnCallback(armed: Timers, s: State, id: nat, lt: LeaseType, now: int): Timers {
    var a := FindActive(s, id, lt);
    if a.None? then armed
    else if Expired(a.value, now) then armed - {id}
    else armed[id := a.value.expiresAt.value]
  }

  predicate IsIdle(s: State) {
    s.oneshot.None? && s.transports == [] && s.sessions == [] && s.barriers == [] && s.queue == []
  }
}
