/** First come, first in line: the queue is in order of arrival, and no step changes the order
    of those who stay. */
module ArbiterOrder {
  import opened Common
  import opened ArbiterState
  import opened Scheduling
  import opened ArbiterProtocol
  import opened ArbiterInvariant
  import opened ArbiterRuns

  /** `a` waits ahead of `b`. */
  predicate Ahead(q: seq<Ticket>, a: nat, b: nat) {
    TicketIndex(q, a) < TicketIndex(q, b) < |q|
  }

  lemma AppendKeepsAhead(q: seq<Ticket>, t: Ticket, a: nat, b: nat)
    requires DistinctIds(q + [t]) && Ahead(q, a, b)
    ensures Ahead(q + [t], a, b)
  {
    var i, j := TicketIndex(q, a), TicketIndex(q, b);
    assert (q + [t])[i].id == a && (q + [t])[j].id == b;
    OwnIndex(q + [t], i);
    OwnIndex(q + [t], j);
  }

  lemma FoundAfterRemoval(q: seq<Ticket>, gone: nat, i: nat) returns (x: nat)
    requires DistinctIds(q) && gone < |q| && i < |q| && i != gone
    ensures x == if gone < i then i - 1 else i
    ensures x < |RemoveAt(q, gone)| && TicketIndex(RemoveAt(q, gone), q[i].id) == x
  {
    x := if gone < i then i - 1 else i;
    RemoveAtKeepsIds(q, gone);
    assert RemoveAt(q, gone)[x] == q[i];
    hide RemoveAt, TicketIndex;
    OwnIndex(RemoveAt(q, gone), x);
  }

  lemma RemovalKeepsAhead(q: seq<Ticket>, k: nat, a: nat, b: nat)
    requires DistinctIds(q) && Ahead(q, a, b) && k != a && k != b
    ensures Ahead(RemoveTicket(q, k), a, b)
  {
    hide RemoveAt, TicketIndex, DistinctIds;
    var gone := TicketIndex(q, k);
    if gone < |q| {
      var x := FoundAfterRemoval(q, gone, TicketIndex(q, a));
      var y := FoundAfterRemoval(q, gone, TicketIndex(q, b));
    }
  }

  lemma TurnKeepsAhead(sys: Sys, k: nat, now: int, at: int, a: nat, b: nat)
    requires DistinctIds(sys.st.queue) && k in sys.threads && sys.threads[k].ticket.id == k
    requires Ahead(sys.st.queue, a, b)
    requires IsSleeping(Evaluate(sys, k, now, at), a) && IsSleeping(Evaluate(sys, k, now, at), b)
    ensures Ahead(Evaluate(sys, k, now, at).st.queue, a, b)
  {
    hide CanEnter, RemoveTicket, Ahead;
    if CanEnter(SchedOf(sys.st), sys.threads[k].ticket, now) {
      RemovalKeepsAhead(sys.st.queue, k, a, b);
    }
  }

  lemma SectionKeepsQueue(sys: Sys, step: Step)
    requires Enabled(sys, step) && !step.Arrive? && !step.Wake? && !step.ContextDone?
    ensures Apply(sys, step).st.queue == sys.st.queue
  {
    hide FindActive, ExtendSeq, RemoveActiveSeq;
  }

  lemma StepKeepsAhead(sys: Sys, step: Step, a: nat, b: nat)
    requires Inv(sys) && Enabled(sys, step) && Ahead(sys.st.queue, a, b)
    requires IsSleeping(Apply(sys, step), a) && IsSleeping(Apply(sys, step), b)
    ensures Ahead(Apply(sys, step).st.queue, a, b)
  {
    hide Ahead, Evaluate, RemoveTicket;
    match step
    case Arrive(k, now, at) =>
      assert ThreadOk(sys, k);
      InsertKeepsInv(sys, k);
      AppendKeepsAhead(sys.st.queue, sys.threads[k].ticket, a, b);
      TurnKeepsAhead(Insert(sys, k), k, now, at, a, b);
    case Wake(k, now, at) =>
      assert ThreadOk(sys, k);
      TurnKeepsAhead(sys, k, now, at, a, b);
    case ContextDone(k) => RemovalKeepsAhead(sys.st.queue, k, a, b);
    case _ => SectionKeepsQueue(sys, step);
  }

  lemma SleptAllAlong(sys: Sys, mid: Sys, next: Sys, id: nat)
    requires id in sys.threads && Forward(sys, mid, id) && Forward(mid, next, id)
    requires IsSleeping(sys, id) && IsSleeping(next, id)
    ensures IsSleeping(mid, id)
  {}

  /** Over every run, two callers who wait all along keep their order. */
  lemma {:induction false} RunKeepsAhead(sys: Sys, steps: seq<Step>, a: nat, b: nat)
    requires Inv(sys) && Clocked(sys) && Runs(sys, steps)
    requires IsSleeping(sys, a) && IsSleeping(sys, b) && Ahead(sys.st.queue, a, b)
    requires IsSleeping(After(sys, steps), a) && IsSleeping(After(sys, steps), b)
    ensures Ahead(After(sys, steps).st.queue, a, b)
    decreases |steps|
  {
    if |steps| > 0 {
      hide Inv, Clocked, Apply, Enabled, Ahead, Forward;
      var mid := Apply(sys, steps[0]);
      StepMovesForward(sys, steps[0], a);
      StepMovesForward(sys, steps[0], b);
      StepKeepsInv(sys, steps[0]);
      RunMovesForward(mid, steps[1..], a);
      RunMovesForward(mid, steps[1..], b);
      SleptAllAlong(sys, mid, After(mid, steps[1..]), a);
      SleptAllAlong(sys, mid, After(mid, steps[1..]), b);
      StepKeepsAhead(sys, steps[0], a, b);
      RunKeepsAhead(mid, steps[1..], a, b);
    }
  }

  /** The queue is in order of arrival, in every run: whoever arrives while another waits stands
      behind it as long as both wait. */
  lemma QueueIsInArrivalOrder(o: Options, clock: int, before: seq<Step>, arrival: Step, steps: seq<Step>, a: nat)
    requires Runs(Start(o, clock), before) && arrival.Arrive?
    requires var sys := After(Start(o, clock), before);
             && IsSleeping(sys, a) && Enabled(sys, arrival) && Runs(Apply(sys, arrival), steps)
             && IsSleeping(Apply(sys, arrival), a) && IsSleeping(Apply(sys, arrival), arrival.id)
             && IsSleeping(After(Apply(sys, arrival), steps), a)
             && IsSleeping(After(Apply(sys, arrival), steps), arrival.id)
    ensures var sys := After(Start(o, clock), before);
            Ahead(After(Apply(sys, arrival), steps).st.queue, a, arrival.id)
  {
    hide Inv, Clocked, Apply, Enabled, Ahead;
    var sys := After(Start(o, clock), before);
    StartIsClocked(o, clock, before);
    ArrivesBehind(sys, arrival, a);
    StepKeepsInv(sys, arrival);
    StepMovesForward(sys, arrival, a);
    RunKeepsAhead(Apply(sys, arrival), steps, a, arrival.id);
  }

  lemma ArrivesBehind(sys: Sys, arrival: Step, a: nat)
    requires Inv(sys) && arrival.Arrive? && Enabled(sys, arrival) && IsSleeping(sys, a)
    requires IsSleeping(Apply(sys, arrival), a) && IsSleeping(Apply(sys, arrival), arrival.id)
    ensures Ahead(Apply(sys, arrival).st.queue, a, arrival.id)
  {
    hide Evaluate, Inv;
    var mid := Insert(sys, arrival.id);
    NewcomerIsLast(sys, arrival.id, a);
    PlaceOfWaiter(mid, arrival.id);
    OwnTicket(mid, arrival.id);
    assert Ahead(mid.st.queue, a, arrival.id);
    TurnKeepsAhead(mid, arrival.id, arrival.now, arrival.at, a, arrival.id);
  }

  lemma OwnTicket(sys: Sys, id: nat)
    requires Inv(sys) && id in sys.threads
    ensures DistinctIds(sys.st.queue) && sys.threads[id].ticket.id == id
  {
    assert ThreadOk(sys, id);
  }
}
