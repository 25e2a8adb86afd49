/** What holds of automatic tasks over every run of a session. */
module AutomationRuns {
  import opened Common
  import opened Automation
  import opened AutomationProtocol

  // --------------------------------------------------------------------- lines

  lemma OfAppend(d: string, s: seq<Entry>, e: Entry)
    ensures Of(d, s + [e]) == if e.run.device == d then Of(d, s) + [e] else Of(d, s)
  {
    assert (s + [e])[..|s|] == s;
  }

  lemma OpenKeepsLines(lines: Lines, d: string)
    requires LinesFit(lines)
    ensures LinesFit(Open(lines, d))
  {
    if d !in lines.queues {
      var next := Open(lines, d);
      forall x | x in next.queues
        ensures HasLoop(next.loops, x)
      {
        if x == d {
          assert next.loops[|lines.loops|].device == d;
        } else {
          assert HasLoop(lines.loops, x);
          var i :| 0 <= i < |lines.loops| && lines.loops[i].device == x;
          assert next.loops[i].device == x;
        }
      }
      forall i | 0 <= i < |next.loops|
        ensures LineAt(next, next.loops[i]) && (i < |lines.loops| ==> next.loops[i].device != d)
      {
        if i < |lines.loops| {
          assert LineAt(lines, lines.loops[i]);
        } else {
          assert Of(d, lines.accepted) == [] == Of(d, lines.executed);
        }
      }
    }
  }

  lemma PushKeepsLines(lines: Lines, e: Entry)
    requires LinesFit(lines) && HasRoom(lines, e.run.device)
    ensures LinesFit(Push(lines, e))
  {
    var next := Push(lines, e);
    forall i | 0 <= i < |lines.loops|
      ensures LineAt(next, lines.loops[i])
    {
      assert LineAt(lines, lines.loops[i]);
      OfAppend(lines.loops[i].device, lines.accepted, e);
    }
    forall d | d !in next.queues
      ensures Of(d, next.accepted) == []
    {
      OfAppend(d, lines.accepted, e);
    }
  }

  lemma SetPhaseKeepsLoops(loops: seq<Loop>, k: nat, phase: LoopPhase, d: string)
    requires k < |loops| && HasLoop(loops, d)
    ensures HasLoop(loops[k := loops[k].(phase := phase)], d)
  {
    var i :| 0 <= i < |loops| && loops[i].device == d;
    assert loops[k := loops[k].(phase := phase)][i].device == d;
  }

  /** A loop moves on, perhaps with its queue or the record of executions: its own line must
      fit afterwards, and the other lines must not be touched. */
  lemma MoveKeepsLines(lines: Lines, k: nat, phase: LoopPhase, next: Lines)
    requires LinesFit(lines) && k < |lines.loops|
    requires next.loops == lines.loops[k := lines.loops[k].(phase := phase)]
    requires next.accepted == lines.accepted && next.queues.Keys == lines.queues.Keys
    requires forall d :: d != lines.loops[k].device ==>
                           Of(d, next.executed) == Of(d, lines.executed)
                           && (d in lines.queues ==> next.queues[d] == lines.queues[d])
    requires LineAt(next, next.loops[k])
    ensures LinesFit(next)
  {
    forall i | 0 <= i < |next.loops|
      ensures LineAt(next, next.loops[i])
    {
      assert LineAt(lines, lines.loops[i]);
    }
    forall d | d in next.queues
      ensures HasLoop(next.loops, d)
    {
      assert HasLoop(lines.loops, d);
      SetPhaseKeepsLoops(lines.loops, k, phase, d);
    }
    assert LineAt(lines, lines.loops[k]);
  }

  lemma PullKeepsLines(lines: Lines, k: nat)
    requires LinesFit(lines) && CanPull(lines, k)
    ensures LinesFit(Pull(lines, k))
  {
    var next := Pull(lines, k);
    assert LineAt(lines, lines.loops[k]);
    var queue := lines.queues[lines.loops[k].device];
    assert queue == [queue[0]] + queue[1..];
    MoveKeepsLines(lines, k, next.loops[k].phase, next);
  }

  lemma PhaseKeepsLines(lines: Lines, k: nat, phase: LoopPhase)
    requires LinesFit(lines) && k < |lines.loops|
    requires Held(phase) == Held(lines.loops[k].phase) && !phase.Executing?
    ensures LinesFit(SetPhase(lines, k, phase))
  {
    assert LineAt(lines, lines.loops[k]);
    MoveKeepsLines(lines, k, phase, SetPhase(lines, k, phase));
  }

  lemma ExecuteKeepsLines(lines: Lines, k: nat, cancelled: bool)
    requires LinesFit(lines) && k < |lines.loops| && lines.loops[k].phase.Received?
    ensures LinesFit(Execute(lines, k, cancelled))
  {
    var e := lines.loops[k].phase.e;
    if cancelled {
      PhaseKeepsLines(lines, k, Exited([e]));
    } else {
      var next := Execute(lines, k, false);
      var d := lines.loops[k].device;
      assert LineAt(lines, lines.loops[k]);
      assert e in Held(lines.loops[k].phase);
      forall x
        ensures Of(x, next.executed) == if x == d then Of(x, lines.executed) + [e] else Of(x, lines.executed)
      {
        OfAppend(x, lines.executed, e);
      }
      assert Of(d, lines.executed) + [e] + lines.queues[d] == Of(d, next.executed) + [] + next.queues[d];
      MoveKeepsLines(lines, k, Executing(e), next);
    }
  }

  lemma StepKeepsLines(sys: Sys, step: Step)
    requires LinesFit(sys.lines) && Enabled(sys, step)
    ensures LinesFit(Apply(sys, step).lines)
  {
    match step
    case Register(p) => OpenKeepsLines(sys.lines, sys.producers[p].todo[0].device);
    case Send(p) => PushKeepsLines(sys.lines, Entry(sys.producers[p].todo[0], sys.producers[p].origin));
    case Receive(i) => PullKeepsLines(sys.lines, i);
    case Check(i) => ExecuteKeepsLines(sys.lines, i, sys.cancelled);
    case Finish(i) => PhaseKeepsLines(sys.lines, i, Idle);
    case Exit(i) => PhaseKeepsLines(sys.lines, i, Exited([]));
    case _ => assert Apply(sys, step).lines == sys.lines;
  }

  // ----------------------------------------------------------------- producers

  lemma SetKeepsProducers(producers: map<nat, Producer>, queues: Queues, recovered: bool,
                          p: nat, producer: Producer, more: Queues)
    requires AllFit(producers, queues, recovered) && ProducerFits(p, producer, more, recovered)
    requires queues.Keys <= more.Keys
    ensures AllFit(producers[p := producer], more, recovered)
  {
    forall q | q in producers
      ensures ProducerFits(q, producers[q], more, recovered)
    {
      assert ProducerFits(q, producers[q], queues, recovered);
    }
  }

  /** The producer a step moves. */
  function Moved(step: Step): Option<nat> {
    match step
    case RunNow(p) => Some(p)
    case Commit(p, _) => Some(p)
    case SchedulerGo => Some(SCHEDULER)
    case SchedulerQuit => Some(SCHEDULER)
    case Claim(_) => Some(SCHEDULER)
    case Register(p) => Some(p)
    case Send(p) => Some(p)
    case SendCancelled(p) => Some(p)
    case ProducerEnds(p) => Some(p)
    case _ => None
  }

  /** What a producer carries it carried before, or it is new in the table. */
  ghost predicate TodoFrom(before: map<nat, Producer>, p: nat, todo: seq<Run>, low: nat, high: nat) {
    forall r :: r in todo ==> Carried(before, p, r) || low <= r.id < high
  }

  lemma EnqueueFits(sys: Sys, step: Step, p: nat)
    requires ProducersFit(sys) && Enabled(sys, step) && Moved(step) == Some(p)
    requires step.Register? || step.Send?
    ensures var next := Apply(sys, step);
            && p in next.producers && next.producers == sys.producers[p := next.producers[p]]
            && ProducerFits(p, next.producers[p], next.lines.queues, next.recovered)
            && sys.lines.queues.Keys <= next.lines.queues.Keys && next.recovered == sys.recovered
  {
    assert ProducerFits(p, sys.producers[p], sys.lines.queues, sys.recovered);
  }

  lemma MovedFits(sys: Sys, step: Step, p: nat)
    requires ProducersFit(sys) && Enabled(sys, step) && Moved(step) == Some(p)
    ensures var next := Apply(sys, step);
            && p in next.producers && next.producers == sys.producers[p := next.producers[p]]
            && ProducerFits(p, next.producers[p], next.lines.queues, next.recovered)
            && sys.lines.queues.Keys <= next.lines.queues.Keys && next.recovered == sys.recovered
  {
    if step.Register? || step.Send? {
      EnqueueFits(sys, step, p);
    } else {
      assert Apply(sys, step).lines == sys.lines;
      assert p in sys.producers ==> ProducerFits(p, sys.producers[p], sys.lines.queues, sys.recovered);
    }
  }

  lemma StepKeepsProducers(sys: Sys, step: Step)
    requires ProducersFit(sys) && Enabled(sys, step)
    ensures ProducersFit(Apply(sys, step))
  {
    var next := Apply(sys, step);
    if Moved(step).Some? {
      var p := Moved(step).value;
      MovedFits(sys, step, p);
      SetKeepsProducers(sys.producers, sys.lines.queues, sys.recovered, p, next.producers[p], next.lines.queues);
    } else if step.Recover? {
      forall p | p in next.producers
        ensures ProducerFits(p, next.producers[p], next.lines.queues, true)
      {
        assert p in sys.producers ==> ProducerFits(p, sys.producers[p], sys.lines.queues, sys.recovered);
      }
    } else {
      assert next.producers == sys.producers && next.recovered == sys.recovered;
      assert next.lines.queues.Keys == sys.lines.queues.Keys;
      forall p | p in sys.producers
        ensures ProducerFits(p, sys.producers[p], next.lines.queues, sys.recovered)
      {
        assert ProducerFits(p, sys.producers[p], sys.lines.queues, sys.recovered);
      }
    }
  }

  // ------------------------------------------------------------ recovery first

  lemma SendKeepsRecovery(sys: Sys, p: nat)
    requires ProducersFit(sys) && RecoveryFits(sys) && Enabled(sys, Send(p))
    ensures RecoveryFits(Apply(sys, Send(p)))
  {
    assert ProducerFits(p, sys.producers[p], sys.lines.queues, sys.recovered);
  }

  lemma QuietKeepsAccepted(sys: Sys, step: Step)
    requires Enabled(sys, step) && !step.Send?
    ensures Apply(sys, step).lines.accepted == sys.lines.accepted
  {
    if step.Register? {
    } else if step.Receive? {
    } else if step.Check? {
    } else if step.Finish? || step.Exit? {
    } else {
      assert Apply(sys, step).lines == sys.lines;
    }
  }

  lemma MoveKeepsRecovery(sys: Sys, step: Step)
    requires ProducersFit(sys) && RecoveryFits(sys) && Enabled(sys, step) && Moved(step).Some? && !step.Send?
    ensures RecoveryFits(Apply(sys, step))
  {
    hide FreshRuns, Rows, Open, Push, Pull, Execute, SetPhase, Lists, PicksUpNothingHanded, HasRoom, CanPull;
    var p := Moved(step).value;
    assert p in sys.producers ==> ProducerFits(p, sys.producers[p], sys.lines.queues, sys.recovered);
    assert Apply(sys, step).lines.accepted == sys.lines.accepted by {
      QuietKeepsAccepted(sys, step);
    }
  }

  lemma OtherKeepsRecovery(sys: Sys, step: Step)
    requires ProducersFit(sys) && RecoveryFits(sys) && Enabled(sys, step) && Moved(step).None?
    ensures RecoveryFits(Apply(sys, step))
  {
    hide Open, Push, Pull, Execute, SetPhase, HasRoom, CanPull;
    QuietKeepsAccepted(sys, step);
    assert forall p :: p in sys.producers ==> ProducerFits(p, sys.producers[p], sys.lines.queues, sys.recovered);
  }

  lemma StepKeepsRecovery(sys: Sys, step: Step)
    requires ProducersFit(sys) && RecoveryFits(sys) && Enabled(sys, step)
    ensures RecoveryFits(Apply(sys, step))
  {
    hide ProducersFit, RecoveryFits, Apply, Enabled;
    if step.Send? {
      SendKeepsRecovery(sys, step.p);
    } else if Moved(step).Some? {
      MoveKeepsRecovery(sys, step);
    } else {
      OtherKeepsRecovery(sys, step);
    }
  }

  // -------------------------------------------------------------- nothing lost

  lemma {:induction false} OfMember(d: string, s: seq<Entry>, e: Entry)
    requires e in Of(d, s)
    ensures e in s
  {
    if s[|s| - 1].run.device == d && s[|s| - 1] == e {
    } else {
      OfMember(d, s[..|s| - 1], e);
    }
  }

  lemma MarkedRan(sys: Sys, i: nat)
    requires LinesFit(sys.lines) && Enabled(sys, Mark(i))
    ensures Ran(sys.lines.executed, sys.lines.loops[i].phase.e.run.id)
  {
    var loop := sys.lines.loops[i];
    assert LineAt(sys.lines, loop);
    OfMember(loop.device, sys.lines.executed, loop.phase.e);
  }

  lemma ExecutedGrows(sys: Sys, step: Step)
    requires Enabled(sys, step)
    ensures sys.lines.executed <= Apply(sys, step).lines.executed
  {
    if !step.Check? {
      assert Apply(sys, step).lines.executed == sys.lines.executed;
    }
  }

  lemma RanStays(before: seq<Entry>, after: seq<Entry>, id: nat)
    requires before <= after && Ran(before, id)
    ensures Ran(after, id)
  {
    var e :| e in before && e.run.id == id;
    assert e in after;
  }

  /** A run leaves the queued rows only after its execution began; new rows are queued. */
  lemma QueuedChange(sys: Sys, step: Step, id: nat)
    requires Enabled(sys, step)
    ensures var next := Apply(sys, step);
            && (id in sys.queued && id !in next.queued ==> step.Mark? && sys.lines.loops[step.i].phase.e.run.id == id)
            && (id in next.known && id !in sys.known ==> id in next.queued)
  {
    hide Create, Open, Push, Pull, Execute, SetPhase, Aborted, HasRoom, CanPull;
    match step
    case Commit(p, device) => CreateChange(sys, p, [device], id);
    case Claim(devices) => CreateChange(sys, SCHEDULER, devices, id);
    case _ =>
  }

  lemma CreateChange(sys: Sys, p: nat, devices: seq<string>, id: nat)
    requires p in sys.producers
    ensures var next := Create(sys, p, devices);
            && (id in sys.queued ==> id in next.queued)
            && (id in next.known && id !in sys.known ==> id in next.queued)
  {}

  lemma StepKeepsNothingLost(sys: Sys, step: Step)
    requires LinesFit(sys.lines) && NothingLost(sys) && Enabled(sys, step)
    ensures NothingLost(Apply(sys, step))
  {
    var next := Apply(sys, step);
    ExecutedGrows(sys, step);
    forall id | id in next.known
      ensures id in next.queued || Ran(next.lines.executed, id)
    {
      QueuedChange(sys, step, id);
      if Ran(sys.lines.executed, id) {
        RanStays(sys.lines.executed, next.lines.executed, id);
      } else if step.Mark? {
        MarkedRan(sys, step.i);
      }
    }
  }

  // ----------------------------------------------------------------------- ids

  lemma CreateTodo(sys: Sys, p: nat, devices: seq<string>)
    requires p in sys.producers
    ensures var next := Create(sys, p, devices);
            && p in next.producers && sys.nextId <= next.nextId
            && TodoFrom(sys.producers, p, next.producers[p].todo, sys.nextId, next.nextId)
  {}

  /** A producer's todo after a step: what it was, its tail, nothing, or new rows. */
  lemma MovedTodo(sys: Sys, step: Step, p: nat)
    requires ProducersFit(sys) && Enabled(sys, step) && Moved(step) == Some(p)
    ensures var next := Apply(sys, step);
            p in next.producers
            && TodoFrom(sys.producers, p, next.producers[p].todo, sys.nextId, next.nextId)
  {
    hide ProducersFit, Create, Open, Push, Rows, FreshRuns, HasRoom;
    if step.Commit? {
      CreateTodo(sys, p, [step.device]);
    } else if step.Claim? {
      CreateTodo(sys, p, step.devices);
    } else {
      assert p in Apply(sys, step).producers;
    }
  }

  lemma IdsGrow(sys: Sys, step: Step)
    requires Enabled(sys, step)
    ensures sys.nextId <= Apply(sys, step).nextId
  {
    hide FreshRuns, Rows, Create, PicksUpNothingHanded;
    if step.Commit? {
      CreateTodo(sys, step.p, [step.device]);
    } else if step.Claim? {
      CreateTodo(sys, SCHEDULER, step.devices);
    } else {
      assert Apply(sys, step).nextId == sys.nextId;
    }
  }

  lemma TodoIds(sys: Sys, step: Step, p: nat, r: Run)
    requires ProducersFit(sys) && IdsFit(sys) && Enabled(sys, step) && Carried(Apply(sys, step).producers, p, r)
    ensures r.id < Apply(sys, step).nextId
  {
    var next := Apply(sys, step);
    IdsGrow(sys, step);
    if Moved(step).Some? {
      hide Apply, Enabled, ProducersFit, ProducerFits;
      var q := Moved(step).value;
      MovedTodo(sys, step, q);
      MovedFits(sys, step, q);
      assert p != q ==> Carried(sys.producers, p, r);
    } else if step.Recover? {
      assert p == RECOVERY || Carried(sys.producers, p, r);
    } else {
      assert Carried(sys.producers, p, r);
    }
  }

  lemma StepKeepsIds(sys: Sys, step: Step)
    requires ProducersFit(sys) && IdsFit(sys) && Enabled(sys, step)
    ensures IdsFit(Apply(sys, step))
  {
    var next := Apply(sys, step);
    forall p: nat, r | Carried(next.producers, p, r)
      ensures r.id < next.nextId
    {
      TodoIds(sys, step, p, r);
    }
    if step.Send? {
      assert Carried(sys.producers, step.p, sys.producers[step.p].todo[0]);
    }
  }

  // ---------------------------------------------------------------------- once

  /** A producer keeps what it carried, or lets go of all of it. */
  lemma KeepKeepsOnce(accepted: seq<Entry>, producers: map<nat, Producer>, p: nat, producer: Producer)
    requires Once(accepted, producers)
    requires producer.todo == [] || (p in producers && producer.todo == producers[p].todo)
    ensures Once(accepted, producers[p := producer])
  {
    var next := producers[p := producer];
    assert forall q: nat, r :: Carried(next, q, r) ==> Carried(producers, q, r);
  }

  lemma SendKeepsOnce(accepted: seq<Entry>, producers: map<nat, Producer>, p: nat, producer: Producer, e: Entry)
    requires Once(accepted, producers) && p in producers && producers[p].todo != []
    requires producer.todo == producers[p].todo[1..] && e.run == producers[p].todo[0]
    ensures Once(accepted + [e], producers[p := producer])
  {
    var next := producers[p := producer];
    assert Carried(producers, p, e.run);
    assert DistinctRuns(producers[p].todo);
    forall q: nat, r | Carried(next, q, r)
      ensures Carried(producers, q, r) && r.id != e.run.id
    {
      if q == p {
        var i :| 0 <= i < |producer.todo| && producer.todo[i] == r;
        assert producers[p].todo[i + 1] == r;
      } else {
        assert Carried(producers, q, r);
      }
    }
    forall i | 0 <= i < |accepted|
      ensures accepted[i].run.id != e.run.id
    {
      assert accepted[i] in accepted;
    }
  }

  /** New runs, of ids nobody has seen. */
  lemma FreshKeepsOnce(sys: Sys, p: nat, producer: Producer)
    requires IdsFit(sys) && Once(sys.lines.accepted, sys.producers)
    requires DistinctRuns(producer.todo) && forall r :: r in producer.todo ==> r.id >= sys.nextId
    ensures Once(sys.lines.accepted, sys.producers[p := producer])
  {
    var next := sys.producers[p := producer];
    forall q: nat, r | Carried(next, q, r)
      ensures if q == p then r.id >= sys.nextId else Carried(sys.producers, q, r) && r.id < sys.nextId
    {
      if q != p {
        assert Carried(sys.producers, q, r);
      }
    }
  }

  lemma MoveKeepsOnce(sys: Sys, step: Step, p: nat)
    requires ProducersFit(sys) && IdsFit(sys) && Once(sys.lines.accepted, sys.producers)
    requires Enabled(sys, step) && Moved(step) == Some(p)
    ensures Once(Apply(sys, step).lines.accepted, Apply(sys, step).producers)
  {
    var next := Apply(sys, step);
    MovedFits(sys, step, p);
    if step.Commit? || step.Claim? {
      FreshKeepsOnce(sys, p, next.producers[p]);
    } else if step.Send? {
      SendKeepsOnce(sys.lines.accepted, sys.producers, p, next.producers[p],
                    Entry(sys.producers[p].todo[0], sys.producers[p].origin));
    } else {
      KeepKeepsOnce(sys.lines.accepted, sys.producers, p, next.producers[p]);
    }
  }

  /** Recovery keeps every run in one place if and only if it picks up no run that this
      session has handed out: the rows found queued must not contain a run `RunNow`
      committed after `Start` had let it in. */
  lemma RecoverIsCleanIff(sys: Sys, list: seq<Run>)
    requires ProducersFit(sys) && Enabled(sys, Recover(list)) && Once(sys.lines.accepted, sys.producers)
    ensures var next := Apply(sys, Recover(list));
            Once(next.lines.accepted, next.producers) <==> PicksUpNothingHanded(sys, list)
  {
    var next := Apply(sys, Recover(list));
    forall p | p in sys.producers
      ensures p > SCHEDULER && next.producers[p] == sys.producers[p]
    {
      assert ProducerFits(p, sys.producers[p], sys.lines.queues, sys.recovered);
    }
    PickUp(sys.lines.accepted, sys.producers, next.producers, list);
  }

  /** The map of producers grows by one that carries `list` and one that carries nothing. */
  lemma PickUp(accepted: seq<Entry>, producers: map<nat, Producer>, next: map<nat, Producer>, list: seq<Run>)
    requires Once(accepted, producers) && DistinctRuns(list)
    requires forall p :: p in producers ==> p > SCHEDULER && p in next && next[p] == producers[p]
    requires next.Keys == producers.Keys + {RECOVERY, SCHEDULER}
    requires next[RECOVERY].todo == list && next[SCHEDULER].todo == []
    ensures Once(accepted, next) <==>
            forall r :: r in list ==>
              (forall e :: e in accepted ==> e.run.id != r.id)
              && (forall p: nat, q :: Carried(producers, p, q) ==> q.id != r.id)
  {
    assert forall p: nat, r :: Carried(producers, p, r) ==> Carried(next, p, r) && p != RECOVERY;
    assert forall r :: r in list ==> Carried(next, RECOVERY, r);
    forall p: nat, r | Carried(next, p, r)
      ensures if p == RECOVERY then r in list else Carried(producers, p, r)
    {}
  }

  lemma StepKeepsOnce(sys: Sys, step: Step)
    requires Inv(sys) && Enabled(sys, step)
    ensures var next := Apply(sys, step);
            (next.clean ==> Once(next.lines.accepted, next.producers)) && (next.clean || next.recovered)
  {
    if Moved(step).Some? {
      if sys.clean {
        MoveKeepsOnce(sys, step, Moved(step).value);
      }
      MovedFits(sys, step, Moved(step).value);
    } else if step.Recover? {
      RecoverIsCleanIff(sys, step.list);
    }
  }

  lemma StepKeepsInv(sys: Sys, step: Step)
    requires Inv(sys) && Enabled(sys, step)
    ensures Inv(Apply(sys, step))
  {
    StepKeepsLines(sys, step);
    StepKeepsProducers(sys, step);
    StepKeepsRecovery(sys, step);
    StepKeepsNothingLost(sys, step);
    StepKeepsIds(sys, step);
    StepKeepsOnce(sys, step);
  }

  // ---------------------------------------------------------------------- runs

  ghost predicate Runs(sys: Sys, steps: seq<Step>)
    decreases |steps|
  {
    |steps| > 0 ==> Enabled(sys, steps[0]) && Runs(Apply(sys, steps[0]), steps[1..])
  }

  ghost function After(sys: Sys, steps: seq<Step>): Sys
    requires Runs(sys, steps)
    decreases |steps|
  {
    if |steps| == 0 then sys else After(Apply(sys, steps[0]), steps[1..])
  }

  lemma {:induction false} RunKeepsInv(sys: Sys, steps: seq<Step>)
    requires Inv(sys) && Runs(sys, steps)
    ensures Inv(After(sys, steps))
    decreases |steps|
  {
    if |steps| > 0 {
      hide Inv, Apply, Enabled;
      StepKeepsInv(sys, steps[0]);
      RunKeepsInv(Apply(sys, steps[0]), steps[1..]);
    }
  }

  /** `next` can be reached from `sys`. */
  ghost predicate Reaches(sys: Sys, next: Sys) {
    exists steps :: Runs(sys, steps) && After(sys, steps) == next
  }

  lemma {:induction false} RunsSnoc(sys: Sys, steps: seq<Step>, step: Step)
    requires Runs(sys, steps) && Enabled(After(sys, steps), step)
    ensures Runs(sys, steps + [step]) && After(sys, steps + [step]) == Apply(After(sys, steps), step)
    decreases |steps|
  {
    if |steps| == 0 {
      assert steps + [step] == [step] && [step][1..] == [];
    } else {
      RunsSnoc(Apply(sys, steps[0]), steps[1..], step);
      assert (steps + [step])[0] == steps[0] && (steps + [step])[1..] == steps[1..] + [step];
    }
  }

  lemma Onward(sys: Sys, mid: Sys, step: Step)
    requires Reaches(sys, mid) && Enabled(mid, step)
    ensures Reaches(sys, Apply(mid, step))
  {
    var steps :| Runs(sys, steps) && After(sys, steps) == mid;
    RunsSnoc(sys, steps, step);
  }

  lemma Stay(sys: Sys)
    ensures Reaches(sys, sys)
  {
    assert Runs(sys, []) && After(sys, []) == sys;
  }

  lemma SessionInv(queued: map<nat, Run>, nextId: nat, steps: seq<Step>)
    requires TableFits(queued, nextId) && Runs(Begun(queued, nextId), steps)
    ensures Inv(After(Begun(queued, nextId), steps))
  {
    RunKeepsInv(Begun(queued, nextId), steps);
  }

  // ------------------------------------------------------------------ theorems

  /** In every line, what was executed is a prefix of what was accepted. */
  lemma ExecutedIsPrefix(lines: Lines, d: string)
    requires LinesFit(lines)
    ensures Of(d, lines.executed) <= Of(d, lines.accepted)
  {
    if d in lines.queues {
      assert HasLoop(lines.loops, d);
      var i :| 0 <= i < |lines.loops| && lines.loops[i].device == d;
      assert LineAt(lines, lines.loops[i]);
    } else {
      assert Of(d, lines.accepted) == [] == Of(d, lines.executed);
    }
  }

  /** Per device, over every run: executions follow the order of acceptance and skip
      nothing; what is missing at the end is what the loop holds and what is queued. */
  lemma ExecutedInAcceptedOrder(queued: map<nat, Run>, nextId: nat, steps: seq<Step>, d: string)
    requires TableFits(queued, nextId) && Runs(Begun(queued, nextId), steps)
    ensures var lines := After(Begun(queued, nextId), steps).lines;
            && Of(d, lines.executed) <= Of(d, lines.accepted)
            && forall i :: 0 <= i < |lines.loops| && lines.loops[i].device == d ==>
                 d in lines.queues
                 && Of(d, lines.accepted) == Of(d, lines.executed) + Held(lines.loops[i].phase) + lines.queues[d]
  {
    SessionInv(queued, nextId, steps);
    var lines := After(Begun(queued, nextId), steps).lines;
    ExecutedIsPrefix(lines, d);
    forall i | 0 <= i < |lines.loops| && lines.loops[i].device == d
      ensures d in lines.queues
              && Of(d, lines.accepted) == Of(d, lines.executed) + Held(lines.loops[i].phase) + lines.queues[d]
    {
      assert LineAt(lines, lines.loops[i]);
    }
  }

  /** One run at a time: two loops that execute for the same device are the same loop, and
      the run it executes is the latest of its device. */
  lemma OneRunAtATime(queued: map<nat, Run>, nextId: nat, steps: seq<Step>, i: nat, j: nat)
    requires TableFits(queued, nextId) && Runs(Begun(queued, nextId), steps)
    requires var loops := After(Begun(queued, nextId), steps).lines.loops;
             i < |loops| && j < |loops| && loops[i].phase.Executing? && loops[j].phase.Executing?
             && loops[i].phase.e.run.device == loops[j].phase.e.run.device
    ensures i == j
    ensures var lines := After(Begun(queued, nextId), steps).lines;
            var done := Of(lines.loops[i].device, lines.executed);
            |done| > 0 && done[|done| - 1] == lines.loops[i].phase.e
  {
    SessionInv(queued, nextId, steps);
    var lines := After(Begun(queued, nextId), steps).lines;
    ExecutesOwn(lines, i);
    ExecutesOwn(lines, j);
  }

  lemma ExecutesOwn(lines: Lines, i: nat)
    requires LinesFit(lines) && i < |lines.loops| && lines.loops[i].phase.Executing?
    ensures var done := Of(lines.loops[i].device, lines.executed);
            |done| > 0 && done[|done| - 1] == lines.loops[i].phase.e
    ensures lines.loops[i].phase.e.run.device == lines.loops[i].device
  {
    assert LineAt(lines, lines.loops[i]);
    OfDevice(lines.loops[i].device, lines.executed);
  }

  lemma {:induction false} OfDevice(d: string, s: seq<Entry>)
    ensures AllFor(d, Of(d, s))
  {
    if |s| > 0 {
      OfDevice(d, s[..|s| - 1]);
    }
  }

  lemma {:induction false} OfKeepsRecoveredFirst(d: string, s: seq<Entry>)
    requires RecoveredFirst(s)
    ensures RecoveredFirst(Of(d, s))
  {
    if |s| > 0 {
      var rest := Of(d, s[..|s| - 1]);
      OfKeepsRecoveredFirst(d, s[..|s| - 1]);
      forall i | 0 <= i < |rest|
        ensures !(rest[i].origin == Scheduled && s[|s| - 1].origin == Recovered)
      {
        OfMember(d, s[..|s| - 1], rest[i]);
        var k :| 0 <= k < |s| - 1 && s[..|s| - 1][k] == rest[i];
        assert s[k] == rest[i];
      }
    }
  }

  /** Recovered runs come first: on no device is a recovered run accepted, let alone
      executed, after one that the scheduler claimed. */
  lemma RecoveredRunsComeFirst(queued: map<nat, Run>, nextId: nat, steps: seq<Step>, d: string)
    requires TableFits(queued, nextId) && Runs(Begun(queued, nextId), steps)
    ensures var lines := After(Begun(queued, nextId), steps).lines;
            RecoveredFirst(lines.accepted) && RecoveredFirst(Of(d, lines.executed))
  {
    SessionInv(queued, nextId, steps);
    var lines := After(Begun(queued, nextId), steps).lines;
    OfKeepsRecoveredFirst(d, lines.accepted);
    ExecutedIsPrefix(lines, d);
  }

  /** Whatever is cut short, no run disappears: every run the session found or created is
      still queued in the table, for the next session to recover, or was executed. */
  lemma NoRunIsLost(queued: map<nat, Run>, nextId: nat, steps: seq<Step>, id: nat)
    requires TableFits(queued, nextId) && Runs(Begun(queued, nextId), steps)
    requires id in After(Begun(queued, nextId), steps).known
    ensures var now := After(Begun(queued, nextId), steps);
            id in now.queued || Ran(now.lines.executed, id)
  {
    SessionInv(queued, nextId, steps);
  }

  lemma {:induction false} OfKeepsDistinct(d: string, s: seq<Entry>)
    requires DistinctIds(s)
    ensures DistinctIds(Of(d, s))
  {
    if |s| > 0 {
      var rest := Of(d, s[..|s| - 1]);
      OfKeepsDistinct(d, s[..|s| - 1]);
      forall i | 0 <= i < |rest|
        ensures rest[i].run.id != s[|s| - 1].run.id
      {
        OfMember(d, s[..|s| - 1], rest[i]);
        var k :| 0 <= k < |s| - 1 && s[..|s| - 1][k] == rest[i];
        assert s[k] == rest[i];
      }
    }
  }

  lemma {:induction false} OfContains(d: string, s: seq<Entry>, k: nat) returns (at: nat)
    requires k < |s| && s[k].run.device == d
    ensures at < |Of(d, s)| && Of(d, s)[at] == s[k]
    ensures at == |Of(d, s[..k])|
  {
    if k == |s| - 1 {
      at := |Of(d, s[..k])|;
    } else {
      at := OfContains(d, s[..|s| - 1], k);
      assert s[..|s| - 1][..k] == s[..k];
    }
  }

  lemma {:induction false} OfShorter(d: string, s: seq<Entry>, i: nat, j: nat)
    requires i < j <= |s| && s[i].run.device == d
    ensures |Of(d, s[..i])| < |Of(d, s[..j])|
    decreases j
  {
    assert s[..j][..j - 1] == s[..j - 1];
    if i < j - 1 {
      OfShorter(d, s, i, j - 1);
    }
  }

  /** If no run was accepted twice, none is executed twice. */
  lemma AcceptedOnceRunsOnce(lines: Lines)
    requires LinesFit(lines) && DistinctIds(lines.accepted)
    ensures DistinctIds(lines.executed)
  {
    forall i: nat, j: nat | i < j < |lines.executed|
      ensures lines.executed[i].run.id != lines.executed[j].run.id
    {
      ExecutedTwoDiffer(lines, i, j);
    }
  }

  /** As long as nobody carries a run twice, none is executed twice. */
  lemma CleanMeansRunOnce(sys: Sys)
    requires Inv(sys) && sys.clean
    ensures DistinctIds(sys.lines.executed)
  {
    AcceptedOnceRunsOnce(sys.lines);
  }

  lemma ExecutedWasAccepted(lines: Lines, i: nat) returns (at: nat)
    requires LinesFit(lines) && i < |lines.executed|
    ensures var d := lines.executed[i].run.device;
            at == |Of(d, lines.executed[..i])| && at < |Of(d, lines.accepted)|
            && Of(d, lines.accepted)[at] == lines.executed[i]
    ensures lines.executed[i] in lines.accepted
  {
    var d := lines.executed[i].run.device;
    at := OfContains(d, lines.executed, i);
    ExecutedIsPrefix(lines, d);
    OfMember(d, lines.accepted, Of(d, lines.accepted)[at]);
  }

  lemma ExecutedTwoDiffer(lines: Lines, i: nat, j: nat)
    requires LinesFit(lines) && DistinctIds(lines.accepted) && i < j < |lines.executed|
    ensures lines.executed[i].run.id != lines.executed[j].run.id
  {
    var a := ExecutedWasAccepted(lines, i);
    var b := ExecutedWasAccepted(lines, j);
    if lines.executed[i].run.device == lines.executed[j].run.device {
      OfKeepsDistinct(lines.executed[i].run.device, lines.accepted);
      OfShorter(lines.executed[i].run.device, lines.executed, i, j);
    } else {
      var k :| 0 <= k < |lines.accepted| && lines.accepted[k] == lines.executed[i];
      var l :| 0 <= l < |lines.accepted| && lines.accepted[l] == lines.executed[j];
      assert k != l;
    }
  }

  // ---------------------------------------------------------------------- stop

  /** `Stop` has taken the flag back and every loop it waits for has returned. */
  ghost predicate Stopped(sys: Sys) {
    && !sys.started
    && forall i :: 0 <= i < |sys.lines.loops| ==> sys.lines.loops[i].phase.Exited?
  }

  lemma StoppedStep(sys: Sys, step: Step)
    requires Stopped(sys) && Enabled(sys, step)
    ensures Stopped(Apply(sys, step))
    ensures Apply(sys, step).lines.executed == sys.lines.executed
    ensures Apply(sys, step).lines.loops == sys.lines.loops
  {}

  /** After a completed Stop no run is executed and no loop comes back, although callers of
      `RunNow` that were let in before may still commit runs and put them into a queue. */
  lemma {:induction false} NothingRunsAfterStop(sys: Sys, steps: seq<Step>)
    requires Stopped(sys) && Runs(sys, steps)
    ensures After(sys, steps).lines.executed == sys.lines.executed
    ensures After(sys, steps).lines.loops == sys.lines.loops
    decreases |steps|
  {
    if |steps| > 0 {
      StoppedStep(sys, steps[0]);
      NothingRunsAfterStop(Apply(sys, steps[0]), steps[1..]);
    }
  }
}
