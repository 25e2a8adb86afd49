/** The table of runs against what happened in the session: a run is queued in the table from
    its creation until it is marked as begun, and never again. */
module AutomationTable {
  import opened Common
  import opened Automation
  import opened AutomationProtocol
  import opened AutomationRuns

  /** The step marks run `id` as begun. */
  ghost predicate IsMark(sys: Sys, step: Step, id: nat)
    requires Enabled(sys, step)
  {
    step.Mark? && sys.lines.loops[step.i].phase.e.run.id == id
  }

  /** Run `id` is marked as begun somewhere along the run. */
  ghost predicate Marks(sys: Sys, steps: seq<Step>, id: nat)
    requires Runs(sys, steps)
    decreases |steps|
  {
    |steps| > 0 && (IsMark(sys, steps[0], id) || Marks(Apply(sys, steps[0]), steps[1..], id))
  }

  ghost predicate TableKnown(sys: Sys) {
    sys.queued.Keys <= sys.known && forall id :: id in sys.known ==> id < sys.nextId
  }

  lemma CreateKnows(sys: Sys, p: nat, devices: seq<string>)
    requires p in sys.producers && TableKnown(sys)
    ensures var next := Create(sys, p, devices);
            && TableKnown(next) && sys.known <= next.known
            && (forall id :: id in next.known && id !in sys.known ==> id >= sys.nextId)
            && (forall id :: id in next.queued ==> id in sys.queued || id >= sys.nextId)
  {}

  lemma StepKnows(sys: Sys, step: Step)
    requires TableKnown(sys) && Enabled(sys, step)
    ensures var next := Apply(sys, step);
            && TableKnown(next) && sys.known <= next.known && sys.nextId <= next.nextId
            && forall id :: id in next.known && id !in sys.known ==> id >= sys.nextId
  {
    hide Create, Open, Push, Pull, Execute, SetPhase, Aborted, HasRoom, CanPull, Lists, PicksUpNothingHanded;
    IdsGrow(sys, step);
    if step.Commit? {
      CreateKnows(sys, step.p, [step.device]);
    } else if step.Claim? {
      CreateKnows(sys, SCHEDULER, step.devices);
    }
  }

  lemma MarkedIsOld(sys: Sys, i: nat)
    requires Inv(sys) && Enabled(sys, Mark(i))
    ensures sys.lines.loops[i].phase.e.run.id < sys.nextId
  {
    MarkedRan(sys, i);
    var e :| e in sys.lines.executed && e.run.id == sys.lines.loops[i].phase.e.run.id;
    var k :| 0 <= k < |sys.lines.executed| && sys.lines.executed[k] == e;
    var _ := ExecutedWasAccepted(sys.lines, k);
  }

  lemma MarkRemoves(sys: Sys, step: Step, id: nat)
    requires Enabled(sys, step) && IsMark(sys, step, id)
    ensures id !in Apply(sys, step).queued && Apply(sys, step).known == sys.known
  {}

  /** An id that was passed over is never given out. */
  lemma {:induction false} StaysUnknown(sys: Sys, steps: seq<Step>, id: nat)
    requires TableKnown(sys) && Runs(sys, steps) && id < sys.nextId && id !in sys.known
    ensures TableKnown(After(sys, steps)) && id !in After(sys, steps).known
    decreases |steps|
  {
    if |steps| > 0 {
      hide TableKnown, Apply, Enabled;
      StepKnows(sys, steps[0]);
      StaysUnknown(Apply(sys, steps[0]), steps[1..], id);
    }
  }

  lemma {:induction false} QueuedExactly(sys: Sys, steps: seq<Step>, id: nat)
    requires Inv(sys) && TableKnown(sys) && Runs(sys, steps)
    ensures var now := After(sys, steps);
            id in now.queued <==> id in now.known && !Marks(sys, steps, id) && (id in sys.known ==> id in sys.queued)
    decreases |steps|
  {
    if |steps| > 0 {
      var step := steps[0];
      StepKeepsInv(sys, step);
      StepKnows(sys, step);
      QueuedExactly(Apply(sys, step), steps[1..], id);
      QueuedChange(sys, step, id);
      if IsMark(sys, step, id) {
        MarkedIsOld(sys, step.i);
        MarkRemoves(sys, step, id);
        if id !in sys.known {
          StaysUnknown(Apply(sys, step), steps[1..], id);
        }
      }
      if !IsMark(sys, step, id) {
        UnmarkedStays(sys, step, id);
      }
    }
  }

  lemma UnmarkedStays(sys: Sys, step: Step, id: nat)
    requires TableKnown(sys) && Enabled(sys, step) && !IsMark(sys, step, id)
    ensures var next := Apply(sys, step);
            (id in next.known ==> id in next.queued) <==> (id in sys.known ==> id in sys.queued)
  {
    hide Apply;
    QueuedChange(sys, step, id);
    StepKnows(sys, step);
    if id in sys.known && id in Apply(sys, step).queued {
      QueuedWasQueued(sys, step, id);
    }
  }

  lemma QueuedWasQueued(sys: Sys, step: Step, id: nat)
    requires TableKnown(sys) && Enabled(sys, step) && id in sys.known && id in Apply(sys, step).queued
    ensures id in sys.queued
  {
    hide Create, Open, Push, Pull, Execute, SetPhase, Aborted, HasRoom, CanPull, Lists, PicksUpNothingHanded;
    if step.Commit? {
      CreateKnows(sys, step.p, [step.device]);
    } else if step.Claim? {
      CreateKnows(sys, SCHEDULER, step.devices);
    }
  }

  /** A run is queued in the table exactly from its creation until it is marked: over every run
      of a session, whatever was found or created and not marked is queued, nothing else. */
  lemma QueuedUntilMarked(queued: map<nat, Run>, nextId: nat, steps: seq<Step>, id: nat)
    requires TableFits(queued, nextId) && Runs(Begun(queued, nextId), steps)
    ensures var now := After(Begun(queued, nextId), steps);
            id in now.queued <==> id in now.known && !Marks(Begun(queued, nextId), steps, id)
  {
    QueuedExactly(Begun(queued, nextId), steps, id);
  }
}
