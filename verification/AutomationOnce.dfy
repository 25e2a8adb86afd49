/** When no run is executed twice: exactly when recovery picks up only rows that were in the
    table before `Start`, or the session has been stopped or cancelled by then. A newer row
    was committed by `RunNow`, which is let in as soon as `Start` has set `started`, and is
    handed out a second time. */
module AutomationOnce {
  import opened Common
  import opened Automation
  import opened AutomationProtocol
  import opened AutomationRuns

  /** What a caller of recovery can see: every row is older than the session. */
  predicate OnlyOldRows(list: seq<Run>, nextId: nat) {
    forall r :: r in list ==> r.id < nextId
  }

  // ----------------------------------------------------------- before recovery

  /** Until recovery, whatever was handed out is new; and as long as the session runs
      undisturbed, whatever is new has been handed out. */
  ghost predicate NewIsHanded(sys: Sys, nextId: nat) {
    && nextId <= sys.nextId
    && (forall e :: e in sys.lines.accepted ==> e.run.id >= nextId)
    && (forall p: nat, r :: Carried(sys.producers, p, r) ==> r.id >= nextId)
    && (sys.started && !sys.cancelled ==> forall id :: id in sys.queued && id >= nextId ==> Handed(sys, id))
  }

  lemma AcceptedIsHanded(sys: Sys, e: Entry)
    requires e in sys.lines.accepted
    ensures Handed(sys, e.run.id)
  {}

  lemma CarriedIsHanded(sys: Sys, p: nat, r: Run)
    requires Carried(sys.producers, p, r)
    ensures Handed(sys, r.id)
  {}

  /** An undisturbed step takes nothing out of the hands it is in. */
  lemma HandedStays(sys: Sys, step: Step, id: nat)
    requires ProducersFit(sys) && Enabled(sys, step) && !sys.recovered && sys.started && !sys.cancelled
    requires Handed(sys, id)
    ensures Handed(Apply(sys, step), id)
  {
    var next := Apply(sys, step);
    if e :| e in sys.lines.accepted && e.run.id == id {
      assert e in next.lines.accepted;
      AcceptedIsHanded(next, e);
    } else {
      var p: nat, r :| Carried(sys.producers, p, r) && r.id == id;
      CarriedStays(sys, step, p, r);
    }
  }

  lemma CarriedStays(sys: Sys, step: Step, p: nat, r: Run)
    requires ProducersFit(sys) && Enabled(sys, step) && !sys.recovered && sys.started && !sys.cancelled
    requires Carried(sys.producers, p, r)
    ensures Handed(Apply(sys, step), r.id)
  {
    var next := Apply(sys, step);
    assert ProducerFits(p, sys.producers[p], sys.lines.queues, sys.recovered);
    if step.Send? && step.p == p && r == sys.producers[p].todo[0] {
      var e := Entry(r, sys.producers[p].origin);
      assert next.lines.accepted == sys.lines.accepted + [e] && e in next.lines.accepted;
      AcceptedIsHanded(next, e);
    } else {
      StillCarried(sys, step, p, r);
      CarriedIsHanded(next, p, r);
    }
  }

  lemma StillCarried(sys: Sys, step: Step, p: nat, r: Run)
    requires ProducersFit(sys) && Enabled(sys, step) && !sys.recovered && sys.started && !sys.cancelled
    requires Carried(sys.producers, p, r) && !(step.Send? && step.p == p && r == sys.producers[p].todo[0])
    ensures Carried(Apply(sys, step).producers, p, r)
  {
    assert ProducerFits(p, sys.producers[p], sys.lines.queues, sys.recovered);
    if Moved(step).Some? && Moved(step).value != p {
      MovedFits(sys, step, Moved(step).value);
    } else if step.Send? {
      var i :| 0 <= i < |sys.producers[p].todo| && sys.producers[p].todo[i] == r;
      assert sys.producers[p].todo[1..][i - 1] == r;
    }
  }

  /** What is new in the table after a step is carried by the caller that committed it. */
  lemma NewRowIsHanded(sys: Sys, step: Step, id: nat)
    requires ProducersFit(sys) && Enabled(sys, step) && !sys.recovered
    requires id in Apply(sys, step).queued && id !in sys.queued
    ensures Handed(Apply(sys, step), id)
  {
    var next := Apply(sys, step);
    forall p | p in sys.producers
      ensures p > SCHEDULER
    {
      assert ProducerFits(p, sys.producers[p], sys.lines.queues, sys.recovered);
    }
    if step.Commit? {
      var runs := FreshRuns(sys.nextId, [step.device]);
      assert id in Rows(runs);
      CarriedIsHanded(next, step.p, Rows(runs)[id]);
    }
  }

  lemma HandedAreNew(sys: Sys, step: Step, nextId: nat)
    requires ProducersFit(sys) && NewIsHanded(sys, nextId) && Enabled(sys, step) && !step.Recover?
    ensures forall e :: e in Apply(sys, step).lines.accepted ==> e.run.id >= nextId
    ensures forall p: nat, r :: Carried(Apply(sys, step).producers, p, r) ==> r.id >= nextId
  {
    forall p: nat, r | Carried(Apply(sys, step).producers, p, r)
      ensures r.id >= nextId
    {
      CarriedIsNew(sys, step, nextId, p, r);
    }
    if step.Send? {
      assert Carried(sys.producers, step.p, sys.producers[step.p].todo[0]);
    } else {
      QuietKeepsAccepted(sys, step);
    }
  }

  lemma CarriedIsNew(sys: Sys, step: Step, nextId: nat, p: nat, r: Run)
    requires ProducersFit(sys) && NewIsHanded(sys, nextId) && Enabled(sys, step) && !step.Recover?
    requires Carried(Apply(sys, step).producers, p, r)
    ensures r.id >= nextId
  {
    if Moved(step).Some? {
      hide Apply, Enabled, ProducersFit, ProducerFits;
      MovedTodo(sys, step, Moved(step).value);
      MovedFits(sys, step, Moved(step).value);
      assert p != Moved(step).value ==> Carried(sys.producers, p, r);
    } else {
      assert Carried(sys.producers, p, r);
    }
  }

  lemma StepKeepsNewHanded(sys: Sys, step: Step, nextId: nat)
    requires ProducersFit(sys) && NewIsHanded(sys, nextId) && Enabled(sys, step) && !sys.recovered && !step.Recover?
    ensures NewIsHanded(Apply(sys, step), nextId) && !Apply(sys, step).recovered
  {
    var next := Apply(sys, step);
    HandedAreNew(sys, step, nextId);
    if next.started && !next.cancelled {
      forall id | id in next.queued && id >= nextId
        ensures Handed(next, id)
      {
        if id in sys.queued {
          HandedStays(sys, step, id);
        } else {
          NewRowIsHanded(sys, step, id);
        }
      }
    }
  }

  // ---------------------------------------------------------- the exact condition

  /** What holds before recovery, or, once it has run over old rows only, for good. */
  ghost predicate Orderly(sys: Sys, nextId: nat) {
    Inv(sys) && sys.clean && (!sys.recovered ==> NewIsHanded(sys, nextId))
  }

  lemma OldRowsAreUnhanded(sys: Sys, list: seq<Run>, nextId: nat)
    requires NewIsHanded(sys, nextId) && OnlyOldRows(list, nextId)
    ensures PicksUpNothingHanded(sys, list)
  {
    forall r | r in list
      ensures !Handed(sys, r.id)
    {}
  }

  /** Recovery picks up nothing that has been handed out if all its rows are old; in an
      undisturbed session, only if. */
  lemma UnhandedIffOld(sys: Sys, list: seq<Run>, nextId: nat)
    requires NewIsHanded(sys, nextId) && Enabled(sys, Recover(list))
    ensures OnlyOldRows(list, nextId) ==> PicksUpNothingHanded(sys, list)
    ensures sys.started && !sys.cancelled ==> (PicksUpNothingHanded(sys, list) <==> OnlyOldRows(list, nextId))
  {
    if OnlyOldRows(list, nextId) {
      OldRowsAreUnhanded(sys, list, nextId);
    } else if sys.started && !sys.cancelled {
      var r :| r in list && r.id >= nextId;
      assert r.id in sys.queued;
      assert Handed(sys, r.id);
    }
  }

  lemma StepKeepsOrder(sys: Sys, step: Step, nextId: nat)
    requires Orderly(sys, nextId) && Enabled(sys, step) && (step.Recover? ==> OnlyOldRows(step.list, nextId))
    ensures Orderly(Apply(sys, step), nextId)
  {
    StepKeepsInv(sys, step);
    if step.Recover? {
      OldRowsAreUnhanded(sys, step.list, nextId);
    } else if !sys.recovered {
      StepKeepsNewHanded(sys, step, nextId);
    }
  }

  lemma {:induction false} RunKeepsOrder(sys: Sys, steps: seq<Step>, nextId: nat)
    requires Orderly(sys, nextId) && Runs(sys, steps)
    requires forall i :: 0 <= i < |steps| && steps[i].Recover? ==> OnlyOldRows(steps[i].list, nextId)
    ensures Orderly(After(sys, steps), nextId)
    decreases |steps|
  {
    if |steps| > 0 {
      StepKeepsOrder(sys, steps[0], nextId);
      RunKeepsOrder(Apply(sys, steps[0]), steps[1..], nextId);
    }
  }

  lemma BegunIsOrderly(queued: map<nat, Run>, nextId: nat)
    requires TableFits(queued, nextId)
    ensures Orderly(Begun(queued, nextId), nextId)
  {}

  /** Over every run of a session whose recovery picks up only rows older than the session,
      no run is executed twice. */
  lemma OldRowsRunOnce(queued: map<nat, Run>, nextId: nat, steps: seq<Step>)
    requires TableFits(queued, nextId) && Runs(Begun(queued, nextId), steps)
    requires forall i :: 0 <= i < |steps| && steps[i].Recover? ==> OnlyOldRows(steps[i].list, nextId)
    ensures DistinctIds(After(Begun(queued, nextId), steps).lines.executed)
  {
    BegunIsOrderly(queued, nextId);
    RunKeepsOrder(Begun(queued, nextId), steps, nextId);
    CleanMeansRunOnce(After(Begun(queued, nextId), steps));
  }

  // ------------------------------------------------------------------- progress

  /** A session that runs undisturbed: every loop it has started is there. */
  ghost predicate Live(sys: Sys) {
    && Inv(sys) && sys.started && !sys.cancelled
    && forall i :: 0 <= i < |sys.lines.loops| ==> !sys.lines.loops[i].phase.Exited?
  }

  /** What is left to do for loop `i`: three moves a queued run, fewer for one it holds. */
  function Backlog(lines: Lines, i: nat): nat
    requires i < |lines.loops| && lines.loops[i].device in lines.queues
  {
    3 * |lines.queues[lines.loops[i].device]|
    + match lines.loops[i].phase
      case Received(_) => 2
      case Executing(_) => 1
      case _ => 0
  }

  function NextMove(lines: Lines, i: nat): Step
    requires i < |lines.loops|
  {
    match lines.loops[i].phase
    case Received(_) => Check(i)
    case Executing(_) => Finish(i)
    case _ => Receive(i)
  }

  /** One loop has moved on: it is still there, nothing was accepted, and less is left. */
  ghost predicate LoopMoved(lines: Lines, next: Lines, i: nat) {
    && i < |lines.loops| == |next.loops|
    && next.accepted == lines.accepted && next.queues.Keys == lines.queues.Keys
    && next.loops == lines.loops[i := next.loops[i]]
    && next.loops[i].device == lines.loops[i].device && !next.loops[i].phase.Exited?
    && lines.loops[i].device in lines.queues
    && Backlog(next, i) < Backlog(lines, i)
  }

  lemma PullMoves(lines: Lines, i: nat)
    requires CanPull(lines, i)
    ensures LoopMoved(lines, Pull(lines, i), i)
  {
    var d := lines.loops[i].device;
    assert lines.queues[d := lines.queues[d][1..]].Keys == lines.queues.Keys;
  }

  lemma ExecuteMoves(lines: Lines, i: nat)
    requires i < |lines.loops| && lines.loops[i].phase.Received? && lines.loops[i].device in lines.queues
    ensures LoopMoved(lines, Execute(lines, i, false), i)
  {}

  lemma FinishMoves(lines: Lines, i: nat)
    requires i < |lines.loops| && lines.loops[i].phase.Executing? && lines.loops[i].device in lines.queues
    ensures LoopMoved(lines, SetPhase(lines, i, Idle), i)
  {}

  lemma MoveChangesLoop(sys: Sys, i: nat)
    requires !sys.cancelled && i < |sys.lines.loops| && sys.lines.loops[i].device in sys.lines.queues
    requires !sys.lines.loops[i].phase.Exited? && Backlog(sys.lines, i) > 0
    ensures var step := NextMove(sys.lines, i);
            && Enabled(sys, step)
            && Apply(sys, step) == sys.(lines := Apply(sys, step).lines)
            && LoopMoved(sys.lines, Apply(sys, step).lines, i)
  {
    hide LoopMoved, Pull, Execute, SetPhase;
    match sys.lines.loops[i].phase
    case Received(_) => ExecuteMoves(sys.lines, i);
    case Executing(_) => FinishMoves(sys.lines, i);
    case _ => PullMoves(sys.lines, i);
  }

  lemma MoveLowersBacklog(sys: Sys, i: nat)
    requires Live(sys) && i < |sys.lines.loops| && sys.lines.loops[i].device in sys.lines.queues
    requires Backlog(sys.lines, i) > 0
    ensures var step := NextMove(sys.lines, i);
            && Enabled(sys, step)
            && var next := Apply(sys, step);
               && Live(next) && next.producers == sys.producers && next.lines.accepted == sys.lines.accepted
               && i < |next.lines.loops| && next.lines.loops[i].device == sys.lines.loops[i].device
               && next.lines.queues.Keys == sys.lines.queues.Keys
               && Backlog(next.lines, i) < Backlog(sys.lines, i)
               && sys.lines.executed <= next.lines.executed
  {
    hide Inv, Enabled, Apply, NextMove, Backlog;
    MoveChangesLoop(sys, i);
    StepKeepsInv(sys, NextMove(sys.lines, i));
    ExecutedGrows(sys, NextMove(sys.lines, i));
  }

  /** A loop left alone works off its queue. */
  lemma {:induction false} Drain(start: Sys, sys: Sys, i: nat) returns (next: Sys)
    requires Reaches(start, sys) && Live(sys)
    requires i < |sys.lines.loops| && sys.lines.loops[i].device in sys.lines.queues
    ensures Reaches(start, next) && Live(next)
    ensures next.producers == sys.producers && next.lines.accepted == sys.lines.accepted
    ensures next.lines.queues.Keys == sys.lines.queues.Keys && sys.lines.executed <= next.lines.executed
    ensures var d := sys.lines.loops[i].device;
            next.lines.queues[d] == [] && Of(d, next.lines.executed) == Of(d, next.lines.accepted)
    decreases Backlog(sys.lines, i)
  {
    if Backlog(sys.lines, i) > 0 {
      MoveLowersBacklog(sys, i);
      Onward(start, sys, NextMove(sys.lines, i));
      next := Drain(start, Apply(sys, NextMove(sys.lines, i)), i);
    } else {
      next := sys;
      assert LineAt(sys.lines, sys.lines.loops[i]);
    }
  }

  lemma DrainDevice(start: Sys, sys: Sys, d: string) returns (next: Sys)
    requires Reaches(start, sys) && Live(sys) && d in sys.lines.queues
    ensures Reaches(start, next) && Live(next)
    ensures next.producers == sys.producers && next.lines.accepted == sys.lines.accepted
    ensures next.lines.queues.Keys == sys.lines.queues.Keys && sys.lines.executed <= next.lines.executed
    ensures next.lines.queues[d] == [] && Of(d, next.lines.executed) == Of(d, next.lines.accepted)
  {
    assert HasLoop(sys.lines.loops, d);
    var i :| 0 <= i < |sys.lines.loops| && sys.lines.loops[i].device == d;
    next := Drain(start, sys, i);
  }

  /** The first run a producer carries gets into its queue, others being left as they are. */
  lemma AcceptHead(start: Sys, sys: Sys, p: nat) returns (next: Sys)
    requires Reaches(start, sys) && Live(sys) && p in sys.producers && sys.producers[p].todo != []
    ensures Reaches(start, next) && Live(next)
    ensures next.lines.accepted == sys.lines.accepted + [Entry(sys.producers[p].todo[0], sys.producers[p].origin)]
    ensures next.producers == sys.producers[p := Producer(sys.producers[p].origin, Ready, sys.producers[p].todo[1..])]
    ensures sys.lines.queues.Keys <= next.lines.queues.Keys
    ensures sys.producers[p].todo[0].device in next.lines.queues
  {
    hide Inv, Live;
    var mid := ReachChannel(start, sys, p);
    var d := sys.producers[p].todo[0].device;
    var free := DrainDevice(start, mid, d);
    next := SendHead(start, free, p);
  }

  lemma SendHead(start: Sys, sys: Sys, p: nat) returns (next: Sys)
    requires Reaches(start, sys) && Live(sys) && p in sys.producers && sys.producers[p].todo != []
    requires sys.producers[p].stage == AtChannel
    requires var d := sys.producers[p].todo[0].device; d in sys.lines.queues && sys.lines.queues[d] == []
    ensures Reaches(start, next) && Live(next)
    ensures next.lines.accepted == sys.lines.accepted + [Entry(sys.producers[p].todo[0], sys.producers[p].origin)]
    ensures next.producers == sys.producers[p := Producer(sys.producers[p].origin, Ready, sys.producers[p].todo[1..])]
    ensures next.lines.queues.Keys == sys.lines.queues.Keys
  {
    hide Inv, Live;
    Onward(start, sys, Send(p));
    SendIsLive(sys, p);
    next := Apply(sys, Send(p));
  }

  /** A producer registers its queue, if it has not done so. */
  lemma ReachChannel(start: Sys, sys: Sys, p: nat) returns (next: Sys)
    requires Reaches(start, sys) && Live(sys) && p in sys.producers && sys.producers[p].todo != []
    ensures Reaches(start, next) && Live(next) && next.lines.accepted == sys.lines.accepted
    ensures next.producers == sys.producers[p := sys.producers[p].(stage := AtChannel)]
    ensures sys.lines.queues.Keys <= next.lines.queues.Keys
    ensures sys.producers[p].todo[0].device in next.lines.queues
  {
    assert ProducerFits(p, sys.producers[p], sys.lines.queues, sys.recovered);
    if sys.producers[p].stage == AtChannel {
      next := sys;
      assert next.producers == sys.producers[p := sys.producers[p].(stage := AtChannel)];
    } else {
      Onward(start, sys, Register(p));
      RegisterIsLive(sys, p);
      next := Apply(sys, Register(p));
    }
  }

  lemma RegisterIsLive(sys: Sys, p: nat)
    requires Live(sys) && Enabled(sys, Register(p))
    ensures Live(Apply(sys, Register(p)))
  {
    hide Inv;
    StepKeepsInv(sys, Register(p));
  }

  lemma SendIsLive(sys: Sys, p: nat)
    requires Live(sys) && Enabled(sys, Send(p))
    ensures Live(Apply(sys, Send(p)))
  {
    hide Inv;
    StepKeepsInv(sys, Send(p));
  }

  /** So does the `k`-th one it carries, after those before it. */
  lemma {:induction false} AcceptUpTo(start: Sys, sys: Sys, p: nat, k: nat) returns (next: Sys)
    requires Reaches(start, sys) && Live(sys) && p in sys.producers && k < |sys.producers[p].todo|
    ensures Reaches(start, next) && Live(next)
    ensures |next.lines.accepted| > |sys.lines.accepted| && sys.lines.accepted <= next.lines.accepted
    ensures next.lines.accepted[|next.lines.accepted| - 1].run == sys.producers[p].todo[k]
    ensures p in next.producers && next.producers == sys.producers[p := next.producers[p]]
    decreases k
  {
    hide Inv, Live, Reaches;
    next := AcceptHead(start, sys, p);
    if k > 0 {
      assert next.producers[p].todo == sys.producers[p].todo[1..];
      next := AcceptUpTo(start, next, p, k - 1);
    }
  }

  // ------------------------------------------------------------------ the converse

  ghost predicate TwiceIn(s: seq<Entry>, id: nat) {
    exists i, j :: 0 <= i < j < |s| && s[i].run.id == id && s[j].run.id == id
  }

  lemma CarriedIsAccepted(start: Sys, sys: Sys, p: nat, r: Run) returns (next: Sys)
    requires Reaches(start, sys) && Live(sys) && Carried(sys.producers, p, r)
    ensures Reaches(start, next) && Live(next)
    ensures |next.lines.accepted| > |sys.lines.accepted| && sys.lines.accepted <= next.lines.accepted
    ensures next.lines.accepted[|next.lines.accepted| - 1].run == r
    ensures p in next.producers && next.producers == sys.producers[p := next.producers[p]]
  {
    var k :| 0 <= k < |sys.producers[p].todo| && sys.producers[p].todo[k] == r;
    next := AcceptUpTo(start, sys, p, k);
  }

  /** A run that recovery carries and that was handed out already is accepted twice. */
  lemma AcceptedTwice(start: Sys, sys: Sys, r: Run, id: nat) returns (next: Sys)
    requires Reaches(start, sys) && Live(sys) && Carried(sys.producers, RECOVERY, r) && r.id == id
    requires (exists e :: e in sys.lines.accepted && e.run.id == id)
             || (exists p: nat, q :: p != RECOVERY && Carried(sys.producers, p, q) && q.id == id)
    ensures Reaches(start, next) && Live(next) && TwiceIn(next.lines.accepted, id)
  {
    hide Inv, Live, Reaches;
    var mid := sys;
    if !(exists e :: e in sys.lines.accepted && e.run.id == id) {
      var p: nat, q :| p != RECOVERY && Carried(sys.producers, p, q) && q.id == id;
      mid := CarriedIsAccepted(start, sys, p, q);
      assert mid.lines.accepted[|mid.lines.accepted| - 1] in mid.lines.accepted;
      assert Carried(mid.producers, RECOVERY, r);
    }
    var e :| e in mid.lines.accepted && e.run.id == id;
    var i :| 0 <= i < |mid.lines.accepted| && mid.lines.accepted[i] == e;
    next := CarriedIsAccepted(start, mid, RECOVERY, r);
    assert next.lines.accepted[i] == e;
    assert next.lines.accepted[|next.lines.accepted| - 1].run.id == id;
  }

  lemma AcceptedHasQueue(lines: Lines, e: Entry)
    requires LinesFit(lines) && e in lines.accepted
    ensures e.run.device in lines.queues
  {
    var k :| 0 <= k < |lines.accepted| && lines.accepted[k] == e;
    var at := OfContains(e.run.device, lines.accepted, k);
    assert e.run.device !in lines.queues ==> Of(e.run.device, lines.accepted) == [];
  }

  lemma SameDeviceTwice(s: seq<Entry>, t: seq<Entry>, i: nat, j: nat)
    requires i < j < |s| && s[i].run.id == s[j].run.id && s[i].run.device == s[j].run.device
    requires Of(s[i].run.device, t) == Of(s[i].run.device, s)
    ensures !DistinctIds(t)
  {
    var d := s[i].run.device;
    var a := OfContains(d, s, i);
    var b := OfContains(d, s, j);
    OfShorter(d, s, i, j);
    if DistinctIds(t) {
      OfKeepsDistinct(d, t);
    }
  }

  lemma AllOfDeviceRan(lines: Lines, e: Entry)
    requires e in lines.accepted && Of(e.run.device, lines.executed) == Of(e.run.device, lines.accepted)
    ensures e in lines.executed
  {
    var k :| 0 <= k < |lines.accepted| && lines.accepted[k] == e;
    var at := OfContains(e.run.device, lines.accepted, k);
    OfMember(e.run.device, lines.executed, e);
  }

  /** What was accepted twice is executed twice once the loops have worked off their queues. */
  lemma AcceptedTwiceRunsTwice(start: Sys, sys: Sys, id: nat) returns (next: Sys)
    requires Reaches(start, sys) && Live(sys) && TwiceIn(sys.lines.accepted, id)
    ensures Reaches(start, next) && !DistinctIds(next.lines.executed)
  {
    var s := sys.lines.accepted;
    var i, j :| 0 <= i < j < |s| && s[i].run.id == id && s[j].run.id == id;
    AcceptedHasQueue(sys.lines, s[i]);
    AcceptedHasQueue(sys.lines, s[j]);
    var mid := DrainDevice(start, sys, s[i].run.device);
    if s[i].run.device == s[j].run.device {
      next := mid;
      SameDeviceTwice(s, next.lines.executed, i, j);
    } else {
      AllOfDeviceRan(mid.lines, s[i]);
      next := DrainDevice(start, mid, s[j].run.device);
      AllOfDeviceRan(next.lines, s[j]);
      TwoEntries(mid.lines.executed, next.lines.executed, s[i], s[j]);
    }
  }

  lemma TwoEntries(s: seq<Entry>, t: seq<Entry>, a: Entry, b: Entry)
    requires s <= t && a in s && b in t && a != b && a.run.id == b.run.id
    ensures !DistinctIds(t)
  {
    var i :| 0 <= i < |s| && s[i] == a;
    var j :| 0 <= j < |t| && t[j] == b;
    assert t[i] == a && i != j;
    assert t[i].run.id == t[j].run.id;
  }

  /** If recovery picks up a run that has been handed out, an undisturbed session can go on to
      execute that run twice. */
  lemma HandedRunsTwice(sys: Sys, list: seq<Run>) returns (next: Sys)
    requires Live(sys) && Enabled(sys, Recover(list)) && !PicksUpNothingHanded(sys, list)
    ensures Reaches(Apply(sys, Recover(list)), next) && !DistinctIds(next.lines.executed)
  {
    var start := Apply(sys, Recover(list));
    RecoverIsLive(sys, list);
    Stay(start);
    var r :| r in list && Handed(sys, r.id);
    RecoverCarries(sys, list, r);
    hide Inv, Live, Apply, Enabled, Reaches;
    var mid := AcceptedTwice(start, start, r, r.id);
    next := AcceptedTwiceRunsTwice(start, mid, r.id);
  }

  lemma RecoverIsLive(sys: Sys, list: seq<Run>)
    requires Live(sys) && Enabled(sys, Recover(list))
    ensures Live(Apply(sys, Recover(list)))
  {
    hide Inv;
    StepKeepsInv(sys, Recover(list));
  }

  /** Recovery carries what it found beside what the others carry. */
  lemma RecoverCarries(sys: Sys, list: seq<Run>, r: Run)
    requires ProducersFit(sys) && Enabled(sys, Recover(list)) && r in list
    ensures var next := Apply(sys, Recover(list));
            && next.lines == sys.lines && Carried(next.producers, RECOVERY, r)
            && forall p: nat, q :: Carried(sys.producers, p, q) ==> p != RECOVERY && Carried(next.producers, p, q)
  {
    forall p: nat, q | Carried(sys.producers, p, q)
      ensures p > SCHEDULER
    {
      assert ProducerFits(p, sys.producers[p], sys.lines.queues, sys.recovered);
    }
  }

  /** Loops return early only when the context is cancelled. */
  ghost predicate NoneLeft(sys: Sys) {
    !sys.cancelled ==> forall i :: 0 <= i < |sys.lines.loops| ==> !sys.lines.loops[i].phase.Exited?
  }

  lemma StepKeepsNoneLeft(sys: Sys, step: Step)
    requires NoneLeft(sys) && Enabled(sys, step)
    ensures NoneLeft(Apply(sys, step))
  {}

  lemma {:induction false} RunKeepsNoneLeft(sys: Sys, steps: seq<Step>)
    requires NoneLeft(sys) && Runs(sys, steps)
    ensures NoneLeft(After(sys, steps))
    decreases |steps|
  {
    if |steps| > 0 {
      StepKeepsNoneLeft(sys, steps[0]);
      RunKeepsNoneLeft(Apply(sys, steps[0]), steps[1..]);
    }
  }

  /** Recovery happens at most once in a session. */
  lemma {:induction false} RecoveredForGood(sys: Sys, steps: seq<Step>)
    requires Runs(sys, steps)
    ensures sys.recovered ==> After(sys, steps).recovered
    ensures sys.recovered || !After(sys, steps).recovered ==>
              forall i :: 0 <= i < |steps| ==> !steps[i].Recover?
    decreases |steps|
  {
    if |steps| > 0 {
      RecoveredForGood(Apply(sys, steps[0]), steps[1..]);
    }
  }

  /** Nothing that follows executes a run twice. */
  ghost predicate RunsOnceFrom(sys: Sys) {
    forall next :: Reaches(sys, next) ==> DistinctIds(next.lines.executed)
  }

  // ------------------------------------------ stopped or cancelled before recovery

  /** `Stop` has come first: what recovery found can no longer get into a queue, and all
      others carry every run once. */
  ghost predicate Shut(sys: Sys) {
    && Inv(sys) && !sys.started && sys.recovered
    && !HasStage(sys, RECOVERY, AtChannel)
    && Once(sys.lines.accepted, sys.producers - {RECOVERY})
  }

  function WithoutRecovery(sys: Sys): Sys {
    sys.(producers := sys.producers - {RECOVERY})
  }

  lemma WithoutRecoveryFits(sys: Sys)
    requires ProducersFit(sys) && IdsFit(sys)
    ensures ProducersFit(WithoutRecovery(sys)) && IdsFit(WithoutRecovery(sys))
  {
    var rest := WithoutRecovery(sys);
    forall p | p in rest.producers
      ensures ProducerFits(p, rest.producers[p], rest.lines.queues, rest.recovered)
    {
      assert ProducerFits(p, sys.producers[p], sys.lines.queues, sys.recovered);
    }
    forall p: nat, r | Carried(rest.producers, p, r)
      ensures r.id < rest.nextId
    {
      assert Carried(sys.producers, p, r);
    }
  }

  lemma SetOther(producers: map<nat, Producer>, p: nat, producer: Producer)
    requires p != RECOVERY
    ensures producers[p := producer] - {RECOVERY} == (producers - {RECOVERY})[p := producer]
  {}

  /** The others do not notice recovery. */
  lemma OthersAreEnabled(sys: Sys, step: Step, p: nat)
    requires Enabled(sys, step) && Moved(step) == Some(p) && p != RECOVERY
    ensures Enabled(WithoutRecovery(sys), step)
  {
    hide HasRoom;
  }

  ghost predicate SameForOthers(sys: Sys, step: Step)
    requires Enabled(sys, step) && Enabled(WithoutRecovery(sys), step)
  {
    && Apply(WithoutRecovery(sys), step).lines == Apply(sys, step).lines
    && Apply(WithoutRecovery(sys), step).producers == Apply(sys, step).producers - {RECOVERY}
  }

  lemma CreateAlike(sys: Sys, p: nat, devices: seq<string>)
    requires p in sys.producers && p != RECOVERY
    ensures var next, rest := Create(sys, p, devices), Create(WithoutRecovery(sys), p, devices);
            rest.lines == next.lines == sys.lines && rest.producers == next.producers - {RECOVERY}
  {
    hide FreshRuns, Rows;
    SetOther(sys.producers, p, Producer(sys.producers[p].origin, Ready, FreshRuns(sys.nextId, devices)));
  }

  lemma AbortAlike(sys: Sys, p: nat)
    requires p in sys.producers && p != RECOVERY
    ensures var next, rest := Abort(sys, p), Abort(WithoutRecovery(sys), p);
            rest.lines == next.lines == sys.lines && rest.producers == next.producers - {RECOVERY}
  {
    SetOther(sys.producers, p, Aborted(sys.producers[p]));
  }

  lemma EnqueueAlike(sys: Sys, step: Step, p: nat)
    requires Enabled(sys, step) && Enabled(WithoutRecovery(sys), step) && p != RECOVERY
    requires step == Register(p) || step == Send(p)
    ensures SameForOthers(sys, step)
  {
    hide Abort, Aborted, Open, Push, HasRoom;
    AbortAlike(sys, p);
    SetOther(sys.producers, p, sys.producers[p].(stage := AtChannel));
    SetOther(sys.producers, p, sys.producers[p].(stage := Ready, todo := sys.producers[p].todo[1..]));
  }

  lemma OthersMoveAlike(sys: Sys, step: Step, p: nat)
    requires Enabled(sys, step) && Moved(step) == Some(p) && p != RECOVERY
    ensures Enabled(WithoutRecovery(sys), step) && SameForOthers(sys, step)
  {
    hide Create, Abort, HasRoom;
    OthersAreEnabled(sys, step, p);
    match step
    case RunNow(_) => SetOther(sys.producers, p, Producer(Manual, Checked, []));
    case Commit(_, device) => CreateAlike(sys, p, [device]);
    case SchedulerGo => SetOther(sys.producers, p, Producer(Scheduled, Ready, []));
    case SchedulerQuit => SetOther(sys.producers, p, Producer(Scheduled, Ended, []));
    case Claim(devices) => CreateAlike(sys, p, devices);
    case Register(_) => EnqueueAlike(sys, step, p);
    case Send(_) => EnqueueAlike(sys, step, p);
    case SendCancelled(_) => AbortAlike(sys, p);
    case ProducerEnds(_) => SetOther(sys.producers, p, sys.producers[p].(stage := Ended));
  }

  lemma ShutRecoveryAccepts(sys: Sys, step: Step)
    requires Shut(sys) && Enabled(sys, step) && Moved(step) == Some(RECOVERY)
    ensures Apply(sys, step).lines == sys.lines
    ensures Apply(sys, step).producers - {RECOVERY} == sys.producers - {RECOVERY}
    ensures !HasStage(Apply(sys, step), RECOVERY, AtChannel)
  {
    hide Open, Push, FreshRuns, Rows, HasRoom, Once, LinesFit, RecoveryFits, NothingLost, IdsFit;
    assert RECOVERY in sys.producers ==>
        ProducerFits(RECOVERY, sys.producers[RECOVERY], sys.lines.queues, sys.recovered);
  }

  lemma StepKeepsShut(sys: Sys, step: Step)
    requires Shut(sys) && Enabled(sys, step)
    ensures Shut(Apply(sys, step))
  {
    StepKeepsInv(sys, step);
    if Moved(step) == Some(RECOVERY) {
      ShutRecoveryAccepts(sys, step);
    } else if Moved(step).Some? {
      var p := Moved(step).value;
      OthersMoveAlike(sys, step, p);
      WithoutRecoveryFits(sys);
      MoveKeepsOnce(WithoutRecovery(sys), step, p);
      MovedFits(sys, step, p);
    } else {
      QuietKeepsAccepted(sys, step);
    }
  }

  lemma {:induction false} RunKeepsShut(sys: Sys, steps: seq<Step>)
    requires Shut(sys) && Runs(sys, steps)
    ensures Shut(After(sys, steps))
    decreases |steps|
  {
    if |steps| > 0 {
      hide Shut, Apply, Enabled;
      StepKeepsShut(sys, steps[0]);
      RunKeepsShut(Apply(sys, steps[0]), steps[1..]);
    }
  }

  lemma RecoverAfterStop(sys: Sys, list: seq<Run>)
    requires Inv(sys) && sys.clean && !sys.started && Enabled(sys, Recover(list))
    ensures Shut(Apply(sys, Recover(list)))
  {
    hide Once, LinesFit, RecoveryFits, NothingLost, IdsFit, Lists, PicksUpNothingHanded;
    var next := Apply(sys, Recover(list));
    StepKeepsInv(sys, Recover(list));
    forall p | p in sys.producers
      ensures p > SCHEDULER
    {
      assert ProducerFits(p, sys.producers[p], sys.lines.queues, sys.recovered);
    }
    var idle := Producer(Scheduled, Waiting, []);
    assert next.producers - {RECOVERY} == sys.producers[SCHEDULER := idle];
    KeepKeepsOnce(sys.lines.accepted, sys.producers, SCHEDULER, idle);
  }

  lemma StoppedRunsOnce(sys: Sys, list: seq<Run>)
    requires Inv(sys) && sys.clean && !sys.started && Enabled(sys, Recover(list))
    ensures RunsOnceFrom(Apply(sys, Recover(list)))
  {
    RecoverAfterStop(sys, list);
    forall next | Reaches(Apply(sys, Recover(list)), next)
      ensures DistinctIds(next.lines.executed)
    {
      var steps :| Runs(Apply(sys, Recover(list)), steps) && After(Apply(sys, Recover(list)), steps) == next;
      RunKeepsShut(Apply(sys, Recover(list)), steps);
      AcceptedOnceRunsOnce(next.lines);
    }
  }

  lemma CancelledExecutesNothing(sys: Sys, step: Step)
    requires sys.cancelled && Enabled(sys, step)
    ensures Apply(sys, step).cancelled && Apply(sys, step).lines.executed == sys.lines.executed
  {
    hide Create, Abort, Lists, PicksUpNothingHanded, HasRoom, CanPull;
    if step.Commit? || step.Claim? {
      CreateKeepsRest(sys, Moved(step).value, if step.Commit? then [step.device] else step.devices);
    } else if step.Register? || step.SendCancelled? {
      AbortKeepsRest(sys, step.p);
    }
  }

  lemma CreateKeepsRest(sys: Sys, p: nat, devices: seq<string>)
    requires p in sys.producers
    ensures Create(sys, p, devices).lines == sys.lines && Create(sys, p, devices).cancelled == sys.cancelled
  {
    hide FreshRuns, Rows;
  }

  lemma AbortKeepsRest(sys: Sys, p: nat)
    requires p in sys.producers
    ensures Abort(sys, p).lines == sys.lines && Abort(sys, p).cancelled == sys.cancelled
  {}

  lemma {:induction false} CancelledForGood(sys: Sys, steps: seq<Step>)
    requires sys.cancelled && Runs(sys, steps)
    ensures After(sys, steps).lines.executed == sys.lines.executed
    decreases |steps|
  {
    if |steps| > 0 {
      CancelledExecutesNothing(sys, steps[0]);
      CancelledForGood(Apply(sys, steps[0]), steps[1..]);
    }
  }

  lemma CancelledRunsOnce(sys: Sys)
    requires sys.cancelled && DistinctIds(sys.lines.executed)
    ensures RunsOnceFrom(sys)
  {
    forall next | Reaches(sys, next)
      ensures DistinctIds(next.lines.executed)
    {
      var steps :| Runs(sys, steps) && After(sys, steps) == next;
      CancelledForGood(sys, steps);
    }
  }

  // ------------------------------------------------------------------- the theorem

  /** At most once, exactly: when a session is about to recover `list`, no continuation
      executes a run twice if and only if every row of `list` is older than the session, or
      `Stop` or the end of the context has come first. */
  lemma AtMostOnceExactly(queued: map<nat, Run>, nextId: nat, before: seq<Step>, list: seq<Run>)
    requires TableFits(queued, nextId) && Runs(Begun(queued, nextId), before)
    requires Enabled(After(Begun(queued, nextId), before), Recover(list))
    ensures var sys := After(Begun(queued, nextId), before);
            RunsOnceFrom(Apply(sys, Recover(list)))
            <==> OnlyOldRows(list, nextId) || !sys.started || sys.cancelled
  {
    hide Inv, Apply, NewIsHanded, RunsOnceFrom, Reaches;
    var sys := After(Begun(queued, nextId), before);
    OrderlyBeforeRecovery(queued, nextId, before);
    if OnlyOldRows(list, nextId) {
      StepKeepsOrder(sys, Recover(list), nextId);
      OrderlyRunsOnce(sys, list, nextId);
    } else if !sys.started {
      StoppedRunsOnce(sys, list);
    } else if sys.cancelled {
      RecoverExecutesNothing(sys, list);
      CleanMeansRunOnce(sys);
      CancelledRunsOnce(Apply(sys, Recover(list)));
    } else {
      UnhandedIffOld(sys, list, nextId);
      RunKeepsNoneLeft(Begun(queued, nextId), before);
      HandedDoesNotRunOnce(sys, list);
    }
  }

  lemma OrderlyBeforeRecovery(queued: map<nat, Run>, nextId: nat, before: seq<Step>)
    requires TableFits(queued, nextId) && Runs(Begun(queued, nextId), before)
    requires !After(Begun(queued, nextId), before).recovered
    ensures Orderly(After(Begun(queued, nextId), before), nextId)
  {
    BegunIsOrderly(queued, nextId);
    RecoveredForGood(Begun(queued, nextId), before);
    RunKeepsOrder(Begun(queued, nextId), before, nextId);
  }

  lemma RecoverExecutesNothing(sys: Sys, list: seq<Run>)
    requires Enabled(sys, Recover(list))
    ensures var next := Apply(sys, Recover(list));
            next.lines == sys.lines && next.cancelled == sys.cancelled && next.recovered
  {}

  lemma HandedDoesNotRunOnce(sys: Sys, list: seq<Run>)
    requires Live(sys) && Enabled(sys, Recover(list)) && !PicksUpNothingHanded(sys, list)
    ensures !RunsOnceFrom(Apply(sys, Recover(list)))
  {
    var next := HandedRunsTwice(sys, list);
    assert Reaches(Apply(sys, Recover(list)), next);
  }

  lemma OrderlyRunsOnce(sys: Sys, list: seq<Run>, nextId: nat)
    requires Enabled(sys, Recover(list)) && Orderly(Apply(sys, Recover(list)), nextId)
    ensures RunsOnceFrom(Apply(sys, Recover(list)))
  {
    var start := Apply(sys, Recover(list));
    RecoverExecutesNothing(sys, list);
    forall next | Reaches(start, next)
      ensures DistinctIds(next.lines.executed)
    {
      var steps :| Runs(start, steps) && After(start, steps) == next;
      RecoveredForGood(start, steps);
      RunKeepsOrder(start, steps, nextId);
      CleanMeansRunOnce(next);
    }
  }
}
