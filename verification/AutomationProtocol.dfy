/** One session of the automatic-task service under concurrency: the recovery goroutine, the
    scheduler, any number of `RunNow` callers, one loop per queue, and `Stop`. */
module AutomationProtocol {
  import opened Common
  import opened Automation

  // -------------------------------------------------------------- device lines

  datatype LoopPhase = Idle | Received(e: Entry) | Executing(e: Entry) | Exited(dropped: seq<Entry>)

  datatype Loop = Loop(device: string, phase: LoopPhase)

  /** The queues and their loops. `accepted` and `executed` record what went into the queues
      and what the loops began to execute, in order. */
  datatype Lines = Lines(queues: Queues, loops: seq<Loop>, accepted: seq<Entry>, executed: seq<Entry>)

  function Open(lines: Lines, d: string): Lines {
    lines.(queues := Opened(lines.queues, d),
           loops := if d in lines.queues then lines.loops else lines.loops + [Loop(d, Idle)])
  }

  predicate HasRoom(lines: Lines, d: string) {
    d in lines.queues && |lines.queues[d]| < QUEUE_SIZE
  }

  function Push(lines: Lines, e: Entry): Lines
    requires HasRoom(lines, e.run.device)
  {
    var d := e.run.device;
    lines.(queues := lines.queues[d := lines.queues[d] + [e]], accepted := lines.accepted + [e])
  }

  predicate CanPull(lines: Lines, i: nat) {
    && i < |lines.loops| && lines.loops[i].phase == Idle
    && lines.loops[i].device in lines.queues && lines.queues[lines.loops[i].device] != []
  }

  function SetPhase(lines: Lines, i: nat, phase: LoopPhase): Lines
    requires i < |lines.loops|
  {
    lines.(loops := lines.loops[i := lines.loops[i].(phase := phase)])
  }

  function Pull(lines: Lines, i: nat): Lines
    requires CanPull(lines, i)
  {
    var d := lines.loops[i].device;
    SetPhase(lines, i, Received(lines.queues[d][0])).(queues := lines.queues[d := lines.queues[d][1..]])
  }

  /** After the receive the loop looks at the context once more and then executes. */
  function Execute(lines: Lines, i: nat, cancelled: bool): Lines
    requires i < |lines.loops| && lines.loops[i].phase.Received?
  {
    var e := lines.loops[i].phase.e;
    if cancelled then SetPhase(lines, i, Exited([e]))
    else SetPhase(lines, i, Executing(e)).(executed := lines.executed + [e])
  }

  // ------------------------------------------------------------------- session

  datatype Stage = Checked | Waiting | Ready | AtChannel | Ended

  /** Someone who enqueues the runs of `todo` one after the other; `AtChannel` has left the
      lock and blocks on the queue of the first of them. */
  datatype Producer = Producer(origin: Origin, stage: Stage, todo: seq<Run>)

  /** `queued` is the table's rows with status queued. `known` are the runs the session
      began with or created, and `clean` says that recovery picked up no run this session
      had handed out already. */
  datatype Sys = Sys(
    started: bool, cancelled: bool, recovered: bool, recoveryDone: bool,
    queued: map<nat, Run>, nextId: nat, lines: Lines, producers: map<nat, Producer>,
    known: set<nat>, clean: bool)

  const RECOVERY := 0
  const SCHEDULER := 1

  datatype Step =
    | RunNow(p: nat)
    | Commit(p: nat, device: string)
    | Recover(list: seq<Run>)
    | SchedulerGo
    | SchedulerQuit
    | Claim(devices: seq<string>)
    | Register(p: nat)
    | Send(p: nat)
    | SendCancelled(p: nat)
    | ProducerEnds(p: nat)
    | Receive(i: nat)
    | Check(i: nat)
    | Mark(i: nat)
    | Finish(i: nat)
    | Exit(i: nat)
    | StopLock
    | Cancel

  /** A session just begun by `Start` over a table holding `queued`. */
  function Begun(queued: map<nat, Run>, nextId: nat): Sys {
    Sys(true, false, false, false, queued, nextId, Lines(map[], [], [], []), map[], queued.Keys, true)
  }

  ghost predicate TableFits(queued: map<nat, Run>, nextId: nat) {
    forall id :: id in queued ==> queued[id].id == id && id < nextId
  }

  ghost predicate DistinctRuns(runs: seq<Run>) {
    forall i, j :: 0 <= i < j < |runs| ==> runs[i].id != runs[j].id
  }

  /** `list` holds every queued row once. */
  ghost predicate Lists(list: seq<Run>, queued: map<nat, Run>) {
    && (forall r :: r in list ==> r.id in queued && queued[r.id] == r)
    && (forall id :: id in queued ==> queued[id] in list)
    && DistinctRuns(list)
  }

  predicate HasStage(sys: Sys, p: nat, stage: Stage) {
    p in sys.producers && sys.producers[p].stage == stage
  }

  predicate HasPhase(sys: Sys, i: nat, executing: bool) {
    i < |sys.lines.loops|
    && if executing then sys.lines.loops[i].phase.Executing? else sys.lines.loops[i].phase.Received?
  }

  ghost predicate Enabled(sys: Sys, step: Step) {
    match step
    case RunNow(p) => sys.started && p > SCHEDULER && p !in sys.producers
    case Commit(p, _) => HasStage(sys, p, Checked)
    case Recover(list) => !sys.recovered && Lists(list, sys.queued)
    case SchedulerGo => HasStage(sys, SCHEDULER, Waiting) && sys.recoveryDone
    case SchedulerQuit =>
      sys.cancelled && (HasStage(sys, SCHEDULER, Waiting)
                        || (HasStage(sys, SCHEDULER, Ready) && sys.producers[SCHEDULER].todo == []))
    case Claim(devices) =>
      HasStage(sys, SCHEDULER, Ready) && sys.producers[SCHEDULER].todo == [] && |devices| <= QUEUE_SIZE
    case Register(p) => HasStage(sys, p, Ready) && sys.producers[p].todo != []
    case Send(p) =>
      HasStage(sys, p, AtChannel) && sys.producers[p].todo != [] && HasRoom(sys.lines, sys.producers[p].todo[0].device)
    case SendCancelled(p) => HasStage(sys, p, AtChannel) && sys.cancelled
    case ProducerEnds(p) => p != SCHEDULER && HasStage(sys, p, Ready) && sys.producers[p].todo == []
    case Receive(i) => CanPull(sys.lines, i)
    case Check(i) => HasPhase(sys, i, false)
    case Mark(i) => HasPhase(sys, i, true)
    case Finish(i) => HasPhase(sys, i, true)
    case Exit(i) => i < |sys.lines.loops| && sys.lines.loops[i].phase == Idle && sys.cancelled
    case StopLock => true
    case Cancel => true
  }

  function SetProducer(sys: Sys, p: nat, producer: Producer): Sys {
    sys.(producers := sys.producers[p := producer])
  }

  /** An enqueue that fails ends recovery and `RunNow`, and drops the scheduler's batch. */
  function Aborted(producer: Producer): Producer {
    match producer.origin
    case Recovered => Producer(Recovered, Ended, [])
    case Scheduled => Producer(Scheduled, Ready, [])
    case Manual => Producer(Manual, Ended, [])
  }

  function Abort(sys: Sys, p: nat): Sys
    requires p in sys.producers
  {
    var producer := sys.producers[p];
    SetProducer(sys, p, Aborted(producer)).(recoveryDone := sys.recoveryDone || producer.origin == Recovered)
  }

  function FreshRuns(nextId: nat, devices: seq<string>): (runs: seq<Run>)
    ensures forall r :: r in runs ==> nextId <= r.id < nextId + |devices|
    ensures DistinctRuns(runs)
    decreases |devices|
  {
    if |devices| == 0 then [] else [Run(nextId, devices[0])] + FreshRuns(nextId + 1, devices[1..])
  }

  function Rows(runs: seq<Run>): (rows: map<nat, Run>)
    ensures forall r :: r in runs ==> r.id in rows
    ensures forall id :: id in rows ==> rows[id].id == id && rows[id] in runs
  {
    if |runs| == 0 then map[] else Rows(runs[1..])[runs[0].id := runs[0]]
  }

  /** New rows in the table, handed to producer `p`. */
  function Create(sys: Sys, p: nat, devices: seq<string>): Sys
    requires p in sys.producers
  {
    var runs := FreshRuns(sys.nextId, devices);
    var rows := Rows(runs);
    SetProducer(sys, p, Producer(sys.producers[p].origin, Ready, runs)).(
      queued := sys.queued + rows, nextId := sys.nextId + |devices|, known := sys.known + rows.Keys)
  }

  /** Someone already carries this run, or it went through a queue. */
  ghost predicate Carried(producers: map<nat, Producer>, p: nat, r: Run) {
    p in producers && r in producers[p].todo
  }

  ghost predicate Handed(sys: Sys, id: nat) {
    || (exists e :: e in sys.lines.accepted && e.run.id == id)
    || (exists p: nat, r :: Carried(sys.producers, p, r) && r.id == id)
  }

  ghost predicate PicksUpNothingHanded(sys: Sys, list: seq<Run>) {
    forall r :: r in list ==> !Handed(sys, r.id)
  }

  ghost function Apply(sys: Sys, step: Step): Sys
    requires Enabled(sys, step)
  {
    match step
    case RunNow(p) => SetProducer(sys, p, Producer(Manual, Checked, []))
    case Commit(p, device) => Create(sys, p, [device])
    case Recover(list) =>
      sys.(recovered := true, recoveryDone := list == [],
           producers := sys.producers[RECOVERY := Producer(Recovered, if list == [] then Ended else Ready, list)]
                                     [SCHEDULER := Producer(Scheduled, Waiting, [])],
           clean := PicksUpNothingHanded(sys, list))
    case SchedulerGo => SetProducer(sys, SCHEDULER, Producer(Scheduled, Ready, []))
    case SchedulerQuit => SetProducer(sys, SCHEDULER, Producer(Scheduled, Ended, []))
    case Claim(devices) => Create(sys, SCHEDULER, devices)
    case Register(p) =>
      var producer := sys.producers[p];
      if !sys.started then Abort(sys, p)
      else SetProducer(sys, p, producer.(stage := AtChannel)).(lines := Open(sys.lines, producer.todo[0].device))
    case Send(p) =>
      var producer := sys.producers[p];
      SetProducer(sys, p, producer.(stage := Ready, todo := producer.todo[1..])).(
        lines := Push(sys.lines, Entry(producer.todo[0], producer.origin)))
    case SendCancelled(p) => Abort(sys, p)
    case ProducerEnds(p) =>
      var producer := sys.producers[p];
      SetProducer(sys, p, producer.(stage := Ended)).(recoveryDone := sys.recoveryDone || producer.origin == Recovered)
    case Receive(i) => sys.(lines := Pull(sys.lines, i))
    case Check(i) => sys.(lines := Execute(sys.lines, i, sys.cancelled))
    case Mark(i) => sys.(queued := sys.queued - {sys.lines.loops[i].phase.e.run.id})
    case Finish(i) => sys.(lines := SetPhase(sys.lines, i, Idle))
    case Exit(i) => sys.(lines := SetPhase(sys.lines, i, Exited([])))
    case StopLock => sys.(started := false)
    case Cancel => sys.(cancelled := true)
  }

  // ---------------------------------------------------------------- invariants

  /** The entries of one device, in order. */
  function Of(d: string, s: seq<Entry>): seq<Entry> {
    if |s| == 0 then []
    else
      var rest := Of(d, s[..|s| - 1]);
      if s[|s| - 1].run.device == d then rest + [s[|s| - 1]] else rest
  }

  /** Taken from the queue and not executed. */
  function Held(phase: LoopPhase): seq<Entry> {
    match phase
    case Idle => []
    case Received(e) => [e]
    case Executing(_) => []
    case Exited(dropped) => dropped
  }

  predicate AllFor(d: string, s: seq<Entry>) {
    forall e :: e in s ==> e.run.device == d
  }

  /** What a device accepted is what it executed, then what its loop holds, then its queue. */
  ghost predicate LineFits(loop: Loop, queue: seq<Entry>, accepted: seq<Entry>, executed: seq<Entry>) {
    var d := loop.device;
    && |queue| <= QUEUE_SIZE
    && AllFor(d, queue) && AllFor(d, Held(loop.phase))
    && accepted == executed + Held(loop.phase) + queue
    && (loop.phase.Executing? ==> |executed| > 0 && executed[|executed| - 1] == loop.phase.e)
  }

  ghost predicate LineAt(lines: Lines, loop: Loop) {
    && loop.device in lines.queues
    && LineFits(loop, lines.queues[loop.device], Of(loop.device, lines.accepted), Of(loop.device, lines.executed))
  }

  predicate HasLoop(loops: seq<Loop>, d: string) {
    exists i :: 0 <= i < |loops| && loops[i].device == d
  }

  /** One loop for each queue, and every line in order. */
  ghost predicate LinesFit(lines: Lines) {
    && (forall d {:trigger HasLoop(lines.loops, d)} :: d in lines.queues ==> HasLoop(lines.loops, d))
    && (forall i, j :: 0 <= i < j < |lines.loops| ==> lines.loops[i].device != lines.loops[j].device)
    && (forall i :: 0 <= i < |lines.loops| ==> LineAt(lines, lines.loops[i]))
    && (forall d :: d !in lines.queues ==> Of(d, lines.accepted) == [] == Of(d, lines.executed))
  }

  ghost predicate ProducerFits(p: nat, producer: Producer, queues: Queues, recovered: bool) {
    && producer.origin == (if p == RECOVERY then Recovered else if p == SCHEDULER then Scheduled else Manual)
    && (producer.stage == AtChannel ==> producer.todo != [] && producer.todo[0].device in queues)
    && (producer.stage in {Checked, Waiting, Ended} ==> producer.todo == [])
    && (producer.stage == Checked ==> p > SCHEDULER)
    && (p <= SCHEDULER ==> recovered)
  }

  ghost predicate AllFit(producers: map<nat, Producer>, queues: Queues, recovered: bool) {
    forall p :: p in producers ==> ProducerFits(p, producers[p], queues, recovered)
  }

  ghost predicate ProducersFit(sys: Sys) {
    AllFit(sys.producers, sys.lines.queues, sys.recovered)
  }

  /** No run claimed by the scheduler is accepted before a recovered one. */
  ghost predicate RecoveredFirst(s: seq<Entry>) {
    forall i, j :: 0 <= i < j < |s| ==> !(s[i].origin == Scheduled && s[j].origin == Recovered)
  }

  ghost predicate RecoveryFits(sys: Sys) {
    && RecoveredFirst(sys.lines.accepted)
    && (sys.recoveryDone ==> sys.recovered && HasStage(sys, RECOVERY, Ended))
    && (!sys.recoveryDone ==> forall e :: e in sys.lines.accepted ==> e.origin != Scheduled)
    && (!sys.recoveryDone && SCHEDULER in sys.producers ==> sys.producers[SCHEDULER].stage in {Waiting, Ended})
  }

  ghost predicate Ran(executed: seq<Entry>, id: nat) {
    exists e :: e in executed && e.run.id == id
  }

  ghost predicate NothingLost(sys: Sys) {
    forall id :: id in sys.known ==> id in sys.queued || Ran(sys.lines.executed, id)
  }

  ghost predicate IdsFit(sys: Sys) {
    && TableFits(sys.queued, sys.nextId)
    && (forall e :: e in sys.lines.accepted ==> e.run.id < sys.nextId)
    && (forall p: nat, r :: Carried(sys.producers, p, r) ==> r.id < sys.nextId)
  }

  ghost predicate DistinctIds(s: seq<Entry>) {
    forall i, j :: 0 <= i < j < |s| ==> s[i].run.id != s[j].run.id
  }

  /** Nobody carries a run twice, nor one that a queue has accepted already. */
  ghost predicate Once(accepted: seq<Entry>, producers: map<nat, Producer>) {
    && DistinctIds(accepted)
    && (forall p :: p in producers ==> DistinctRuns(producers[p].todo))
    && (forall p: nat, r, e :: Carried(producers, p, r) && e in accepted ==> r.id != e.run.id)
    && (forall p: nat, r, q: nat, s :: Carried(producers, p, r) && Carried(producers, q, s) && p != q ==> r.id != s.id)
  }

  ghost predicate Inv(sys: Sys) {
    && LinesFit(sys.lines) && ProducersFit(sys) && RecoveryFits(sys) && NothingLost(sys) && IdsFit(sys)
    && (sys.clean ==> Once(sys.lines.accepted, sys.producers)) && (sys.clean || sys.recovered)
  }
}
