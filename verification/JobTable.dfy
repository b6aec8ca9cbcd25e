/** The agent's job table (src/agent/jobs.rs) as values: one function per
    locked section, and the writes to the state directory it makes. */
module JobTable {
  import opened Wrappers
  import opened Proto
  import Utf8

  const LOG_CAP := 0x10_0000
  const MARKER := "[flakelet-agent: log limit reached, further output dropped]"
  const DAY := 86400

  /** Where a unit's journal begins and the generation before it. */
  datatype Run = Run(cursor: Option<string>, before: Option<nat>)

  datatype Job = Job(flakelet: string, state: JobState, created: nat, finished: Option<nat>, who: Caller,
                     run: Option<Run>, logs: seq<(nat, string)>, logBytes: nat, truncated: bool,
                     done: Option<DoneBody>)

  datatype Slot = Slot(running: bool, followup: seq<Id>)

  /** Runs of one flakelet are numbered in the order in which their job lists
      are fixed. */
  datatype RunKey = RunKey(flakelet: string, number: nat)

  /** One turn of a run loop: its jobs, the unit it follows once that is known
      and saved, and how many lines it has recorded. */
  datatype LiveRun = LiveRun(ids: seq<Id>, run: Option<Run>, lines: nat)

  datatype Retention = Retention(keepJobsDays: nat, keepLogsDays: nat, maxJobs: nat)

  /** The last three fields are history and no step reads them to decide
      anything: how many runs of a flakelet have begun, which numbers them, how
      many had begun when a job arrived, and the run that finished it. */
  datatype Agent = Agent(jobs: map<Id, Job>, slots: map<string, Slot>, live: map<RunKey, LiveRun>,
                         disk: map<Id, Job>, described: set<string>,
                         begun: map<string, nat>, arrived: map<Id, nat>, finishedBy: map<Id, nat>)

  datatype Write = Put(id: Id, job: Job) | Remove(id: Id)

  // ----- single jobs -----

  function NewJob(flakelet: string, who: Caller, now: nat): Job {
    Job.Job(flakelet, JobState.Pending, now, None, who, None, [], 0, false, None)
  }

  /** What is written to a job's file: two fields are never serialized. */
  function Serialized(j: Job): Job {
    j.(logBytes := 0, truncated := false)
  }

  /** The bytes of a text. */
  function Length(text: string): nat {
    |Utf8.Encode(text)|
  }

  function RecordLine(j: Job, number: nat, line: string): Job {
    if j.truncated then j
    else if j.logBytes + Length(line) > LOG_CAP then j.(truncated := true, logs := j.logs + [(number, MARKER)])
    else j.(logBytes := j.logBytes + Length(line), logs := j.logs + [(number, line)])
  }

  function MarkRunning(j: Job, run: Run): Job {
    j.(state := JobState.Running, run := Some(run))
  }

  function MarkDone(j: Job, body: DoneBody, now: nat): Job {
    j.(state := JobState.Done, finished := Some(now), done := Some(body))
  }

  function AllRunning(jobs: map<Id, Job>, ids: seq<Id>, run: Run): map<Id, Job> {
    map id | id in jobs :: if id in ids then MarkRunning(jobs[id], run) else jobs[id]
  }

  function AllDone(jobs: map<Id, Job>, ids: seq<Id>, body: DoneBody, now: nat): map<Id, Job> {
    map id | id in jobs :: if id in ids then MarkDone(jobs[id], body, now) else jobs[id]
  }

  function AllLogged(jobs: map<Id, Job>, ids: seq<Id>, number: nat, line: string): map<Id, Job> {
    map id | id in jobs :: if id in ids then RecordLine(jobs[id], number, line) else jobs[id]
  }

  function LogFrames(id: Id, logs: seq<(nat, string)>): seq<Frame> {
    if logs == [] then []
    else LogFrames(id, logs[..|logs| - 1]) + [Frame.Log(id, logs[|logs| - 1].0, logs[|logs| - 1].1)]
  }

  /** Everything known about a job, for one connection. */
  function Frames(id: Id, j: Job): seq<Frame> {
    [Frame.Ack(id, true, "")] + LogFrames(id, j.logs) +
    match j.done case None => [] case Some(body) => [Frame.Done(id, body)]
  }

  function Summary(id: Id, j: Job): JobRef {
    var done := j.done;
    JobRef(id, j.flakelet, j.state, j.who, j.created, j.finished,
           if done.Some? then Some(done.value.status) else None,
           if done.Some? then done.value.generation else None,
           if done.Some? then done.value.revision else None)
  }

  /** What recording a line broadcasts, job by job. */
  function LineFrames(jobs: map<Id, Job>, ids: seq<Id>, number: nat, line: string): seq<Frame> {
    if ids == [] then [] else
    var id := ids[|ids| - 1];
    LineFrames(jobs, ids[..|ids| - 1], number, line) +
    if id in jobs && !jobs[id].truncated then
      [Frame.Log(id, number, if jobs[id].logBytes + Length(line) > LOG_CAP then MARKER else line)]
    else []
  }

  /** What saving and, at the end of a run, finishing jobs broadcasts. */
  function SaveFrames(jobs: map<Id, Job>, ids: seq<Id>, done: Option<DoneBody>): seq<Frame> {
    if ids == [] then [] else
    var id := ids[|ids| - 1];
    SaveFrames(jobs, ids[..|ids| - 1], done)
    + (if done.Some? then [Frame.Done(id, done.value)] else [])
    + (if id in jobs then [Frame.Job(Summary(id, jobs[id]))] else [])
  }

  /** What stripping old logs broadcasts. */
  function PruneFrames(jobs: map<Id, Job>, now: nat, r: Retention, order: seq<Id>, k: nat): seq<Frame>
    requires k <= |order|
  {
    if k == 0 then [] else
    var id := order[k - 1];
    PruneFrames(jobs, now, r, order, k - 1) +
    if !Drops(jobs, now, r, order, k - 1) && id in jobs && Stale(jobs[id], now, r) then
      [Frame.Job(Summary(id, Strip(jobs[id])))]
    else []
  }

  // ----- the state directory -----

  function Apply(disk: map<Id, Job>, writes: seq<Write>): map<Id, Job> {
    if writes == [] then disk else
    var before := Apply(disk, writes[..|writes| - 1]);
    match writes[|writes| - 1]
    case Put(id, job) => before[id := job]
    case Remove(id) => before - {id}
  }

  /** `save` for each id in turn. */
  function Saves(jobs: map<Id, Job>, ids: seq<Id>): seq<Write> {
    if ids == [] then [] else
    var id := ids[|ids| - 1];
    Saves(jobs, ids[..|ids| - 1]) + if id in jobs then [Put(id, Serialized(jobs[id]))] else []
  }

  // ----- the locked sections -----

  function Begun(a: Agent, flakelet: string): nat {
    if flakelet in a.begun then a.begun[flakelet] else 0
  }

  function SlotOf(a: Agent, flakelet: string): Slot {
    if flakelet in a.slots then a.slots[flakelet] else Slot(false, [])
  }

  /** Whether a `start` adds a job rather than being refused or replayed. */
  predicate Adds(a: Agent, id: Id, flakelet: string) {
    flakelet in a.described && id !in a.jobs
  }

  /** The frames `start` answers with. */
  function Reply(a: Agent, id: Id, flakelet: string): seq<Frame> {
    if flakelet !in a.described then [Frame.Ack(id, false, "no such flakelet on this host")]
    else if id in a.jobs then
      if a.jobs[id].flakelet != flakelet then [Frame.Ack(id, false, "id already used for another flakelet")]
      else Frames(id, a.jobs[id])
    else [Frame.Ack(id, true, "")]
  }

  function Started(a: Agent, id: Id, flakelet: string, who: Caller, now: nat): Agent {
    if !Adds(a, id, flakelet) then a else
    var n, slot, job := Begun(a, flakelet), SlotOf(a, flakelet), NewJob(flakelet, who, now);
    var b := a.(jobs := a.jobs[id := job], disk := a.disk[id := Serialized(job)],
                arrived := a.arrived[id := n], finishedBy := a.finishedBy - {id});
    if slot.running then
      b.(slots := a.slots[flakelet := slot.(followup := slot.followup + [id])])
    else
      b.(slots := a.slots[flakelet := slot.(running := true)],
         live := a.live[RunKey(flakelet, n + 1) := LiveRun([id], None, 0)],
         begun := a.begun[flakelet := n + 1])
  }

  function MarkedRunning(a: Agent, key: RunKey, run: Run): map<Id, Job>
    requires key in a.live
  {
    AllRunning(a.jobs, a.live[key].ids, run)
  }

  function Launched(a: Agent, key: RunKey, run: Run): Agent
    requires key in a.live
  {
    var jobs := MarkedRunning(a, key, run);
    a.(jobs := jobs, disk := Apply(a.disk, Saves(jobs, a.live[key].ids)),
       live := a.live[key := a.live[key].(run := Some(run), lines := 0)])
  }

  function Logged(a: Agent, key: RunKey, line: string): Agent
    requires key in a.live
  {
    var l := a.live[key];
    a.(jobs := AllLogged(a.jobs, l.ids, l.lines + 1, line),
       live := a.live[key := l.(lines := l.lines + 1)])
  }

  function AllBy(ids: seq<Id>, number: nat): map<Id, nat> {
    map id | id in ids :: number
  }

  function MarkedDone(a: Agent, key: RunKey, body: DoneBody, now: nat): map<Id, Job>
    requires key in a.live
  {
    AllDone(a.jobs, a.live[key].ids, body, now)
  }

  /** The end of a run: its jobs are done, and the jobs that arrived meanwhile
      make up the next one. */
  function Completed(a: Agent, key: RunKey, body: DoneBody, now: nat): Agent
    requires key in a.live
  {
    var jobs := MarkedDone(a, key, body, now);
    var f, slot := key.flakelet, SlotOf(a, key.flakelet);
    var b := a.(jobs := jobs, disk := Apply(a.disk, Saves(jobs, a.live[key].ids)),
                finishedBy := a.finishedBy + AllBy(a.live[key].ids, key.number));
    if slot.followup == [] then
      b.(slots := a.slots[f := Slot(false, [])], live := a.live - {key})
    else
      b.(slots := a.slots[f := Slot(true, [])],
         live := (a.live - {key})[RunKey(f, key.number + 1) := LiveRun(slot.followup, None, 0)],
         begun := a.begun[f := key.number + 1])
  }

  /** A generation switch that was not one of ours is recorded once. */
  predicate IsNews(a: Agent, own: Option<Id>, id: Id) {
    !(own.Some? && own.value in a.jobs) && id !in a.jobs
  }

  function LocalJob(flakelet: string, at: nat, who: Caller, body: DoneBody): Job {
    Job.Job(flakelet, JobState.Done, at, Some(at), who, None, [], 0, false, Some(body))
  }

  function Noted(a: Agent, own: Option<Id>, id: Id, job: Job): Agent {
    if !IsNews(a, own, id) then a
    else a.(jobs := a.jobs[id := job], disk := a.disk[id := Serialized(job)])
  }

  // ----- retention -----

  predicate Expired(created: nat, days: nat, now: nat) {
    created + days * DAY <= now
  }

  predicate Before(jobs: map<Id, Job>, x: Id, y: Id)
    requires x in jobs && y in jobs
  {
    jobs[x].created < jobs[y].created || (jobs[x].created == jobs[y].created && x < y)
  }

  /** The finished jobs by creation time, then id. */
  ghost predicate DoneOrder(jobs: map<Id, Job>, order: seq<Id>) {
    && (forall i | 0 <= i < |order| :: order[i] in jobs && jobs[order[i]].state.Done?)
    && (forall id | id in jobs && jobs[id].state.Done? :: id in order)
    && (forall i, j | 0 <= i < j < |order| :: Before(jobs, order[i], order[j]))
  }

  /** Whether retention drops the i-th oldest finished job. */
  predicate Drops(jobs: map<Id, Job>, now: nat, r: Retention, order: seq<Id>, i: nat)
    requires i < |order|
  {
    || i + r.maxJobs < |jobs|
    || (order[i] in jobs && Expired(jobs[order[i]].created, r.keepJobsDays, now))
  }

  function Gone(jobs: map<Id, Job>, now: nat, r: Retention, order: seq<Id>): set<Id> {
    set i | 0 <= i < |order| && Drops(jobs, now, r, order, i) :: order[i]
  }

  predicate Stale(j: Job, now: nat, r: Retention) {
    j.state.Done? && Expired(j.created, r.keepLogsDays, now) && j.logs != []
  }

  function Strip(j: Job): Job {
    j.(logs := [], truncated := true)
  }

  function PruneWrites(jobs: map<Id, Job>, now: nat, r: Retention, order: seq<Id>, k: nat): seq<Write>
    requires k <= |order|
  {
    if k == 0 then [] else
    var id := order[k - 1];
    PruneWrites(jobs, now, r, order, k - 1) +
    if Drops(jobs, now, r, order, k - 1) then [Remove(id)]
    else if id in jobs && Stale(jobs[id], now, r) then [Put(id, Serialized(Strip(jobs[id])))]
    else []
  }

  function Kept(jobs: map<Id, Job>, now: nat, r: Retention, order: seq<Id>): map<Id, Job> {
    map id | id in jobs && id !in Gone(jobs, now, r, order) ::
      if Stale(jobs[id], now, r) then Strip(jobs[id]) else jobs[id]
  }

  function Pruned(a: Agent, now: nat, r: Retention, order: seq<Id>): Agent {
    a.(jobs := Kept(a.jobs, now, r, order),
       disk := Apply(a.disk, PruneWrites(a.jobs, now, r, order, |order|)))
  }

  // ----- steps -----

  datatype Step =
    | Start(id: Id, flakelet: string, who: Caller, now: nat)
    | Launch(key: RunKey, run: Run)
    | Line(key: RunKey, line: string)
    | Complete(key: RunKey, body: DoneBody, now: nat)
    | Prune(now: nat, r: Retention, order: seq<Id>)
    | Local(own: Option<Id>, id: Id, flakelet: string, at: nat, who: Caller, body: DoneBody)
    | Refresh(names: set<string>)

  ghost predicate Enabled(a: Agent, s: Step) {
    match s
    case Launch(key, _) => key in a.live && a.live[key].run.None?
    case Line(key, _) => key in a.live && a.live[key].run.Some?
    case Complete(key, _, _) => key in a.live && a.live[key].run.Some?
    case Prune(_, _, order) => DoneOrder(a.jobs, order)
    case _ => true
  }

  /** The saves and removals of a step, in order. A crash may fall between any
      two of them. */
  ghost function Writes(a: Agent, s: Step): seq<Write>
    requires Enabled(a, s)
  {
    match s
    case Start(id, flakelet, who, now) =>
      if Adds(a, id, flakelet) then [Put(id, Serialized(NewJob(flakelet, who, now)))] else []
    case Launch(key, run) => Saves(MarkedRunning(a, key, run), a.live[key].ids)
    case Complete(key, body, now) => Saves(MarkedDone(a, key, body, now), a.live[key].ids)
    case Prune(now, r, order) => PruneWrites(a.jobs, now, r, order, |order|)
    case Local(own, id, f, at, who, body) =>
      if IsNews(a, own, id) then [Put(id, Serialized(LocalJob(f, at, who, body)))] else []
    case _ => []
  }

  /** What a step tells every connected relay. */
  ghost function Broadcasts(a: Agent, s: Step): seq<Frame>
    requires Enabled(a, s)
  {
    match s
    case Start(id, f, who, now) => if Adds(a, id, f) then [Frame.Job(Summary(id, NewJob(f, who, now)))] else []
    case Launch(key, run) => SaveFrames(MarkedRunning(a, key, run), a.live[key].ids, None)
    case Line(key, line) => LineFrames(a.jobs, a.live[key].ids, a.live[key].lines + 1, line)
    case Complete(key, body, now) => SaveFrames(MarkedDone(a, key, body, now), a.live[key].ids, Some(body))
    case Prune(now, r, order) => PruneFrames(a.jobs, now, r, order, |order|)
    case Local(own, id, f, at, who, body) =>
      if !IsNews(a, own, id) then [] else
      var frame := Frame.Job(Summary(id, LocalJob(f, at, who, body)));
      [frame, frame]
    case Refresh(_) => []
  }

  ghost function Do(a: Agent, s: Step): Agent
    requires Enabled(a, s)
  {
    match s
    case Start(id, flakelet, who, now) => Started(a, id, flakelet, who, now)
    case Launch(key, run) => Launched(a, key, run)
    case Line(key, line) => Logged(a, key, line)
    case Complete(key, body, now) => Completed(a, key, body, now)
    case Prune(now, r, order) => Pruned(a, now, r, order)
    case Local(own, id, f, at, who, body) => Noted(a, own, id, LocalJob(f, at, who, body))
    case Refresh(names) => a.(described := names)
  }
}
