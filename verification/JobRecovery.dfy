/** Crashes, recovery and whole runs of the agent (src/agent/jobs.rs). */
module JobRecovery {
  import opened Wrappers
  import opened Proto
  import opened JobTable
  import opened JobInvariants

  // ----- crashes between saves -----

  /** Unfinished runs of one flakelet follow one unit. */
  lemma RunningAgree(a: Agent, x: Id, y: Id)
    requires LiveOk(a) && SlotsOk(a) && Covered(a)
    requires x in a.jobs && y in a.jobs && a.jobs[x].state.Running? && a.jobs[y].state.Running?
    requires a.jobs[x].flakelet == a.jobs[y].flakelet
    ensures var key := RunKey(a.jobs[x].flakelet, Begun(a, a.jobs[x].flakelet));
      && key in a.live && a.live[key].run.Some?
      && a.jobs[x].run == a.live[key].run && a.jobs[y].run == a.live[key].run
  {
    var f := a.jobs[x].flakelet;
    var key := RunKey(f, Begun(a, f));
    if f in a.slots { assert SlotOk(a, f); FollowupIds(a, f); }
    hide SlotOk;
    assert InRun(a, x) || InFollowup(a, x);
    assert InRun(a, y) || InFollowup(a, y);
    LiveRunOk(a, key);
    hide LogOk, Distinct, LiveOk, SlotsOk, Covered;
  }

  lemma OnFileOk(j: Job)
    requires JobOk(j)
    ensures FileOk(OnFile(j))
  {
  }

  /** What is on disk between locked sections could be loaded. */
  lemma DiskIsOk(a: Agent)
    requires Inv(a)
    ensures DiskOk(a.disk)
  {
    hide Length;
    hide LiveOk, SlotsOk, Covered, HistoryOk;
    forall id | id in a.disk ensures FileOk(a.disk[id]) {
      OnFileOk(a.jobs[id]);
    }
    hide FileOk, JobOk, JobsOk;
    forall x, y | x in a.disk && y in a.disk && a.disk[x].state.Running? && a.disk[y].state.Running?
                  && a.disk[x].flakelet == a.disk[y].flakelet
      ensures a.disk[x].run == a.disk[y].run
    {
      RunningAgree(a, x, y);
    }
  }

  /** Writing files of jobs that do not run does no harm. */
  lemma MixedDisk(disk: map<Id, Job>, d: map<Id, Job>)
    requires DiskOk(disk)
    requires forall id | id in d :: (id in disk && d[id] == disk[id]) || (FileOk(d[id]) && !d[id].state.Running?)
    ensures DiskOk(d)
  {
    hide FileOk;
  }

  /** While a run waits for its unit, no job of its flakelet runs. */
  lemma NoneRunning(a: Agent, key: RunKey)
    requires LiveOk(a) && SlotsOk(a) && Covered(a) && key in a.live && a.live[key].run.None?
    ensures forall id | id in a.jobs && a.jobs[id].state.Running? :: a.jobs[id].flakelet != key.flakelet
  {
    hide LiveOk, SlotsOk, Covered;
    LiveRunOk(a, key);
    hide RunOk;
    forall id | id in a.jobs && a.jobs[id].state.Running? ensures a.jobs[id].flakelet != key.flakelet {
      RunningAgree(a, id, id);
    }
  }

  /** Saving jobs of one flakelet as running with one unit is harmless when
      none of that flakelet ran before. */
  lemma MarkedDisk(disk: map<Id, Job>, d: map<Id, Job>, f: string, run: Run)
    requires DiskOk(disk)
    requires forall id | id in disk && disk[id].state.Running? :: disk[id].flakelet != f
    requires forall id | id in d ::
      || (id in disk && d[id] == disk[id])
      || (FileOk(d[id]) && d[id].flakelet == f && d[id].run == Some(run))
    ensures DiskOk(d)
  {
    hide FileOk;
  }

  lemma LaunchedFile(j: Job, run: Run)
    requires JobOk(j) && j.state.Pending?
    ensures FileOk(Serialized(MarkRunning(j, run)))
  {
  }

  lemma LaunchCrash(a: Agent, key: RunKey, run: Run, k: nat)
    requires Inv(a) && key in a.live && a.live[key].run.None? && k <= |a.live[key].ids|
    ensures DiskOk(Apply(a.disk, Saves(MarkedRunning(a, key, run), a.live[key].ids[..k])))
  {
    hide Apply, Saves, DiskOk, LiveOk, SlotsOk, Covered, HistoryOk, JobOk, FileOk, RunOk, DiskMatches, JobsOk;
    DiskIsOk(a);
    AllJobsOk(a);
    FilesAgree(a);
    NoneRunning(a, key);
    LiveRunOk(a, key);
    RunIds(a, key);
    Waiting(a, key);
    var jobs, ids := MarkedRunning(a, key, run), a.live[key].ids[..k];
    assert forall id | id in ids :: id in a.live[key].ids;
    SavesAre(a.disk, jobs, ids);
    var d := Apply(a.disk, Saves(jobs, ids));
    forall id | id in ids ensures FileOk(d[id]) {
      LaunchedFile(a.jobs[id], run);
    }
    MarkedDisk(a.disk, d, key.flakelet, run);
  }

  lemma FilesAgree(a: Agent)
    requires DiskMatches(a)
    ensures a.disk.Keys == a.jobs.Keys
    ensures forall id | id in a.disk ::
      a.disk[id].state == a.jobs[id].state && a.disk[id].flakelet == a.jobs[id].flakelet
  {
  }

  lemma Waiting(a: Agent, key: RunKey)
    requires key in a.live && RunOk(a, key) && a.live[key].run.None?
    ensures forall id | id in a.live[key].ids :: id in a.jobs && a.jobs[id].state.Pending?
  {
    hide LogOk, Distinct;
  }

  lemma CompleteCrash(a: Agent, key: RunKey, body: DoneBody, now: nat, k: nat)
    requires Inv(a) && key in a.live && k <= |a.live[key].ids|
    ensures DiskOk(Apply(a.disk, Saves(MarkedDone(a, key, body, now), a.live[key].ids[..k])))
  {
    hide Apply, Saves, RunOk, LiveOk, SlotsOk, Covered, HistoryOk, DiskOk, DiskMatches;
    DiskIsOk(a);
    LiveRunOk(a, key);
    RunIds(a, key);
    DoneOk(a, key, body, now);
    hide JobsOk, JobOk;
    var jobs, ids := MarkedDone(a, key, body, now), a.live[key].ids[..k];
    assert forall id | id in ids :: id in a.live[key].ids;
    SavesAre(a.disk, jobs, ids);
    var d := Apply(a.disk, Saves(jobs, ids));
    forall id | id in ids ensures FileOk(d[id]) && d[id].state.Done? {
      OnFileOk(jobs[id]);
    }
    MixedDisk(a.disk, d);
  }

  /** A prefix of the writes of a pruning stops after some finished job. */
  lemma {:induction false} PrunePrefix(jobs: map<Id, Job>, now: nat, r: Retention, order: seq<Id>, k: nat, n: nat)
    returns (j: nat)
    requires k <= |order| && n <= |PruneWrites(jobs, now, r, order, k)|
    ensures j <= k && PruneWrites(jobs, now, r, order, k)[..n] == PruneWrites(jobs, now, r, order, j)
  {
    var w := PruneWrites(jobs, now, r, order, k);
    if n == |w| {
      j := k;
      assert w[..n] == w;
    } else {
      var before := PruneWrites(jobs, now, r, order, k - 1);
      j := PrunePrefix(jobs, now, r, order, k - 1, n);
      assert w[..n] == before[..n];
    }
  }

  lemma StrippedOk(j: Job)
    requires JobOk(j) && j.state.Done?
    ensures FileOk(Serialized(Strip(j)))
  {
  }

  lemma PruneCrash(disk: map<Id, Job>, jobs: map<Id, Job>, now: nat, r: Retention, order: seq<Id>, k: nat)
    requires DiskOk(disk) && disk.Keys == jobs.Keys && DoneOrder(jobs, order) && k <= |order|
    requires forall id | id in jobs :: JobOk(jobs[id])
    ensures DiskOk(Apply(disk, PruneWrites(jobs, now, r, order, k)))
  {
    hide Apply, PruneWrites, Drops, JobOk, FileOk;
    OrderIsDistinct(jobs, order);
    PruneWritesAre(disk, jobs, now, r, order, k);
    var d := Apply(disk, PruneWrites(jobs, now, r, order, k));
    forall id | id in d && d[id] != disk[id] ensures FileOk(d[id]) && d[id].state.Done? {
      StrippedOk(jobs[id]);
    }
    MixedDisk(disk, d);
  }

  lemma OneWriteCrash(disk: map<Id, Job>, id: Id, j: Job, k: nat)
    requires DiskOk(disk) && FileOk(Serialized(j)) && !j.state.Running? && k <= 1
    ensures DiskOk(Apply(disk, [Put(id, Serialized(j))][..k]))
  {
    var w := [Put(id, Serialized(j))];
    assert w[..0] == [] && w[..1] == w;
    assert Apply(disk, w) == disk[id := Serialized(j)] && Apply(disk, []) == disk;
    hide FileOk, Apply, DiskOk;
    MixedDisk(disk, disk[id := Serialized(j)]);
  }

  lemma JobsAndFiles(a: Agent)
    requires Inv(a)
    ensures JobsOk(a) && DiskMatches(a) && a.disk.Keys == a.jobs.Keys
  {
    hide JobOk;
  }

  lemma NothingApplied(disk: map<Id, Job>)
    ensures Apply(disk, []) == disk
  {
  }

  lemma MarkedKeys(a: Agent, key: RunKey, run: Run, body: DoneBody, now: nat)
    requires key in a.live
    ensures MarkedRunning(a, key, run).Keys == a.jobs.Keys == MarkedDone(a, key, body, now).Keys
  {
  }

  lemma NewFileOk(f: string, who: Caller, now: nat)
    ensures FileOk(Serialized(NewJob(f, who, now))) && NewJob(f, who, now).state.Pending?
  {
  }

  /** A crash between any two saves of any step leaves a directory that can be
      loaded: unfinished jobs without logs, and one unit per flakelet. */
  lemma CrashConsistent(a: Agent, s: Step, k: nat)
    requires Inv(a) && Enabled(a, s) && k <= |Writes(a, s)|
    ensures DiskOk(Apply(a.disk, Writes(a, s)[..k]))
  {
    hide Inv, DiskOk, LiveOk, SlotsOk, Covered, HistoryOk, DiskMatches, JobsOk, JobOk;
    hide Apply, Saves, PruneWrites, FileOk, Serialized, NewJob, LocalJob, MarkedRunning, MarkedDone;
    DiskIsOk(a);
    JobsAndFiles(a);
    assert Apply(a.disk, []) == a.disk by { NothingApplied(a.disk); }
    match s {
      case Start(id, f, who, now) =>
        NewFileOk(f, who, now);
        if Adds(a, id, f) { OneWriteCrash(a.disk, id, NewJob(f, who, now), k); }
      case Launch(key, run) =>
        MarkedKeys(a, key, run, FAILED, 0);
        MarkedSaves(a, key, MarkedRunning(a, key, run), k);
        LaunchCrash(a, key, run, k);
      case Complete(key, body, now) =>
        MarkedKeys(a, key, Run(None, None), body, now);
        MarkedSaves(a, key, MarkedDone(a, key, body, now), k);
        CompleteCrash(a, key, body, now, k);
      case Prune(now, r, order) =>
        var j := PrunePrefix(a.jobs, now, r, order, |order|, k);
        AllJobsOk(a);
        PruneCrash(a.disk, a.jobs, now, r, order, j);
      case Local(own, id, f, at, who, body) =>
        LocalJobOk(f, at, who, body);
        if IsNews(a, own, id) { OneWriteCrash(a.disk, id, LocalJob(f, at, who, body), k); }
      case _ =>
    }
  }

  lemma LocalJobOk(f: string, at: nat, who: Caller, body: DoneBody)
    ensures FileOk(Serialized(LocalJob(f, at, who, body))) && LocalJob(f, at, who, body).state.Done?
  {
  }

  lemma AllJobsOk(a: Agent)
    requires Inv(a)
    ensures forall id | id in a.jobs :: JobOk(a.jobs[id])
    ensures a.disk.Keys == a.jobs.Keys
  {
  }

  lemma MarkedSaves(a: Agent, key: RunKey, jobs: map<Id, Job>, k: nat)
    requires Inv(a) && key in a.live && jobs.Keys == a.jobs.Keys
    requires k <= |Saves(jobs, a.live[key].ids)|
    ensures k <= |a.live[key].ids|
    ensures Saves(jobs, a.live[key].ids)[..k] == Saves(jobs, a.live[key].ids[..k])
  {
    hide RunOk, SlotsOk, Covered, JobsOk, DiskMatches, Saves;
    LiveRunOk(a, key);
    RunIds(a, key);
    SavesAre(map[], jobs, a.live[key].ids);
    SavesUpTo(jobs, a.live[key].ids, k);
  }

  // ----- recovery -----

  /** A listing of a table in any order, as iterating a hash map gives it. */
  ghost predicate Lists(order: seq<Id>, ids: set<Id>) {
    Distinct(order) && forall id :: id in order <==> id in ids
  }

  predicate Is(jobs: map<Id, Job>, id: Id, f: string, st: JobState) {
    id in jobs && jobs[id].flakelet == f && jobs[id].state == st
  }

  /** The jobs of a flakelet in one state, in the order of the listing. */
  function Of(jobs: map<Id, Job>, order: seq<Id>, f: string, st: JobState): seq<Id> {
    if order == [] then [] else
    var id := order[|order| - 1];
    Of(jobs, order[..|order| - 1], f, st) + if Is(jobs, id, f, st) then [id] else []
  }

  function Flakelets(jobs: map<Id, Job>): set<string> {
    set id | id in jobs :: jobs[id].flakelet
  }

  function ResumedSlot(jobs: map<Id, Job>, order: seq<Id>, f: string): Slot {
    var running, pending := Of(jobs, order, f, JobState.Running), Of(jobs, order, f, JobState.Pending);
    if running != [] then Slot(true, pending) else Slot(pending != [], [])
  }

  /** Running jobs are attached to their unit again, whichever of them is
      looked at last. Without any, the pending ones make up a fresh run. */
  function ResumedRun(jobs: map<Id, Job>, order: seq<Id>, f: string): LiveRun {
    var running := Of(jobs, order, f, JobState.Running);
    if running != [] && running[|running| - 1] in jobs then
      LiveRun(running, jobs[running[|running| - 1]].run, 0)
    else LiveRun(Of(jobs, order, f, JobState.Pending), None, 0)
  }

  /** Jobs of the first runs count as having arrived before them. */
  function ResumedArrivals(jobs: map<Id, Job>, order: seq<Id>): map<Id, nat> {
    map id | id in jobs && jobs[id].state.Live() ::
      if id in ResumedRun(jobs, order, jobs[id].flakelet).ids then 0 else 1
  }

  function Resumed(a: Agent, order: seq<Id>): Agent {
    var busy := set f | f in Flakelets(a.jobs) && ResumedSlot(a.jobs, order, f).running;
    a.(slots := map f | f in Flakelets(a.jobs) :: ResumedSlot(a.jobs, order, f),
       live := map f | f in busy :: RunKey(f, 1) := ResumedRun(a.jobs, order, f),
       begun := map f | f in busy :: 1,
       arrived := ResumedArrivals(a.jobs, order))
  }

  /** A table just read from disk, before anything runs. */
  function Loaded(disk: map<Id, Job>): Agent {
    Agent(disk, map[], map[], disk, {}, map[], map[], map[])
  }

  function Booted(disk: map<Id, Job>, now: nat, r: Retention, done: seq<Id>, order: seq<Id>): Agent {
    Resumed(Pruned(Loaded(disk), now, r, done), order)
  }

  lemma {:induction false} OfMembers(jobs: map<Id, Job>, order: seq<Id>, f: string, st: JobState)
    ensures forall id :: id in Of(jobs, order, f, st) <==> id in order && Is(jobs, id, f, st)
  {
    hide Is;
    if order != [] {
      OfMembers(jobs, order[..|order| - 1], f, st);
      assert order == order[..|order| - 1] + [order[|order| - 1]];
    }
  }

  lemma {:induction false} OfDistinct(jobs: map<Id, Job>, order: seq<Id>, f: string, st: JobState)
    requires Distinct(order)
    ensures Distinct(Of(jobs, order, f, st))
  {
    hide Is;
    if order != [] {
      var front, id := order[..|order| - 1], order[|order| - 1];
      OfDistinct(jobs, front, f, st);
      OfMembers(jobs, front, f, st);
      assert id !in front;
    }
  }

  /** The state in which resuming starts. */
  ghost predicate Idle(a: Agent) {
    && JobsOk(a) && DiskMatches(a) && DiskOk(a.disk)
    && a.slots == map[] && a.live == map[] && a.begun == map[] && a.arrived == map[] && a.finishedBy == map[]
    && forall id | id in a.jobs && a.jobs[id].state.Live() :: FileOk(a.jobs[id]) && a.jobs[id] == a.disk[id]
  }

  lemma LoadedIsIdle(disk: map<Id, Job>)
    requires DiskOk(disk)
    ensures Idle(Loaded(disk))
  {
    hide Numbered, Capped;
  }

  lemma PrunedIsIdle(disk: map<Id, Job>, now: nat, r: Retention, done: seq<Id>)
    requires DiskOk(disk) && DoneOrder(disk, done)
    ensures var a := Pruned(Loaded(disk), now, r, done);
      Idle(a) && a.jobs == Kept(disk, now, r, done)
  {
    var a := Loaded(disk);
    LoadedIsIdle(disk);
    hide JobsOk, DiskMatches, DiskOk, FileOk, DoneOrder, Kept, Apply, PruneWrites, JobOk;
    PruneKeepsFiles(a, now, r, done);
    PruneKeepsJobs(a, now, r, done);
    UnfinishedStay(a, now, r, done);
    LoadedJobs(disk);
    PruneCrash(disk, disk, now, r, done, |done|);
    UnfinishedFiles(Pruned(a, now, r, done));
  }

  lemma LoadedJobs(disk: map<Id, Job>)
    requires DiskOk(disk)
    ensures forall id | id in disk :: JobOk(disk[id])
    ensures forall id | id in disk && disk[id].state.Live() :: FileOk(disk[id]) && disk[id] == OnFile(disk[id])
  {
    hide JobOk;
  }

  lemma UnfinishedFiles(a: Agent)
    requires DiskMatches(a)
    ensures forall id | id in a.jobs && a.jobs[id] == OnFile(a.jobs[id]) :: id in a.disk && a.jobs[id] == a.disk[id]
  {
  }

  ghost predicate AnyRunning(jobs: map<Id, Job>, f: string) {
    exists id :: Is(jobs, id, f, JobState.Running)
  }

  /** What resuming makes of a flakelet, whatever the order of the listing. If
      some of its jobs were running, they are attached to their common unit and
      the pending ones follow; otherwise the pending ones start afresh. */
  ghost predicate Sorted(jobs: map<Id, Job>, f: string, slot: Slot, l: LiveRun) {
    && Distinct(l.ids) && Distinct(slot.followup) && l.lines == 0
    && (forall id :: id in l.ids <==>
          Is(jobs, id, f, if AnyRunning(jobs, f) then JobState.Running else JobState.Pending))
    && (forall id :: id in slot.followup <==> AnyRunning(jobs, f) && Is(jobs, id, f, JobState.Pending))
    && (slot.running <==> l.ids != [])
    && (if AnyRunning(jobs, f) then l.run.Some? else l.run.None?)
    && (forall id | id in l.ids :: id in jobs && jobs[id].run == l.run)
  }

  lemma ResumeSorts(jobs: map<Id, Job>, order: seq<Id>, f: string)
    requires forall id | id in jobs :: JobOk(jobs[id])
    requires forall x, y | Is(jobs, x, f, JobState.Running) && Is(jobs, y, f, JobState.Running) ::
      jobs[x].run == jobs[y].run
    requires Lists(order, jobs.Keys)
    ensures Sorted(jobs, f, ResumedSlot(jobs, order, f), ResumedRun(jobs, order, f))
  {
    hide Length;
    OfMembers(jobs, order, f, JobState.Running);
    OfMembers(jobs, order, f, JobState.Pending);
    OfDistinct(jobs, order, f, JobState.Running);
    OfDistinct(jobs, order, f, JobState.Pending);
    RunFields(jobs);
    hide Of, DiskOk, JobOk;
    var running := Of(jobs, order, f, JobState.Running);
    if running != [] { assert running[|running| - 1] in running; }
    hide Distinct;
    assert AnyRunning(jobs, f) <==> running != [];
    hide AnyRunning;
  }

  lemma RunFields(jobs: map<Id, Job>)
    requires forall id | id in jobs :: JobOk(jobs[id])
    ensures forall id | id in jobs ::
      (jobs[id].state.Running? ==> jobs[id].run.Some?) && (jobs[id].state.Pending? ==> jobs[id].run.None?)
  {
    hide Numbered, Capped;
  }

  lemma IdleSorts(a: Agent, order: seq<Id>)
    requires Idle(a) && Lists(order, a.jobs.Keys)
    ensures forall f :: Sorted(a.jobs, f, ResumedSlot(a.jobs, order, f), ResumedRun(a.jobs, order, f))
  {
    forall f ensures Sorted(a.jobs, f, ResumedSlot(a.jobs, order, f), ResumedRun(a.jobs, order, f)) {
      hide Sorted, ResumedSlot, ResumedRun, Lists, FileOk, DiskMatches, JobOk;
      ResumeSorts(a.jobs, order, f);
    }
  }

  lemma EmptyLog(j: Job)
    requires FileOk(j) && j.state.Live()
    ensures LogOk(j, 0) && j.logs == [] && j.logBytes == 0 && !j.truncated
  {
    hide Numbered, Capped, EndsInMarker;
  }

  /** What resuming does to each part of the state, by flakelet. */
  lemma ResumedParts(a: Agent, order: seq<Id>)
    ensures var b := Resumed(a, order);
      && b.jobs == a.jobs && b.disk == a.disk && b.finishedBy == a.finishedBy
      && (forall f :: f in b.slots <==> f in Flakelets(a.jobs))
      && (forall f | f in b.slots :: b.slots[f] == ResumedSlot(a.jobs, order, f))
      && (forall k :: k in b.live <==> k.number == 1 && k.flakelet in b.slots && b.slots[k.flakelet].running)
      && (forall k | k in b.live :: b.live[k] == ResumedRun(a.jobs, order, k.flakelet))
      && (forall f :: Begun(b, f) == if f in b.slots && b.slots[f].running then 1 else 0)
      && (forall id :: id in b.arrived <==> id in a.jobs && a.jobs[id].state.Live())
      && (forall id | id in b.arrived :: b.arrived[id] ==
            if id in ResumedRun(a.jobs, order, a.jobs[id].flakelet).ids then 0 else 1)
  {
    hide Flakelets, ResumedSlot, ResumedRun;
    forall k ensures k in Resumed(a, order).live <==>
      k.number == 1 && k.flakelet in Flakelets(a.jobs) && ResumedSlot(a.jobs, order, k.flakelet).running
    {
      assert k == RunKey(k.flakelet, k.number);
    }
  }

  lemma ResumedRuns(a: Agent, order: seq<Id>)
    requires Idle(a) && Lists(order, a.jobs.Keys)
    ensures LiveOk(Resumed(a, order))
  {
    hide Resumed, ResumedSlot, ResumedRun, Lists, Flakelets, DiskMatches, JobsOk, AnyRunning, FileOk, LogOk, DiskOk;
    var b := Resumed(a, order);
    ResumedParts(a, order);
    IdleSorts(a, order);
    forall id | id in a.jobs && a.jobs[id].state.Live()
      ensures LogOk(a.jobs[id], 0) && a.jobs[id].logs == [] && a.jobs[id].logBytes == 0 && !a.jobs[id].truncated
    {
      EmptyLog(a.jobs[id]);
    }
    hide Idle, Distinct;
    forall k | k in b.live ensures RunOk(b, k) {
      assert Sorted(a.jobs, k.flakelet, b.slots[k.flakelet], b.live[k]);
    }
    hide Sorted, RunOk;
  }

  lemma ResumedSlots(a: Agent, order: seq<Id>)
    requires Idle(a) && Lists(order, a.jobs.Keys)
    ensures SlotsOk(Resumed(a, order))
  {
    hide Resumed, ResumedSlot, ResumedRun, Lists, Flakelets, DiskMatches, JobsOk, FileOk, LogOk, DiskOk;
    var b := Resumed(a, order);
    ResumedParts(a, order);
    IdleSorts(a, order);
    hide Idle, Distinct;
    forall f | f in b.slots ensures SlotOk(b, f) {
      var slot, l := b.slots[f], ResumedRun(a.jobs, order, f);
      assert Sorted(a.jobs, f, slot, l);
      if slot.followup != [] {
        assert slot.followup[0] in slot.followup;
        var id :| Is(a.jobs, id, f, JobState.Running);
        assert id in l.ids;
      }
    }
  }

  lemma ResumedCover(a: Agent, order: seq<Id>)
    requires Idle(a) && Lists(order, a.jobs.Keys)
    ensures Covered(Resumed(a, order))
  {
    hide Resumed, ResumedSlot, ResumedRun, Lists, DiskMatches, JobsOk, FileOk, LogOk, DiskOk;
    var b := Resumed(a, order);
    ResumedParts(a, order);
    IdleSorts(a, order);
    hide Idle, Distinct;
    forall id | id in b.jobs && b.jobs[id].state.Live() ensures InRun(b, id) || InFollowup(b, id) {
      var f := b.jobs[id].flakelet;
      assert f in b.slots && Sorted(a.jobs, f, b.slots[f], ResumedRun(a.jobs, order, f));
      assert Is(a.jobs, id, f, b.jobs[id].state);
    }
  }

  /** Resuming from any listing of the table restores the invariant. */
  lemma ResumeRestores(a: Agent, order: seq<Id>)
    requires Idle(a) && Lists(order, a.jobs.Keys)
    ensures Inv(Resumed(a, order))
  {
    ResumedParts(a, order);
    ResumedRuns(a, order);
    ResumedSlots(a, order);
    ResumedCover(a, order);
    hide Resumed, ResumedSlot, ResumedRun, Lists, LiveOk, SlotsOk, Covered, JobOk, FileOk, OnFile, DiskOk;
  }

  /** Recovery: loading, pruning and resuming any directory a crash may leave
      gives a table in which every pending or running job is in exactly one list:
      attached to its running unit, in a fresh run, or behind the former. All
      others, those of a state the program does not know among them, are in none.
      The outcome depends on the directory alone and not on the listing. */
  lemma Recovers(disk: map<Id, Job>, now: nat, r: Retention, done: seq<Id>, order: seq<Id>)
    requires DiskOk(disk) && DoneOrder(disk, done) && Lists(order, Kept(disk, now, r, done).Keys)
    ensures var b := Booted(disk, now, r, done, order);
      && Inv(b)
      && b.jobs == Kept(disk, now, r, done)
      && (forall id | id in disk && !disk[id].state.Done? :: id in b.jobs && b.jobs[id] == disk[id])
      && (forall k | k in b.live :: Sorted(b.jobs, k.flakelet, b.slots[k.flakelet], b.live[k]))
      && (forall id | id in disk && disk[id].state.Live() :: InRun(b, id) != InFollowup(b, id))
      && (forall id | id in b.jobs && !b.jobs[id].state.Live() :: !InRun(b, id) && !InFollowup(b, id))
  {
    var a := Pruned(Loaded(disk), now, r, done);
    PrunedIsIdle(disk, now, r, done);
    assert Loaded(disk).jobs == disk;
    UnfinishedStay(Loaded(disk), now, r, done);
    hide Kept, Pruned, DoneOrder, Idle, Loaded;
    ResumeRestores(a, order);
    IdleSorts(a, order);
    ResumedParts(a, order);
    var b := Resumed(a, order);
    hide Resumed, ResumedSlot, ResumedRun, Sorted, Flakelets, Lists, DiskOk;
    forall id | id in b.jobs && b.jobs[id].state.Live() ensures InRun(b, id) != InFollowup(b, id) {
      OnePlaceEach(b, id);
    }
    forall id | id in b.jobs && !b.jobs[id].state.Live() ensures !InRun(b, id) && !InFollowup(b, id) {
      OthersNowhere(b, id);
    }
  }

  /** In every state a job that is not pending or running is in no list. */
  lemma OthersNowhere(a: Agent, id: Id)
    requires Inv(a) && id in a.jobs && !a.jobs[id].state.Live()
    ensures !InRun(a, id) && !InFollowup(a, id)
  {
    assert LiveOk(a) && SlotsOk(a);
    hide LiveOk, RunOk, SlotOk, DiskMatches, JobsOk, HistoryOk, Inv, Covered;
    var f := a.jobs[id].flakelet;
    var key := RunKey(f, Begun(a, f));
    if key in a.live {
      LiveRunOk(a, key);
      RunIds(a, key);
    }
    if f in a.slots {
      assert SlotOk(a, f);
      FollowupIds(a, f);
    }
  }

  /** Two listings of a table just loaded give the same runs with the same
      jobs and units. */
  lemma ListingIsIrrelevant(a: Agent, order: seq<Id>, order': seq<Id>)
    requires Idle(a) && Lists(order, a.jobs.Keys) && Lists(order', a.jobs.Keys)
    ensures var b, c := Resumed(a, order), Resumed(a, order');
      && b.jobs == c.jobs && b.live.Keys == c.live.Keys && b.slots.Keys == c.slots.Keys
      && (forall k | k in b.live ::
            b.live[k].run == c.live[k].run && (forall id :: id in b.live[k].ids <==> id in c.live[k].ids))
      && (forall f | f in b.slots ::
            b.slots[f].running == c.slots[f].running
            && (forall id :: id in b.slots[f].followup <==> id in c.slots[f].followup))
  {
    hide *;
    SameForEach(a, order, order');
    ResumedParts(a, order);
    ResumedParts(a, order');
  }

  lemma SameForEach(a: Agent, order: seq<Id>, order': seq<Id>)
    requires Idle(a) && Lists(order, a.jobs.Keys) && Lists(order', a.jobs.Keys)
    ensures forall f :: ResumedSlot(a.jobs, order, f).running == ResumedSlot(a.jobs, order', f).running
    ensures forall f :: ResumedRun(a.jobs, order, f).run == ResumedRun(a.jobs, order', f).run
    ensures forall f, id :: id in ResumedRun(a.jobs, order, f).ids <==> id in ResumedRun(a.jobs, order', f).ids
    ensures forall f, id :: id in ResumedSlot(a.jobs, order, f).followup <==>
      id in ResumedSlot(a.jobs, order', f).followup
  {
    hide Idle, ResumedSlot, ResumedRun, Lists, Sorted;
    IdleSorts(a, order);
    IdleSorts(a, order');
    forall f ensures
      var s, s' := ResumedSlot(a.jobs, order, f), ResumedSlot(a.jobs, order', f);
      var l, l' := ResumedRun(a.jobs, order, f), ResumedRun(a.jobs, order', f);
      s.running == s'.running && l.run == l'.run
      && (forall id :: id in l.ids <==> id in l'.ids) && (forall id :: id in s.followup <==> id in s'.followup)
    {
      SortedTwice(a.jobs, f, ResumedSlot(a.jobs, order, f), ResumedRun(a.jobs, order, f),
                  ResumedSlot(a.jobs, order', f), ResumedRun(a.jobs, order', f));
    }
  }

  lemma SortedTwice(jobs: map<Id, Job>, f: string, s: Slot, l: LiveRun, s': Slot, l': LiveRun)
    requires Sorted(jobs, f, s, l) && Sorted(jobs, f, s', l')
    ensures s.running == s'.running && l.run == l'.run
    ensures (forall id :: id in l.ids <==> id in l'.ids) && (forall id :: id in s.followup <==> id in s'.followup)
  {
    hide Is, Distinct;
    if AnyRunning(jobs, f) {
      var id :| Is(jobs, id, f, JobState.Running);
      assert id in l.ids && id in l'.ids;
    }
    if l.ids != [] { assert l.ids[0] in l.ids && l.ids[0] in l'.ids; }
    if l'.ids != [] { assert l'.ids[0] in l'.ids && l'.ids[0] in l.ids; }
  }

  /** In every state an unfinished job is in exactly one list. */
  lemma OnePlaceEach(a: Agent, id: Id)
    requires Inv(a) && id in a.jobs && a.jobs[id].state.Live()
    ensures InRun(a, id) != InFollowup(a, id)
    ensures a.jobs[id].flakelet in a.slots && a.slots[a.jobs[id].flakelet].running
  {
    assert LiveOk(a) && SlotsOk(a) && Covered(a);
    hide LiveOk, SlotsOk, RunOk, SlotOk, DiskMatches, JobsOk, HistoryOk, Inv;
    var f := a.jobs[id].flakelet;
    var key := RunKey(f, Begun(a, f));
    assert InRun(a, id) || InFollowup(a, id);
    if key in a.live {
      LiveRunOk(a, key);
      OnePlace(a, key);
    }
    SlotFacts(a, f);
  }

  lemma SlotFacts(a: Agent, f: string)
    requires SlotsOk(a)
    ensures f in a.slots ==>
      && (a.slots[f].running <==> RunKey(f, Begun(a, f)) in a.live)
      && (!a.slots[f].running ==> a.slots[f].followup == [])
  {
    if f in a.slots { assert SlotOk(a, f); }
  }
}
