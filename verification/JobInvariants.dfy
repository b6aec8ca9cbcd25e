/** What every locked section of the agent keeps (src/agent/jobs.rs). */
module JobInvariants {
  import opened Wrappers
  import opened Proto
  import opened JobTable

  // ----- logs -----

  function Size(logs: seq<(nat, string)>): nat {
    if logs == [] then 0 else Size(logs[..|logs| - 1]) + Length(logs[|logs| - 1].1)
  }

  /** Lines are numbered from one without gaps. */
  ghost predicate Numbered(logs: seq<(nat, string)>) {
    forall k | 0 <= k < |logs| :: logs[k].0 == k + 1
  }

  predicate EndsInMarker(logs: seq<(nat, string)>) {
    logs != [] && logs[|logs| - 1].1 == MARKER && Size(logs[..|logs| - 1]) <= LOG_CAP
  }

  /** At most the cap, and after that only the marker. */
  predicate Capped(logs: seq<(nat, string)>) {
    Size(logs) <= LOG_CAP || EndsInMarker(logs)
  }

  // ----- the invariant -----

  ghost predicate Distinct(ids: seq<Id>) {
    forall i, j | 0 <= i < j < |ids| :: ids[i] != ids[j]
  }

  ghost predicate JobOk(j: Job) {
    && Numbered(j.logs) && Capped(j.logs)
    && (j.state.Pending? ==> j.logs == [] && j.logBytes == 0 && !j.truncated && j.run.None? && j.done.None?)
    && (j.state.Running? ==> j.run.Some? && j.done.None?)
    && (j.state.Done? ==> j.done.Some?)
  }

  /** What a file may hold: unfinished jobs never carry a log. */
  ghost predicate FileOk(j: Job) {
    && JobOk(j) && j.logBytes == 0 && !j.truncated
    && (j.state.Live() ==> j.logs == [])
  }

  /** What the state directory may hold at any moment, between any two saves:
      all unfinished runs of one flakelet follow the same unit. */
  ghost predicate DiskOk(disk: map<Id, Job>) {
    && (forall id | id in disk :: FileOk(disk[id]))
    && (forall x, y | x in disk && y in disk && disk[x].state.Running? && disk[y].state.Running?
                      && disk[x].flakelet == disk[y].flakelet :: disk[x].run == disk[y].run)
  }

  /** The lines a live job has recorded of the run's. */
  ghost predicate LogOk(j: Job, lines: nat) {
    if j.truncated then EndsInMarker(j.logs) && |j.logs| <= lines
    else |j.logs| == lines && j.logBytes == Size(j.logs) <= LOG_CAP
  }

  /** The jobs of a run belong to it, wait or run as it does, arrived before it
      began and after the run before, and all have the same log. */
  ghost predicate RunOk(a: Agent, key: RunKey)
    requires key in a.live
  {
    var l := a.live[key];
    && Distinct(l.ids) && l.ids != []
    && (l.run.None? ==> l.lines == 0)
    && (forall id | id in l.ids ::
          && id in a.jobs && id in a.arrived
          && a.jobs[id].flakelet == key.flakelet
          && a.jobs[id].state == (if l.run.None? then JobState.Pending else JobState.Running)
          && a.jobs[id].run == l.run
          && a.arrived[id] + 1 == key.number
          && LogOk(a.jobs[id], l.lines))
    && (forall x, y | x in l.ids && y in l.ids ::
          a.jobs[x].logs == a.jobs[y].logs && a.jobs[x].truncated == a.jobs[y].truncated
          && a.jobs[x].logBytes == a.jobs[y].logBytes)
  }

  ghost predicate SlotOk(a: Agent, f: string)
    requires f in a.slots
  {
    var slot := a.slots[f];
    && (slot.running <==> RunKey(f, Begun(a, f)) in a.live)
    && (!slot.running ==> slot.followup == [])
    && Distinct(slot.followup)
    && (forall id | id in slot.followup ::
          && id in a.jobs && id in a.arrived
          && a.jobs[id].flakelet == f && a.jobs[id].state.Pending?
          && a.arrived[id] == Begun(a, f))
  }

  ghost predicate InRun(a: Agent, id: Id)
    requires id in a.jobs
  {
    var key := RunKey(a.jobs[id].flakelet, Begun(a, a.jobs[id].flakelet));
    key in a.live && id in a.live[key].ids
  }

  predicate InFollowup(a: Agent, id: Id)
    requires id in a.jobs
  {
    a.jobs[id].flakelet in a.slots && id in a.slots[a.jobs[id].flakelet].followup
  }

  ghost predicate JobsOk(a: Agent) {
    forall id | id in a.jobs :: JobOk(a.jobs[id])
  }

  /** Only the newest run of a flakelet is live, and its slot is there. */
  ghost predicate LiveOk(a: Agent) {
    forall key | key in a.live ::
      key.flakelet in a.slots && key.number == Begun(a, key.flakelet) && RunOk(a, key)
  }

  ghost predicate SlotsOk(a: Agent) {
    forall f | f in a.slots :: SlotOk(a, f)
  }

  /** No unfinished job is stranded. */
  ghost predicate Covered(a: Agent) {
    forall id | id in a.jobs && a.jobs[id].state.Live() :: InRun(a, id) || InFollowup(a, id)
  }

  /** A job is finished by the first run that begins after it arrived, and is
      done then for as long as it is kept. */
  ghost predicate HistoryOk(a: Agent) {
    forall id | id in a.finishedBy ::
      && id in a.arrived && a.finishedBy[id] == a.arrived[id] + 1
      && (id in a.jobs ==> a.jobs[id].state.Done?)
  }

  /** Files lag behind memory only by the logs of unfinished jobs. */
  ghost predicate DiskMatches(a: Agent) {
    && a.disk.Keys == a.jobs.Keys
    && forall id | id in a.jobs :: a.disk[id] == OnFile(a.jobs[id])
  }

  function OnFile(j: Job): Job {
    if j.state.Live() then Serialized(j).(logs := []) else Serialized(j)
  }

  ghost predicate Inv(a: Agent) {
    JobsOk(a) && LiveOk(a) && SlotsOk(a) && Covered(a) && HistoryOk(a) && DiskMatches(a)
  }

  // ----- logs under recording -----

  lemma SizeOneMore(logs: seq<(nat, string)>, l: (nat, string))
    ensures Size(logs + [l]) == Size(logs) + Length(l.1)
  {
    assert (logs + [l])[..|logs|] == logs;
  }

  lemma RecordKeepsLog(j: Job, lines: nat, line: string)
    requires JobOk(j) && j.state.Running? && LogOk(j, lines)
    ensures var k := RecordLine(j, lines + 1, line); JobOk(k) && LogOk(k, lines + 1)
  {
    hide Length;
    if !j.truncated {
      SizeOneMore(j.logs, (lines + 1, line));
      var marked := j.logs + [(lines + 1, MARKER)];
      assert marked[..|marked| - 1] == j.logs;
    }
  }

  // ----- frames -----

  lemma RunUnchanged(a: Agent, b: Agent, k: RunKey)
    requires k in a.live && k in b.live && a.live[k] == b.live[k] && RunOk(a, k)
    requires forall id | id in a.live[k].ids ::
      id in b.jobs && b.jobs[id] == a.jobs[id] && id in b.arrived && b.arrived[id] == a.arrived[id]
    ensures RunOk(b, k)
  {
  }

  lemma SlotUnchanged(a: Agent, b: Agent, f: string)
    requires f in a.slots && f in b.slots && a.slots[f] == b.slots[f] && SlotOk(a, f)
    requires Begun(a, f) == Begun(b, f) && (RunKey(f, Begun(a, f)) in a.live <==> RunKey(f, Begun(a, f)) in b.live)
    requires forall id | id in a.slots[f].followup ::
      id in b.jobs && b.jobs[id] == a.jobs[id] && id in b.arrived && b.arrived[id] == a.arrived[id]
    ensures SlotOk(b, f)
  {
  }

  lemma LiveRunOk(a: Agent, key: RunKey)
    requires LiveOk(a) && key in a.live
    ensures key.flakelet in a.slots && key.number == Begun(a, key.flakelet) && RunOk(a, key)
  {
  }

  /** No job is in two runs, nor in a run and a followup list. */
  lemma OnePlace(a: Agent, key: RunKey)
    requires LiveOk(a) && SlotsOk(a) && key in a.live
    ensures forall k, id | k in a.live && k != key && id in a.live[k].ids :: id !in a.live[key].ids
    ensures forall f, id | f in a.slots && id in a.slots[f].followup :: id !in a.live[key].ids
  {
    assert RunOk(a, key);
    forall k, id | k in a.live && k != key && id in a.live[k].ids ensures id !in a.live[key].ids {
      assert RunOk(a, k);
    }
    forall f, id | f in a.slots && id in a.slots[f].followup ensures id !in a.live[key].ids {
      assert SlotOk(a, f);
    }
  }

  // ----- each step keeps the invariant -----

  /** A step of one run that touches only its jobs leaves the others alone. */
  lemma OthersUnchanged(a: Agent, b: Agent, key: RunKey)
    requires LiveOk(a) && SlotsOk(a) && key in a.live
    requires b.jobs.Keys == a.jobs.Keys && b.arrived == a.arrived && b.begun == a.begun
    requires forall id | id in a.jobs && id !in a.live[key].ids :: b.jobs[id] == a.jobs[id]
    ensures forall k | k in a.live && k in b.live && k != key && b.live[k] == a.live[k] :: RunOk(b, k)
    ensures forall f | f in a.slots && f in b.slots && b.slots[f] == a.slots[f]
                       && (RunKey(f, Begun(a, f)) in a.live <==> RunKey(f, Begun(a, f)) in b.live) :: SlotOk(b, f)
  {
    OnePlace(a, key);
    forall k | k in a.live && k in b.live && k != key && b.live[k] == a.live[k] ensures RunOk(b, k) {
      assert RunOk(a, k);
      RunUnchanged(a, b, k);
    }
    forall f | f in a.slots && f in b.slots && b.slots[f] == a.slots[f]
               && (RunKey(f, Begun(a, f)) in a.live <==> RunKey(f, Begun(a, f)) in b.live)
      ensures SlotOk(b, f)
    {
      assert SlotOk(a, f);
      SlotUnchanged(a, b, f);
    }
  }

  // ----- a line -----

  lemma LineRunOk(a: Agent, key: RunKey, line: string)
    requires JobsOk(a) && key in a.live && RunOk(a, key) && a.live[key].run.Some?
    ensures JobsOk(Logged(a, key, line)) && RunOk(Logged(a, key, line), key)
  {
    hide JobOk, LogOk;
    var b, l := Logged(a, key, line), a.live[key];
    forall id | id in l.ids
      ensures JobOk(b.jobs[id]) && LogOk(b.jobs[id], l.lines + 1)
    {
      RecordKeepsLog(a.jobs[id], l.lines, line);
    }
  }

  /** Marking and logging move no job from one list to another. */
  lemma StillCovered(a: Agent, b: Agent)
    requires Covered(a) && b.slots == a.slots && b.begun == a.begun
    requires b.jobs.Keys == a.jobs.Keys && b.live.Keys == a.live.Keys
    requires forall id | id in a.jobs :: b.jobs[id].flakelet == a.jobs[id].flakelet
    requires forall id | id in a.jobs && !a.jobs[id].state.Live() :: !b.jobs[id].state.Live()
    requires forall k | k in a.live :: b.live[k].ids == a.live[k].ids
    ensures Covered(b)
  {
    forall id | id in b.jobs && b.jobs[id].state.Live() ensures InRun(b, id) || InFollowup(b, id) {
      assert InRun(a, id) || InFollowup(a, id);
    }
  }

  /** Recording or marking inside one run keeps all runs and slots in order. */
  lemma RunStepKeepsLists(a: Agent, b: Agent, key: RunKey)
    requires LiveOk(a) && SlotsOk(a) && key in a.live && key in b.live && RunOk(b, key)
    requires b.jobs.Keys == a.jobs.Keys && b.arrived == a.arrived && b.begun == a.begun && b.slots == a.slots
    requires forall id | id in a.jobs && id !in a.live[key].ids :: b.jobs[id] == a.jobs[id]
    requires b.live.Keys == a.live.Keys && forall k | k in a.live && k != key :: b.live[k] == a.live[k]
    ensures LiveOk(b) && SlotsOk(b)
  {
    hide RunOk, SlotOk;
    OthersUnchanged(a, b, key);
  }

  lemma LineKeepsFiles(a: Agent, key: RunKey, line: string)
    requires DiskMatches(a) && key in a.live && RunOk(a, key) && a.live[key].run.Some?
    ensures DiskMatches(Logged(a, key, line))
  {
    hide LogOk, Distinct;
  }

  lemma LineKeeps(a: Agent, key: RunKey, line: string)
    requires Inv(a) && key in a.live && a.live[key].run.Some?
    ensures Inv(Logged(a, key, line))
  {
    hide JobsOk, LiveOk, SlotsOk, Covered, DiskMatches, RunOk;
    LiveRunOk(a, key);
    LineRunOk(a, key, line);
    LineKeepsFiles(a, key, line);
    var b := Logged(a, key, line);
    RunStepKeepsLists(a, b, key);
    assert forall id | id in a.jobs ::
      b.jobs[id].flakelet == a.jobs[id].flakelet && b.jobs[id].state == a.jobs[id].state;
    StillCovered(a, b);
  }

  // ----- saving -----

  /** Saving a list of jobs one after the other. */
  lemma {:induction false} SavesAre(disk: map<Id, Job>, jobs: map<Id, Job>, ids: seq<Id>)
    requires forall id | id in ids :: id in jobs
    ensures |Saves(jobs, ids)| == |ids|
    ensures var d := Apply(disk, Saves(jobs, ids));
      && (forall id :: id in d <==> id in disk || id in ids)
      && (forall id | id in d :: d[id] == if id in ids then Serialized(jobs[id]) else disk[id])
  {
    if ids != [] {
      var front, id := ids[..|ids| - 1], ids[|ids| - 1];
      SavesAre(disk, jobs, front);
      var w := Saves(jobs, ids);
      assert id in ids && w == Saves(jobs, front) + [Put(id, Serialized(jobs[id]))];
      assert w[..|w| - 1] == Saves(jobs, front);
      assert Apply(disk, w) == Apply(disk, Saves(jobs, front))[id := Serialized(jobs[id])];
      hide *;
      assert ids == front + [id];
    }
  }

  lemma {:induction false} SavesUpTo(jobs: map<Id, Job>, ids: seq<Id>, k: nat)
    requires forall id | id in ids :: id in jobs
    requires k <= |ids|
    ensures |Saves(jobs, ids)| == |ids|
    ensures Saves(jobs, ids)[..k] == Saves(jobs, ids[..k])
  {
    SavesAre(map[], jobs, ids);
    if k == |ids| {
      assert ids[..k] == ids;
    } else {
      SavesUpTo(jobs, ids[..|ids| - 1], k);
      assert ids[..|ids| - 1][..k] == ids[..k];
    }
  }

  // ----- the launch of a run -----

  lemma LaunchRunOk(a: Agent, key: RunKey, run: Run)
    requires JobsOk(a) && key in a.live && RunOk(a, key) && a.live[key].run.None?
    ensures JobsOk(Launched(a, key, run)) && RunOk(Launched(a, key, run), key)
    ensures forall id | id in a.live[key].ids ::
      Serialized(MarkRunning(a.jobs[id], run)) == OnFile(MarkRunning(a.jobs[id], run))
  {
    hide Length;
    hide Apply, Saves;
    var b, l := Launched(a, key, run), a.live[key];
    forall id | id in l.ids
      ensures JobOk(b.jobs[id]) && LogOk(b.jobs[id], 0)
    {
      assert JobOk(a.jobs[id]);
    }
    hide JobOk, LogOk;
  }

  lemma MarkedFiles(a: Agent, key: RunKey, jobs: map<Id, Job>)
    requires DiskMatches(a) && key in a.live && RunOk(a, key)
    requires jobs.Keys == a.jobs.Keys
    requires forall id | id in a.jobs && id !in a.live[key].ids :: jobs[id] == a.jobs[id]
    requires forall id | id in a.live[key].ids :: Serialized(jobs[id]) == OnFile(jobs[id])
    ensures var disk := Apply(a.disk, Saves(jobs, a.live[key].ids));
      disk.Keys == jobs.Keys && forall id | id in jobs :: disk[id] == OnFile(jobs[id])
  {
    SavesAre(a.disk, jobs, a.live[key].ids);
    hide LogOk, Distinct, OnFile, Apply, Saves;
  }

  lemma LaunchKeeps(a: Agent, key: RunKey, run: Run)
    requires Inv(a) && key in a.live && a.live[key].run.None?
    ensures Inv(Launched(a, key, run))
  {
    hide JobsOk, LiveOk, SlotsOk, Covered, RunOk, JobOk, Apply, Saves, OnFile;
    LiveRunOk(a, key);
    LaunchRunOk(a, key, run);
    var b := Launched(a, key, run);
    MarkedFiles(a, key, b.jobs);
    RunStepKeepsLists(a, b, key);
    StillCovered(a, b);
  }

  // ----- the arrival of a job -----

  lemma NewJobOk(flakelet: string, who: Caller, now: nat)
    ensures var j := NewJob(flakelet, who, now);
      JobOk(j) && LogOk(j, 0) && OnFile(j) == Serialized(j)
  {
  }

  /** Jobs already in the lists are older than the new one. */
  lemma NewIdIsNowhere(a: Agent, id: Id)
    requires LiveOk(a) && SlotsOk(a) && id !in a.jobs
    ensures forall k | k in a.live :: id !in a.live[k].ids
    ensures forall f | f in a.slots :: id !in a.slots[f].followup
  {
    forall k | k in a.live ensures id !in a.live[k].ids { assert RunOk(a, k); }
    forall f | f in a.slots ensures id !in a.slots[f].followup { assert SlotOk(a, f); }
  }

  lemma NotRunning(a: Agent, f: string)
    requires LiveOk(a) && SlotsOk(a) && !SlotOf(a, f).running
    ensures forall k | k in a.live :: k.flakelet != f
    ensures SlotOf(a, f).followup == []
  {
    if f in a.slots { assert SlotOk(a, f); }
    hide RunOk, SlotOk;
  }

  lemma NewRunOk(a: Agent, id: Id, f: string, who: Caller, now: nat)
    requires Adds(a, id, f) && !SlotOf(a, f).running
    ensures var b := Started(a, id, f, who, now);
      RunKey(f, Begun(a, f) + 1) in b.live && RunOk(b, RunKey(f, Begun(a, f) + 1))
  {
    hide JobOk, Serialized;
    NewJobOk(f, who, now);
  }

  lemma StartKeepsRuns(a: Agent, id: Id, f: string, who: Caller, now: nat)
    requires LiveOk(a) && SlotsOk(a) && Adds(a, id, f)
    ensures LiveOk(Started(a, id, f, who, now))
  {
    hide RunOk, SlotOk, SlotsOk, NewJob, Serialized;
    var b := Started(a, id, f, who, now);
    if !SlotOf(a, f).running {
      NotRunning(a, f);
      NewRunOk(a, id, f, who, now);
    }
    forall k | k in b.live
      ensures RunOk(b, k) && k.flakelet in b.slots && k.number == Begun(b, k.flakelet)
    {
      if k in a.live {
        LiveRunOk(a, k);
        IdNotInRun(a, k, id);
        RunIds(a, k);
        RunUnchanged(a, b, k);
      }
    }
  }

  lemma IdNotInRun(a: Agent, k: RunKey, id: Id)
    requires k in a.live && RunOk(a, k) && id !in a.jobs
    ensures id !in a.live[k].ids
  {
  }

  lemma StartKeepsSlots(a: Agent, id: Id, f: string, who: Caller, now: nat)
    requires LiveOk(a) && SlotsOk(a) && Adds(a, id, f)
    ensures SlotsOk(Started(a, id, f, who, now))
  {
    hide RunOk, SlotOk, NewJob, Serialized, LiveOk;
    var b := Started(a, id, f, who, now);
    NewIdIsNowhere(a, id);
    if !SlotOf(a, f).running { NotRunning(a, f); }
    NewSlotOk(a, id, f, who, now);
    forall g | g in b.slots ensures SlotOk(b, g) {
      if g != f {
        assert SlotOk(a, g);
        FollowupIds(a, g);
        SlotUnchanged(a, b, g);
      }
    }
  }

  lemma SlotIsOk(a: Agent, f: string)
    requires SlotsOk(a) && f in a.slots
    ensures SlotOk(a, f)
  {
    hide SlotOk;
  }

  lemma NewSlotOk(a: Agent, id: Id, f: string, who: Caller, now: nat)
    requires LiveOk(a) && SlotsOk(a) && Adds(a, id, f)
    ensures var b := Started(a, id, f, who, now); f in b.slots && SlotOk(b, f)
  {
    hide RunOk, Serialized, LiveOk, SlotsOk, LogOk;
    NewIdIsNowhere(a, id);
    if !SlotOf(a, f).running { NotRunning(a, f); }
    if f in a.slots { SlotIsOk(a, f); }
  }

  lemma StartKeepsCover(a: Agent, id: Id, f: string, who: Caller, now: nat)
    requires LiveOk(a) && SlotsOk(a) && Covered(a) && Adds(a, id, f)
    ensures Covered(Started(a, id, f, who, now))
  {
    hide LogOk, RunOk, SlotOk;
    var b := Started(a, id, f, who, now);
    if !SlotOf(a, f).running { NotRunning(a, f); }
    hide LiveOk, SlotsOk;
    forall x | x in b.jobs && b.jobs[x].state.Live() ensures InRun(b, x) || InFollowup(b, x) {
      if x != id { assert InRun(a, x) || InFollowup(a, x); }
    }
  }

  lemma StartKeepsRecords(a: Agent, id: Id, f: string, who: Caller, now: nat)
    requires JobsOk(a) && HistoryOk(a) && DiskMatches(a) && Adds(a, id, f)
    ensures var b := Started(a, id, f, who, now); JobsOk(b) && HistoryOk(b) && DiskMatches(b)
  {
    hide JobOk, OnFile, NewJob, Serialized, HistoryOk;
    NewJobOk(f, who, now);
    StartKeepsHistory(a, id, f, who, now);
  }

  lemma StartKeepsHistory(a: Agent, id: Id, f: string, who: Caller, now: nat)
    requires HistoryOk(a) && Adds(a, id, f)
    ensures HistoryOk(Started(a, id, f, who, now))
  {
    hide NewJob, Serialized;
  }

  lemma StartKeeps(a: Agent, id: Id, f: string, who: Caller, now: nat)
    requires Inv(a)
    ensures Inv(Started(a, id, f, who, now))
  {
    hide JobOk, LiveOk, SlotsOk, Covered, JobsOk, HistoryOk, DiskMatches;
    if Adds(a, id, f) {
      StartKeepsRecords(a, id, f, who, now);
      StartKeepsRuns(a, id, f, who, now);
      StartKeepsSlots(a, id, f, who, now);
      StartKeepsCover(a, id, f, who, now);
    }
  }

  // ----- the end of a run -----

  lemma DoneOk(a: Agent, key: RunKey, body: DoneBody, now: nat)
    requires JobsOk(a) && key in a.live && RunOk(a, key)
    ensures forall id | id in a.jobs :: JobOk(MarkedDone(a, key, body, now)[id])
    ensures forall id | id in a.live[key].ids ::
      var j := MarkDone(a.jobs[id], body, now); OnFile(j) == Serialized(j)
  {
    forall id | id in a.jobs ensures JobOk(MarkedDone(a, key, body, now)[id]) {
      assert JobOk(a.jobs[id]);
    }
    hide JobOk, LogOk;
  }

  /** The next run: the jobs that arrived during this one. */
  lemma NextRunOk(a: Agent, key: RunKey, body: DoneBody, now: nat)
    requires JobsOk(a) && LiveOk(a) && SlotsOk(a) && key in a.live
    requires SlotOf(a, key.flakelet).followup != []
    ensures var b := Completed(a, key, body, now);
      RunKey(key.flakelet, key.number + 1) in b.live && RunOk(b, RunKey(key.flakelet, key.number + 1))
  {
    hide RunOk, Apply, Saves, LiveOk, SlotsOk, SlotOk, JobOk, LogOk, JobsOk;
    var b, f := Completed(a, key, body, now), key.flakelet;
    OnePlace(a, key);
    LiveRunOk(a, key);
    FollowupWaits(a, f);
    NextRunFits(b, RunKey(f, key.number + 1));
  }

  lemma FollowupWaits(a: Agent, f: string)
    requires JobsOk(a) && SlotsOk(a) && f in a.slots
    ensures Distinct(a.slots[f].followup)
    ensures forall id | id in a.slots[f].followup ::
      (&& id in a.jobs && id in a.arrived && a.jobs[id].flakelet == f && a.arrived[id] == Begun(a, f)
       && a.jobs[id].state.Pending? && a.jobs[id].run.None? && a.jobs[id].logs == [] && a.jobs[id].logBytes == 0
       && !a.jobs[id].truncated)
  {
    assert SlotOk(a, f);
    forall id | id in a.slots[f].followup ensures id in a.jobs && JobOk(a.jobs[id]) {
    }
    hide Numbered, Capped, SlotsOk, JobsOk;
  }

  /** Pending jobs make up a run that has not started. */
  lemma NextRunFits(b: Agent, key: RunKey)
    requires key in b.live && b.live[key].run.None? && b.live[key].lines == 0
    requires Distinct(b.live[key].ids) && b.live[key].ids != []
    requires forall id | id in b.live[key].ids ::
      (&& id in b.jobs && id in b.arrived && b.jobs[id].flakelet == key.flakelet && b.arrived[id] + 1 == key.number
       && b.jobs[id].state.Pending? && b.jobs[id].run.None? && b.jobs[id].logs == [] && b.jobs[id].logBytes == 0
       && !b.jobs[id].truncated)
    ensures RunOk(b, key)
  {
  }


  lemma CompleteKeepsRuns(a: Agent, key: RunKey, body: DoneBody, now: nat)
    requires JobsOk(a) && LiveOk(a) && SlotsOk(a) && key in a.live
    ensures LiveOk(Completed(a, key, body, now))
  {
    hide RunOk, SlotOk, Apply, Saves, JobsOk, SlotsOk;
    var b := Completed(a, key, body, now);
    OnePlace(a, key);
    LiveRunOk(a, key);
    if SlotOf(a, key.flakelet).followup != [] { NextRunOk(a, key, body, now); }
    forall k | k in b.live
      ensures k.flakelet in b.slots && k.number == Begun(b, k.flakelet) && RunOk(b, k)
    {
      if k in a.live {
        LiveRunOk(a, k);
        RunIds(a, k);
        RunUnchanged(a, b, k);
      }
    }
  }

  lemma RunIds(a: Agent, key: RunKey)
    requires key in a.live && RunOk(a, key)
    ensures forall id | id in a.live[key].ids ::
      && id in a.jobs && id in a.arrived
      && a.jobs[id].flakelet == key.flakelet && a.jobs[id].state.Live() && a.arrived[id] + 1 == key.number
  {
    hide LogOk, Distinct;
  }

  lemma FollowupIds(a: Agent, f: string)
    requires f in a.slots && SlotOk(a, f)
    ensures forall id | id in a.slots[f].followup ::
      && id in a.jobs && id in a.arrived
      && a.jobs[id].flakelet == f && a.jobs[id].state.Pending? && a.arrived[id] == Begun(a, f)
  {
    hide Distinct;
  }

  lemma CompleteKeepsSlots(a: Agent, key: RunKey, body: DoneBody, now: nat)
    requires LiveOk(a) && SlotsOk(a) && key in a.live
    ensures SlotsOk(Completed(a, key, body, now))
  {
    hide RunOk, Apply, Saves;
    var b := Completed(a, key, body, now);
    OnePlace(a, key);
    LiveRunOk(a, key);
    hide LiveOk;
    forall g | g in b.slots ensures SlotOk(b, g) {
      if g != key.flakelet {
        assert SlotOk(a, g);
        FollowupIds(a, g);
        hide SlotOk;
        SlotUnchanged(a, b, g);
      }
    }
  }

  lemma CompleteKeepsCover(a: Agent, key: RunKey, body: DoneBody, now: nat)
    requires LiveOk(a) && Covered(a) && key in a.live
    ensures Covered(Completed(a, key, body, now))
  {
    hide RunOk, Apply, Saves;
    var b := Completed(a, key, body, now);
    LiveRunOk(a, key);
    hide LiveOk;
    forall x | x in b.jobs && b.jobs[x].state.Live() ensures InRun(b, x) || InFollowup(b, x) {
      assert InRun(a, x) || InFollowup(a, x);
    }
  }

  lemma CompleteKeepsRecords(a: Agent, key: RunKey, body: DoneBody, now: nat)
    requires JobsOk(a) && HistoryOk(a) && DiskMatches(a) && key in a.live && RunOk(a, key)
    ensures var b := Completed(a, key, body, now); JobsOk(b) && HistoryOk(b) && DiskMatches(b)
  {
    hide JobOk, RunOk, OnFile, Apply, Saves, DiskMatches, JobsOk;
    RunIds(a, key);
    CompleteKeepsFiles(a, key, body, now);
  }

  lemma CompleteKeepsFiles(a: Agent, key: RunKey, body: DoneBody, now: nat)
    requires JobsOk(a) && DiskMatches(a) && key in a.live && RunOk(a, key)
    ensures var b := Completed(a, key, body, now); JobsOk(b) && DiskMatches(b)
  {
    hide JobOk, RunOk, OnFile, Apply, Saves;
    DoneOk(a, key, body, now);
    RunIds(a, key);
    MarkedFiles(a, key, MarkedDone(a, key, body, now));
  }

  lemma CompleteKeeps(a: Agent, key: RunKey, body: DoneBody, now: nat)
    requires Inv(a) && key in a.live
    ensures Inv(Completed(a, key, body, now))
  {
    hide JobsOk, LiveOk, SlotsOk, Covered, HistoryOk, DiskMatches, RunOk, Apply, Saves;
    LiveRunOk(a, key);
    CompleteKeepsRuns(a, key, body, now);
    CompleteKeepsSlots(a, key, body, now);
    CompleteKeepsCover(a, key, body, now);
    CompleteKeepsRecords(a, key, body, now);
  }

  // ----- steps on finished jobs only -----

  /** Steps that touch only finished jobs leave all lists alone. */
  lemma FinishedOnly(a: Agent, b: Agent)
    requires LiveOk(a) && SlotsOk(a) && Covered(a)
    requires b.live == a.live && b.slots == a.slots && b.begun == a.begun && b.arrived == a.arrived
    requires forall id | id in a.jobs && !a.jobs[id].state.Done? :: id in b.jobs && b.jobs[id] == a.jobs[id]
    requires forall id | id in b.jobs && !b.jobs[id].state.Done? :: id in a.jobs && b.jobs[id] == a.jobs[id]
    ensures LiveOk(b) && SlotsOk(b) && Covered(b)
  {
    hide RunOk, SlotOk;
    forall k | k in b.live ensures RunOk(b, k) {
      LiveRunOk(a, k);
      RunIds(a, k);
      RunUnchanged(a, b, k);
    }
    forall f | f in b.slots ensures SlotOk(b, f) {
      assert SlotOk(a, f);
      FollowupIds(a, f);
      SlotUnchanged(a, b, f);
    }
    hide LiveOk, SlotsOk;
    forall x | x in b.jobs && b.jobs[x].state.Live() ensures InRun(b, x) || InFollowup(b, x) {
      assert InRun(a, x) || InFollowup(a, x);
    }
  }

  lemma LocalKeepsRecords(a: Agent, own: Option<Id>, id: Id, f: string, at: nat, who: Caller, body: DoneBody)
    requires JobsOk(a) && HistoryOk(a) && DiskMatches(a)
    ensures var b := Noted(a, own, id, LocalJob(f, at, who, body)); JobsOk(b) && HistoryOk(b) && DiskMatches(b)
  {
    hide JobOk, OnFile, LocalJob, Serialized;
    LocalJobIsOk(f, at, who, body);
  }

  lemma LocalJobIsOk(f: string, at: nat, who: Caller, body: DoneBody)
    ensures var job := LocalJob(f, at, who, body); JobOk(job) && OnFile(job) == Serialized(job) && job.state.Done?
  {
  }

  lemma LocalKeeps(a: Agent, own: Option<Id>, id: Id, f: string, at: nat, who: Caller, body: DoneBody)
    requires Inv(a)
    ensures Inv(Noted(a, own, id, LocalJob(f, at, who, body)))
  {
    hide JobsOk, HistoryOk, DiskMatches, LiveOk, SlotsOk, Covered, Serialized;
    LocalKeepsRecords(a, own, id, f, at, who, body);
    FinishedOnly(a, Noted(a, own, id, LocalJob(f, at, who, body)));
  }

  // ----- retention -----

  lemma OrderIsDistinct(jobs: map<Id, Job>, order: seq<Id>)
    requires DoneOrder(jobs, order)
    ensures Distinct(order)
    ensures forall id | id in order :: id in jobs && jobs[id].state.Done?
  {
  }

  ghost predicate GoneBy(jobs: map<Id, Job>, now: nat, r: Retention, order: seq<Id>, k: nat, id: Id)
    requires k <= |order|
  {
    k > 0 && (GoneBy(jobs, now, r, order, k - 1, id) || (order[k - 1] == id && Drops(jobs, now, r, order, k - 1)))
  }

  lemma {:induction false} GoneByIsGone(jobs: map<Id, Job>, now: nat, r: Retention, order: seq<Id>, k: nat, id: Id)
    requires k <= |order|
    ensures GoneBy(jobs, now, r, order, k, id) <==>
      exists i | 0 <= i < k :: order[i] == id && Drops(jobs, now, r, order, i)
  {
    hide Drops;
    if k > 0 { GoneByIsGone(jobs, now, r, order, k - 1, id); }
  }

  predicate SeenBy(order: seq<Id>, k: nat, id: Id)
    requires k <= |order|
  {
    exists i | 0 <= i < k :: order[i] == id
  }

  function Shown(j: Job, now: nat, r: Retention): Job {
    if Stale(j, now, r) then Strip(j) else j
  }

  /** The state directory after the first `k` finished jobs were looked at:
      some are gone, the rest stripped or untouched. */
  lemma {:induction false} PruneWritesAre(disk: map<Id, Job>, jobs: map<Id, Job>, now: nat, r: Retention,
                                          order: seq<Id>, k: nat)
    requires k <= |order| && disk.Keys == jobs.Keys && Distinct(order)
    requires forall i | 0 <= i < |order| :: order[i] in jobs
    ensures var d := Apply(disk, PruneWrites(jobs, now, r, order, k));
      && (forall id :: id in d <==> id in disk && !GoneBy(jobs, now, r, order, k, id))
      && (forall id | id in d :: d[id] ==
            if SeenBy(order, k, id) && Stale(jobs[id], now, r) then Serialized(Strip(jobs[id])) else disk[id])
  {
    if k > 0 {
      hide Stale, Strip, Serialized;
      PruneWritesAre(disk, jobs, now, r, order, k - 1);
      var before, id := PruneWrites(jobs, now, r, order, k - 1), order[k - 1];
      GoneByIsGone(jobs, now, r, order, k - 1, id);
      var w := PruneWrites(jobs, now, r, order, k);
      hide PruneWrites;
      if |w| > |before| {
        assert w[..|w| - 1] == before;
      } else {
        assert w == before;
      }
      var d, d' := Apply(disk, before), Apply(disk, w);
      assert d' == if Drops(jobs, now, r, order, k - 1) then d - {id}
                   else if Stale(jobs[id], now, r) then d[id := Serialized(Strip(jobs[id]))] else d;
      hide Apply, Drops;
      forall x ensures SeenBy(order, k, x) <==> SeenBy(order, k - 1, x) || x == id {
      }
      hide SeenBy;
    }
  }

  lemma PruneKeepsFiles(a: Agent, now: nat, r: Retention, order: seq<Id>)
    requires DiskMatches(a) && DoneOrder(a.jobs, order)
    ensures DiskMatches(Pruned(a, now, r, order))
  {
    hide Apply, PruneWrites, Expired, Drops, GoneBy, SeenBy, Gone, DoneOrder, Serialized, Strip;
    OrderIsDistinct(a.jobs, order);
    PruneWritesAre(a.disk, a.jobs, now, r, order, |order|);
    PrunedAll(a.jobs, now, r, order);
    PrunedOnFile(a.jobs, now, r);
    hide OnFile, Stale;
  }

  lemma PrunedAll(jobs: map<Id, Job>, now: nat, r: Retention, order: seq<Id>)
    requires DoneOrder(jobs, order)
    ensures forall id | id in jobs :: GoneBy(jobs, now, r, order, |order|, id) <==> id in Gone(jobs, now, r, order)
    ensures forall id | id in jobs && jobs[id].state.Done? :: SeenBy(order, |order|, id)
  {
    hide GoneBy, Drops;
    forall id | id in jobs
      ensures GoneBy(jobs, now, r, order, |order|, id) <==> id in Gone(jobs, now, r, order)
    {
      GoneByIsGone(jobs, now, r, order, |order|, id);
    }
  }

  lemma PrunedOnFile(jobs: map<Id, Job>, now: nat, r: Retention)
    ensures forall id | id in jobs && Stale(jobs[id], now, r) ::
      jobs[id].state.Done? && OnFile(Strip(jobs[id])) == Serialized(Strip(jobs[id]))
  {
  }

  lemma PruneKeepsJobs(a: Agent, now: nat, r: Retention, order: seq<Id>)
    requires JobsOk(a)
    ensures JobsOk(Pruned(a, now, r, order))
  {
    hide Gone, Apply, PruneWrites;
    forall id | id in a.jobs ensures JobOk(Shown(a.jobs[id], now, r)) {
      assert JobOk(a.jobs[id]);
    }
    hide JobOk;
  }

  lemma UnfinishedStay(a: Agent, now: nat, r: Retention, order: seq<Id>)
    requires DoneOrder(a.jobs, order)
    ensures var kept := Kept(a.jobs, now, r, order);
      && (forall id | id in a.jobs && !a.jobs[id].state.Done? :: id in kept && kept[id] == a.jobs[id])
      && (forall id | id in kept ::
            id in a.jobs && kept[id].state == a.jobs[id].state && kept[id].flakelet == a.jobs[id].flakelet)
  {
    hide Drops, Expired;
    OrderIsDistinct(a.jobs, order);
  }

  lemma PruneKeeps(a: Agent, now: nat, r: Retention, order: seq<Id>)
    requires Inv(a) && DoneOrder(a.jobs, order)
    ensures Inv(Pruned(a, now, r, order))
  {
    hide JobsOk, DiskMatches, LiveOk, SlotsOk, Covered, Apply, PruneWrites, Kept, DoneOrder;
    PruneKeepsFiles(a, now, r, order);
    PruneKeepsJobs(a, now, r, order);
    UnfinishedStay(a, now, r, order);
    FinishedOnly(a, Pruned(a, now, r, order));
  }

  lemma RefreshKeeps(a: Agent, names: set<string>)
    requires Inv(a)
    ensures Inv(a.(described := names))
  {
    hide JobOk, RunOk, SlotOk, LiveOk, SlotsOk, Covered, OnFile;
    FinishedOnly(a, a.(described := names));
  }

  /** Every locked section keeps the invariant. */
  lemma StepKeeps(a: Agent, s: Step)
    requires Inv(a) && Enabled(a, s)
    ensures Inv(Do(a, s))
  {
    hide Inv, Started, Launched, Logged, Completed, Pruned, Noted;
    match s {
      case Start(id, f, who, now) => StartKeeps(a, id, f, who, now);
      case Launch(key, run) => LaunchKeeps(a, key, run);
      case Line(key, line) => LineKeeps(a, key, line);
      case Complete(key, body, now) => CompleteKeeps(a, key, body, now);
      case Prune(now, r, order) => PruneKeeps(a, now, r, order);
      case Local(own, id, f, at, who, body) => LocalKeeps(a, own, id, f, at, who, body);
      case Refresh(names) => RefreshKeeps(a, names);
    }
  }
}
