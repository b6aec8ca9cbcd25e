/** The agent's job table as the program keeps it (src/agent/jobs.rs): maps
    updated in place under a lock, one method per locked section. Each method
    is proved to be the step of the same name on values. */
module Jobs {
  import opened Wrappers
  import opened Proto
  import opened JobTable
  import opened JobInvariants
  import opened JobRecovery
  import opened Sorting

  /** What `flakelet status` says of one flakelet, and the last switch of its
      generation if that is not the agent's own: who asked for it, the job of an
      agent that did, and the id to record it under. */
  datatype Report = Report(named: Named, change: Option<Change>)

  datatype Change = Change(own: Option<Id>, id: Id, generation: nat, at: nat, who: Caller, rollback: bool)

  function Outcome(named: Named, c: Change): DoneBody {
    DoneBody(if c.rollback then RolledBack else Updated, Some(c.generation), named.revision, [])
  }

  function NamesOf(flakelets: seq<Named>): set<string> {
    set f | f in flakelets :: f.name
  }

  lemma NoNames()
    ensures NamesOf([]) == {}
  {
  }

  function Seen(reports: seq<Report>): seq<Named> {
    seq(|reports|, k requires 0 <= k < |reports| => reports[k].named)
  }

  predicate AllLocal(steps: seq<Step>) {
    forall k | 0 <= k < |steps| :: steps[k].Local?
  }

  /** The switches that did not go through the agent, one step each. */
  function Switches(reports: seq<Report>): (steps: seq<Step>)
    ensures AllLocal(steps)
  {
    if reports == [] then [] else
    var r := reports[|reports| - 1];
    Switches(reports[..|reports| - 1]) +
    match r.change
    case None => []
    case Some(c) => [Step.Local(c.own, c.id, r.named.name, c.at, c.who, Outcome(r.named, c))]
  }

  ghost function AfterAll(a: Agent, steps: seq<Step>): Agent
    requires AllLocal(steps)
  {
    if steps == [] then a else Do(AfterAll(a, steps[..|steps| - 1]), steps[|steps| - 1])
  }

  ghost function AllWrites(a: Agent, steps: seq<Step>): seq<Write>
    requires AllLocal(steps)
  {
    if steps == [] then [] else
    var front := steps[..|steps| - 1];
    AllWrites(a, front) + Writes(AfterAll(a, front), steps[|steps| - 1])
  }

  ghost function AllNews(a: Agent, steps: seq<Step>): seq<Frame>
    requires AllLocal(steps)
  {
    if steps == [] then [] else
    var front := steps[..|steps| - 1];
    AllNews(a, front) + Broadcasts(AfterAll(a, front), steps[|steps| - 1])
  }

  lemma NothingSeen(a: Agent)
    ensures Seen([]) == [] && AfterAll(a, Switches([])) == a
    ensures AllWrites(a, Switches([])) == [] && AllNews(a, Switches([])) == []
  {
  }

  lemma OneReportMore(a: Agent, reports: seq<Report>, k: nat)
    requires k < |reports|
    ensures Seen(reports[..k + 1]) == Seen(reports[..k]) + [reports[k].named]
    ensures reports[k].change.None? ==> Switches(reports[..k + 1]) == Switches(reports[..k])
    ensures var before, after := Switches(reports[..k]), Switches(reports[..k + 1]);
      reports[k].change.Some? ==>
        var c := reports[k].change.value;
        var s := Step.Local(c.own, c.id, reports[k].named.name, c.at, c.who, Outcome(reports[k].named, c));
        && AfterAll(a, after) == Do(AfterAll(a, before), s)
        && AllWrites(a, after) == AllWrites(a, before) + Writes(AfterAll(a, before), s)
        && AllNews(a, after) == AllNews(a, before) + Broadcasts(AfterAll(a, before), s)
  {
    hide Outcome, Do, Writes, Broadcasts;
    assert reports[..k + 1][..k] == reports[..k];
    var before, after := Switches(reports[..k]), Switches(reports[..k + 1]);
    if reports[k].change.Some? {
      assert after[..|after| - 1] == before;
    }
  }

  /** Each switch is recorded once: looking again at the same host records,
      saves and broadcasts nothing. */
  lemma RecordedOnce(a: Agent, steps: seq<Step>)
    requires AllLocal(steps)
    ensures var b := AfterAll(a, steps);
      AfterAll(b, steps) == b && AllWrites(b, steps) == [] && AllNews(b, steps) == []
  {
    hide AfterAll, IsNews;
    forall k | 0 <= k < |steps| ensures !IsNews(AfterAll(a, steps), steps[k].own, steps[k].id) {
      NoLongerNews(a, steps, k);
    }
    NothingNew(AfterAll(a, steps), steps);
  }

  lemma NotNewAgain(a: Agent, s: Step)
    requires s.Local?
    ensures !IsNews(Do(a, s), s.own, s.id)
    ensures forall own, id :: !IsNews(a, own, id) ==> !IsNews(Do(a, s), own, id)
  {
    hide LocalJob, Serialized;
  }

  lemma {:induction false} NoLongerNews(a: Agent, steps: seq<Step>, k: nat)
    requires AllLocal(steps) && k < |steps|
    ensures !IsNews(AfterAll(a, steps), steps[k].own, steps[k].id)
  {
    hide Do, IsNews;
    var front, last := steps[..|steps| - 1], steps[|steps| - 1];
    NotNewAgain(AfterAll(a, front), last);
    if k < |front| { NoLongerNews(a, front, k); }
  }

  lemma {:induction false} NothingNew(a: Agent, steps: seq<Step>)
    requires AllLocal(steps) && forall k | 0 <= k < |steps| :: !IsNews(a, steps[k].own, steps[k].id)
    ensures AfterAll(a, steps) == a && AllWrites(a, steps) == [] && AllNews(a, steps) == []
  {
    hide IsNews, LocalJob, Serialized, Summary;
    if steps != [] {
      NothingNew(a, steps[..|steps| - 1]);
    }
  }

  /** The jobs a state directory holds, by id. A file that is not a job is None. */
  function Readable(files: map<Id, Option<Job>>): map<Id, Job> {
    ReadableBut(files, {})
  }

  function ReadableBut(files: map<Id, Option<Job>>, rest: set<Id>): map<Id, Job> {
    map id | id in files && id !in rest && files[id].Some? :: files[id].value
  }

  /** The directory once all files but the rest were looked at. */
  ghost predicate LeftOf(files: map<Id, Option<Job>>, rest: set<Id>, left: map<Id, Option<Job>>) {
    && (forall id | id in left :: id in files && left[id] == files[id])
    && forall id | id in files :: id in left <==> id in rest || files[id].Some?
  }

  lemma OneReadMore(files: map<Id, Option<Job>>, rest: set<Id>, left: map<Id, Option<Job>>, id: Id)
    requires LeftOf(files, rest, left) && id in rest && id in files
    ensures files[id].Some? ==>
      && ReadableBut(files, rest - {id}) == ReadableBut(files, rest)[id := files[id].value]
      && LeftOf(files, rest - {id}, left)
    ensures files[id].None? ==>
      && ReadableBut(files, rest - {id}) == ReadableBut(files, rest) && LeftOf(files, rest - {id}, left - {id})
  {
  }

  lemma PrunedJobs(files: map<Id, Job>, now: nat, r: Retention, done: seq<Id>)
    ensures Pruned(Loaded(files), now, r, done).jobs == Kept(files, now, r, done)
  {
    hide Kept, Apply, PruneWrites;
  }

  class Jobs {
    var jobs: map<Id, Job>
    var slots: map<string, Slot>
    var live: map<RunKey, LiveRun>
    var disk: map<Id, Job>
    /** The flakelets of the host as last seen. */
    var described: seq<Named>
    var events: seq<Frame>
    const retention: Retention

    /** Numbers the runs. The program has no need to. */
    var begun: map<string, nat>
    ghost var written: seq<Write>
    ghost var arrived: map<Id, nat>
    ghost var finishedBy: map<Id, nat>

    ghost function Now(): Agent
      reads this
    {
      Agent(jobs, slots, live, disk, NamesOf(described), begun, arrived, finishedBy)
    }

    ghost predicate Valid()
      reads this
    {
      Inv(Now())
    }

    /** Persists a job and tells connected relays about its state. */
    method Save(id: Id)
      modifies this`disk, this`events, this`written
      ensures disk == if id in jobs then old(disk)[id := Serialized(jobs[id])] else old(disk)
      ensures events == old(events) + if id in jobs then [Frame.Job(Summary(id, jobs[id]))] else []
      ensures written == old(written) + if id in jobs then [Put(id, Serialized(jobs[id]))] else []
    {
      if id !in jobs { return; }
      events := events + [Frame.Job(Summary(id, jobs[id]))];
      disk := disk[id := Serialized(jobs[id])];
      written := written + [Put(id, Serialized(jobs[id]))];
    }

    /** Spawns a run loop. */
    method SpawnRun(flakelet: string, ids: seq<Id>, run: Option<Run>)
      modifies this`live, this`begun
      ensures var n := if flakelet in old(begun) then old(begun)[flakelet] else 0;
        && live == old(live)[RunKey(flakelet, n + 1) := LiveRun(ids, run, 0)]
        && begun == old(begun)[flakelet := n + 1]
    {
      var number := 1 + if flakelet in begun then begun[flakelet] else 0;
      live := live[RunKey(flakelet, number) := LiveRun(ids, run, 0)];
      begun := begun[flakelet := number];
    }

    /** Handles `start`: refuses, replays, or adds the job and either starts a
        run or leaves it to the one that follows. */
    method Start(id: Id, flakelet: string, who: Caller, now: nat) returns (frames: seq<Frame>)
      requires Valid()
      modifies this
      ensures Valid()
      ensures frames == Reply(old(Now()), id, flakelet)
      ensures Now() == Started(old(Now()), id, flakelet, who, now)
      ensures written == old(written) + Writes(old(Now()), Step.Start(id, flakelet, who, now))
      ensures events == old(events) + Broadcasts(old(Now()), Step.Start(id, flakelet, who, now))
    {
      hide Inv, Serialized, NewJob, Summary, Frames;
      StartKeeps(Now(), id, flakelet, who, now);
      if flakelet !in NamesOf(described) { return [Frame.Ack(id, false, "no such flakelet on this host")]; }
      if id in jobs {
        if jobs[id].flakelet != flakelet { return [Frame.Ack(id, false, "id already used for another flakelet")]; }
        return Frames(id, jobs[id]);
      }
      Add(id, flakelet, who, now);
      return [Frame.Ack(id, true, "")];
    }

    /** Adds a job, and starts a run or leaves it to the one that follows. */
    method Add(id: Id, flakelet: string, who: Caller, now: nat)
      requires Adds(Now(), id, flakelet)
      modifies this
      ensures Now() == Started(old(Now()), id, flakelet, who, now)
      ensures written == old(written) + [Put(id, Serialized(NewJob(flakelet, who, now)))]
      ensures events == old(events) + [Frame.Job(Summary(id, NewJob(flakelet, who, now)))]
    {
      hide Started, NewJob, Serialized, Summary;
      ghost var was := Now();
      Record(id, NewJob(flakelet, who, now), if flakelet in begun then begun[flakelet] else 0);
      Enqueue(id, flakelet);
      StartedIs(was, Now(), id, flakelet, who, now);
    }

    method Record(id: Id, job: Job, ghost arrival: nat)
      modifies this`jobs, this`disk, this`events, this`written, this`arrived, this`finishedBy
      ensures jobs == old(jobs)[id := job] && disk == old(disk)[id := Serialized(job)]
      ensures arrived == old(arrived)[id := arrival] && finishedBy == old(finishedBy) - {id}
      ensures written == old(written) + [Put(id, Serialized(job))]
      ensures events == old(events) + [Frame.Job(Summary(id, job))]
    {
      jobs := jobs[id := job];
      arrived, finishedBy := arrived[id := arrival], finishedBy - {id};
      Save(id);
    }

    method Enqueue(id: Id, flakelet: string)
      modifies this`slots, this`live, this`begun
      ensures var n := if flakelet in old(begun) then old(begun)[flakelet] else 0;
        var slot := if flakelet in old(slots) then old(slots)[flakelet] else Slot(false, []);
        if slot.running then
          && slots == old(slots)[flakelet := slot.(followup := slot.followup + [id])]
          && live == old(live) && begun == old(begun)
        else
          && slots == old(slots)[flakelet := slot.(running := true)]
          && live == old(live)[RunKey(flakelet, n + 1) := LiveRun([id], None, 0)]
          && begun == old(begun)[flakelet := n + 1]
    {
      var slot := if flakelet in slots then slots[flakelet] else Slot(false, []);
      if slot.running {
        slots := slots[flakelet := slot.(followup := slot.followup + [id])];
      } else {
        slots := slots[flakelet := slot.(running := true)];
        SpawnRun(flakelet, [id], None);
      }
    }

    /** Everything known about a job, or nothing. */
    method Replay(id: Id) returns (r: Option<seq<Frame>>)
      ensures r == if id in jobs then Some(Frames(id, jobs[id])) else None
    {
      if id !in jobs { return None; }
      return Some(Frames(id, jobs[id]));
    }

    /** Marks the jobs of a run as running with its unit and saves them. */
    method MarkAllRunning(ids: seq<Id>, run: Run)
      modifies this`jobs, this`disk, this`events, this`written
      ensures jobs == AllRunning(old(jobs), ids, run)
      ensures disk == Apply(old(disk), Saves(jobs, ids))
      ensures written == old(written) + Saves(jobs, ids)
      ensures events == old(events) + SaveFrames(jobs, ids, None)
    {
      hide Apply, Saves, SaveFrames, AllRunning, MarkRunning, Serialized, Summary;
      ghost var marked := AllRunning(jobs, ids, run);
      NothingSaved(disk, marked, None);
      NothingMarked(jobs, run, FAILED, 0);
      ghost var done: seq<Id> := [];
      for k := 0 to |ids|
        invariant done == ids[..k]
        invariant jobs == AllRunning(old(jobs), done, run)
        invariant disk == Apply(old(disk), Saves(marked, done))
        invariant written == old(written) + Saves(marked, done)
        invariant events == old(events) + SaveFrames(marked, done, None)
      {
        var id := ids[k];
        OneRunningMore(old(jobs), ids, done, id, run);
        if id in jobs { jobs := jobs[id := MarkRunning(jobs[id], run)]; }
        Save(id);
        OneSaveMore(old(disk), marked, done, id, None);
        done := done + [id];
      }
      assert done == ids;
    }

    /** The same at the end of a run. */
    method MarkAllDone(ids: seq<Id>, body: DoneBody, now: nat)
      modifies this`jobs, this`disk, this`events, this`written
      ensures jobs == AllDone(old(jobs), ids, body, now)
      ensures disk == Apply(old(disk), Saves(jobs, ids))
      ensures written == old(written) + Saves(jobs, ids)
      ensures events == old(events) + SaveFrames(jobs, ids, Some(body))
    {
      hide Apply, Saves, SaveFrames, AllDone, MarkDone, Serialized, Summary;
      ghost var marked := AllDone(jobs, ids, body, now);
      NothingSaved(disk, marked, Some(body));
      NothingMarked(jobs, Run(None, None), body, now);
      ghost var done: seq<Id> := [];
      for k := 0 to |ids|
        invariant done == ids[..k]
        invariant jobs == AllDone(old(jobs), done, body, now)
        invariant disk == Apply(old(disk), Saves(marked, done))
        invariant written == old(written) + Saves(marked, done)
        invariant events == old(events) + SaveFrames(marked, done, Some(body))
      {
        var id := ids[k];
        OneDoneMore(old(jobs), ids, done, id, body, now);
        if id in jobs { jobs := jobs[id := MarkDone(jobs[id], body, now)]; }
        events := events + [Frame.Done(id, body)];
        Save(id);
        OneSaveMore(old(disk), marked, done, id, Some(body));
        done := done + [id];
      }
      assert done == ids;
    }

    /** Records one line for each job that is not cut off yet. */
    method RecordAll(ids: seq<Id>, number: nat, line: string)
      requires Distinct(ids)
      modifies this`jobs, this`events
      ensures jobs == AllLogged(old(jobs), ids, number, line)
      ensures events == old(events) + LineFrames(old(jobs), ids, number, line)
    {
      hide AllLogged, LineFrames;
      NothingLogged(jobs, number, line);
      ghost var done: seq<Id> := [];
      for k := 0 to |ids|
        invariant done == ids[..k]
        invariant jobs == AllLogged(old(jobs), done, number, line)
        invariant events == old(events) + LineFrames(old(jobs), done, number, line)
      {
        var id := ids[k];
        assert id !in done;
        OneLineMore(old(jobs), done, id, number, line);
        if id in jobs && !jobs[id].truncated {
          var text;
          if jobs[id].logBytes + Length(line) > LOG_CAP {
            text := MARKER;
            jobs := jobs[id := jobs[id].(truncated := true, logs := jobs[id].logs + [(number, text)])];
          } else {
            text := line;
            jobs := jobs[id := jobs[id].(logBytes := jobs[id].logBytes + Length(line),
                                        logs := jobs[id].logs + [(number, text)])];
          }
          events := events + [Frame.Log(id, number, text)];
        }
        done := done + [id];
      }
      assert done == ids;
    }

    /** The unit of a run is about to start: its jobs are marked and saved. */
    method Launch(key: RunKey, run: Run)
      requires Valid() && Enabled(Now(), Step.Launch(key, run))
      modifies this
      ensures Valid() && Now() == Launched(old(Now()), key, run)
      ensures written == old(written) + Writes(old(Now()), Step.Launch(key, run))
      ensures events == old(events) + Broadcasts(old(Now()), Step.Launch(key, run))
    {
      hide Inv, Apply, Saves, SaveFrames, AllRunning;
      LaunchKeeps(Now(), key, run);
      MarkAllRunning(live[key].ids, run);
      live := live[key := live[key].(run := Some(run), lines := 0)];
    }

    /** A line of output, recorded for every job of the run. */
    method RecordLog(key: RunKey, line: string)
      requires Valid() && Enabled(Now(), Step.Line(key, line))
      modifies this`jobs, this`events, this`live
      ensures Valid() && Now() == Logged(old(Now()), key, line)
      ensures events == old(events) + Broadcasts(old(Now()), Step.Line(key, line))
    {
      hide Inv, AllLogged, LineFrames;
      LineKeeps(Now(), key, line);
      RunIsDistinct(Now(), key);
      var l := live[key];
      live := live[key := l.(lines := l.lines + 1)];
      RecordAll(l.ids, l.lines + 1, line);
    }

    /** The end of a run. Its jobs are done, and the loop goes on with those
        that arrived meanwhile, or ends. The slot is always there. */
    method Complete(key: RunKey, body: DoneBody, now: nat) returns (more: bool)
      requires Valid() && Enabled(Now(), Step.Complete(key, body, now))
      modifies this
      ensures Valid() && Now() == Completed(old(Now()), key, body, now)
      ensures more <==> RunKey(key.flakelet, key.number + 1) in live
      ensures written == old(written) + Writes(old(Now()), Step.Complete(key, body, now))
      ensures events == old(events) + Broadcasts(old(Now()), Step.Complete(key, body, now))
    {
      hide Inv, Apply, Saves, SaveFrames, AllDone, Completed;
      ghost var was := Now();
      CompleteKeeps(was, key, body, now);
      SlotIsThere(was, key);
      var ids := live[key].ids;
      MarkAllDone(ids, body, now);
      finishedBy := finishedBy + AllBy(ids, key.number);
      var next := slots[key.flakelet].followup;
      slots := slots[key.flakelet := Slot(next != [], [])];
      live := live - {key};
      more := next != [];
      if more {
        live := live[RunKey(key.flakelet, key.number + 1) := LiveRun(next, None, 0)];
        begun := begun[key.flakelet := key.number + 1];
      }
      CompletedIs(was, Now(), key, body, now);
    }

    /** A switch of generation that did not go through the agent. */
    method RecordLocal(own: Option<Id>, id: Id, flakelet: string, at: nat, who: Caller, body: DoneBody)
      requires Valid()
      modifies this`jobs, this`disk, this`events, this`written
      ensures Valid() && Now() == Noted(old(Now()), own, id, LocalJob(flakelet, at, who, body))
      ensures written == old(written) + Writes(old(Now()), Step.Local(own, id, flakelet, at, who, body))
      ensures events == old(events) + Broadcasts(old(Now()), Step.Local(own, id, flakelet, at, who, body))
    {
      hide Inv, Serialized, Summary, LocalJob;
      LocalKeeps(Now(), own, id, flakelet, at, who, body);
      if own.Some? && own.value in jobs { return; }
      if id in jobs { return; }
      var job := LocalJob(flakelet, at, who, body);
      events := events + [Frame.Job(Summary(id, job))];
      jobs := jobs[id := job];
      Save(id);
    }

    /** Looks at the host's flakelets again: records the switches that did not go
        through the agent, and tells connected relays if anything changed. */
    method Refresh(reports: seq<Report>) returns (changed: bool)
      requires Valid()
      modifies this
      ensures Valid() && described == Seen(reports)
      ensures Now() == Do(AfterAll(old(Now()), Switches(reports)), Step.Refresh(NamesOf(Seen(reports))))
      ensures written == old(written) + AllWrites(old(Now()), Switches(reports))
      ensures changed <==> old(described) != Seen(reports)
      ensures events == old(events) + AllNews(old(Now()), Switches(reports))
                      + if changed then [Frame.Flakelets(Seen(reports))] else []
    {
      hide Inv, AfterAll, AllWrites, AllNews, Seen, Switches, IsNews, NamesOf, LocalJob, Summary, Serialized;
      NothingSeen(Now());
      var out: seq<Named> := [];
      for k := 0 to |reports|
        invariant Valid() && described == old(described) && out == Seen(reports[..k])
        invariant Now() == AfterAll(old(Now()), Switches(reports[..k]))
        invariant written == old(written) + AllWrites(old(Now()), Switches(reports[..k]))
        invariant events == old(events) + AllNews(old(Now()), Switches(reports[..k]))
      {
        OneReportMore(old(Now()), reports, k);
        var named, change := reports[k].named, reports[k].change;
        if change.Some? {
          var c := change.value;
          RecordLocal(c.own, c.id, named.name, c.at, c.who, Outcome(named, c));
        }
        out := out + [named];
      }
      assert reports[..|reports|] == reports;
      RefreshKeeps(Now(), NamesOf(out));
      if described == out { return false; }
      described := out;
      events := events + [Frame.Flakelets(out)];
      return true;
    }

    // ----- retention -----

    /** The finished jobs, oldest first. */
    static method FinishedJobs(jobs: map<Id, Job>) returns (order: seq<Id>)
      ensures DoneOrder(jobs, order)
    {
      var rest := Finished(jobs);
      var done: seq<(nat, Id)> := [];
      while rest != {}
        invariant Collected(jobs, rest, done)
        decreases |rest|
      {
        var id :| id in rest;
        OneMoreCollected(jobs, rest, done, id);
        done := done + [(jobs[id].created, id)];
        rest := rest - {id};
      }
      AgeOrders();
      var sorted := Sort(done, AgeLe);
      InAgeOrder(jobs, done, sorted);
      order := seq(|sorted|, k requires 0 <= k < |sorted| => sorted[k].1);
    }

    /** Drops finished jobs past their days or beyond the limit, oldest first,
        and strips old logs. */
    method Prune(now: nat) returns (ghost order: seq<Id>)
      modifies this`jobs, this`disk, this`events, this`written
      ensures DoneOrder(old(jobs), order)
      ensures old(Valid()) ==> Valid()
      ensures Now() == Pruned(old(Now()), now, retention, order)
      ensures written == old(written) + Writes(old(Now()), Step.Prune(now, retention, order))
      ensures events == old(events) + Broadcasts(old(Now()), Step.Prune(now, retention, order))
    {
      hide Inv, DoneOrder, Apply, Kept, PruneWrites, PruneFrames;
      ghost var was := Now();
      var done := FinishedJobs(jobs);
      order := done;
      DropAndStrip(now, done);
      if Inv(was) { PruneKeeps(was, now, retention, order); }
    }

    method DropAndStrip(now: nat, order: seq<Id>)
      requires DoneOrder(jobs, order)
      modifies this`jobs, this`disk, this`events, this`written
      ensures jobs == Kept(old(jobs), now, retention, order)
      ensures disk == Apply(old(disk), PruneWrites(old(jobs), now, retention, order, |order|))
      ensures written == old(written) + PruneWrites(old(jobs), now, retention, order, |order|)
      ensures events == old(events) + PruneFrames(old(jobs), now, retention, order, |order|)
    {
      ghost var was, r := jobs, retention;
      hide DoneOrder, Drops, Apply, PruneWrites, PruneFrames, KeptUpTo, Stale, Summary, Serialized;
      NothingPruned(disk, was, now, r, order);
      var excess := if |jobs| > retention.maxJobs then |jobs| - retention.maxJobs else 0;
      for i := 0 to |order|
        invariant jobs == KeptUpTo(was, now, r, order, i)
        invariant disk == Apply(old(disk), PruneWrites(was, now, r, order, i))
        invariant written == old(written) + PruneWrites(was, now, r, order, i)
        invariant events == old(events) + PruneFrames(was, now, r, order, i)
      {
        var id := order[i];
        OnePrunedMore(old(disk), was, now, r, order, i);
        if i < excess || Expired(jobs[id].created, retention.keepJobsDays, now) {
          jobs, disk := jobs - {id}, disk - {id};
          written := written + [Remove(id)];
        } else if Expired(jobs[id].created, retention.keepLogsDays, now) && jobs[id].logs != [] {
          jobs := jobs[id := jobs[id].(logs := [], truncated := true)];
          Save(id);
        }
      }
      AllPruned(was, now, r, order);
    }

    // ----- after a restart -----

    /** Reads the files in whatever order the directory lists them, and deletes
        those that cannot be read. */
    static method Load(files: map<Id, Option<Job>>) returns (table: map<Id, Job>, left: map<Id, Option<Job>>)
      ensures table == Readable(files)
      ensures forall id :: id in table <==> id in files && files[id].Some?
      ensures forall id | id in table :: files[id] == Some(table[id])
      ensures left.Keys == table.Keys && forall id | id in left :: left[id] == Some(table[id])
    {
      table, left := map[], files;
      var rest := files.Keys;
      while rest != {}
        invariant rest <= files.Keys && table == ReadableBut(files, rest)
        invariant LeftOf(files, rest, left)
        decreases |rest|
      {
        var id :| id in rest;
        OneReadMore(files, rest, left, id);
        match files[id] {
          case Some(job) => table := table[id := job];
          case None => left := left - {id};
        }
        rest := rest - {id};
      }
    }

    /** Loads the table from the files, deleting those that cannot be read,
        applies retention and takes up what was waiting or running. */
    constructor (files: map<Id, Option<Job>>, retention: Retention, now: nat)
      ensures DiskOk(Readable(files)) ==> Valid()
      ensures exists done, order ::
        && DoneOrder(Readable(files), done) && Lists(order, Kept(Readable(files), now, retention, done).Keys)
        && Now() == Booted(Readable(files), now, retention, done, order)
    {
      var table, left := Load(files);
      jobs, slots, live, disk, described, events := table, map[], map[], table, [], [];
      begun, arrived, finishedBy, written := map[], map[], map[], [];
      this.retention := retention;
      new;
      hide Inv, DiskOk, DoneOrder, Lists, Kept, Idle, Resumed, NamesOf;
      NoNames();
      ghost var done := Prune(now);
      PrunedJobs(table, now, retention, done);
      if DiskOk(table) { PrunedIsIdle(table, now, retention, done); }
      ghost var order := Resume();
    }

    /** Sorts the jobs that are not done: running ones are attached to their
        unit again, pending ones follow them or, without any, run afresh. The
        table is read in whatever order it lists its jobs. */
    method Resume() returns (ghost order: seq<Id>)
      requires slots == map[] && live == map[] && begun == map[]
      modifies this`slots, this`live, this`begun, this`arrived
      ensures Lists(order, jobs.Keys)
      ensures Now() == Resumed(old(Now()), order)
      ensures old(Idle(Now())) ==> Valid()
    {
      hide *;
      ghost var was := Now();
      NowIs();
      var runs;
      order, runs := SortJobs();
      ghost var sorted, attached := slots, runs;
      SortedAll(jobs, order, slots, runs);
      runs := StartWaiting(runs);
      SpawnAll(runs);
      arrived := ResumedArrivals(jobs, order);
      NowIs();
      ResumedIs(was, order, Now(), sorted, attached);
      if Idle(was) { ResumeRestores(was, order); }
      ValidIs();
    }

    lemma NowIs()
      ensures Now() == Agent(jobs, slots, live, disk, NamesOf(described), begun, arrived, finishedBy)
    {
    }

    lemma ValidIs()
      ensures Valid() <==> Inv(Now())
    {
    }

    /** Goes through the table once: running jobs to the run of their flakelet,
        pending ones behind it. */
    method SortJobs() returns (ghost order: seq<Id>, runs: map<string, LiveRun>)
      requires slots == map[]
      modifies this`slots
      ensures Lists(order, jobs.Keys)
      ensures SortedSoFar(jobs, order, slots, runs)
    {
      hide Lists, SortedSoFar, Of;
      runs, order := map[], [];
      NothingSorted(jobs);
      var rest := jobs.Keys;
      while rest != {}
        invariant rest <= jobs.Keys && Lists(order, jobs.Keys - rest)
        invariant SortedSoFar(jobs, order, slots, runs)
        decreases |rest|
      {
        var id :| id in rest;
        var job := jobs[id];
        OneSortedMore(jobs, order, slots, runs, id);
        OneListedMore(order, jobs.Keys, rest, id);
        var slot := if job.flakelet in slots then slots[job.flakelet] else Slot(false, []);
        match job.state {
          case Running =>
            slot := slot.(running := true);
            var ids := if job.flakelet in runs then runs[job.flakelet].ids else [];
            runs := runs[job.flakelet := LiveRun(ids + [id], job.run, 0)];
          case Pending => slot := slot.(followup := slot.followup + [id]);
          case _ =>
        }
        slots := slots[job.flakelet := slot];
        order := order + [id];
        rest := rest - {id};
      }
      assert jobs.Keys - rest == jobs.Keys;
    }

    /** Where nothing runs but jobs wait, they make up a fresh run. */
    method StartWaiting(attached: map<string, LiveRun>) returns (runs: map<string, LiveRun>)
      modifies this`slots
      requires forall f | f in attached :: f in slots && slots[f].running
      ensures slots == SettledBut(old(slots), {})
      ensures runs == RunsBut(old(slots), attached, {})
    {
      hide SettledBut, RunsBut;
      runs := attached;
      NothingStarted(slots, attached);
      var rest := slots.Keys;
      while rest != {}
        invariant rest <= old(slots).Keys
        invariant slots == SettledBut(old(slots), rest)
        invariant runs == RunsBut(old(slots), attached, rest)
        decreases |rest|
      {
        var f :| f in rest;
        OneStartedMore(old(slots), attached, rest, f);
        var slot := slots[f];
        if !slot.running && slot.followup != [] {
          runs := runs[f := LiveRun(slot.followup, None, 0)];
          slots := slots[f := Slot(true, [])];
        }
        rest := rest - {f};
      }
    }

    /** Spawns the run loops. */
    method SpawnAll(runs: map<string, LiveRun>)
      requires live == map[] && begun == map[]
      modifies this`live, this`begun
      ensures live == SpawnedBut(runs, {}) && begun == FirstBut(runs, {})
    {
      hide SpawnedBut, FirstBut;
      var rest := runs.Keys;
      NothingSpawned(runs);
      while rest != {}
        invariant rest <= runs.Keys
        invariant live == SpawnedBut(runs, rest) && begun == FirstBut(runs, rest)
        decreases |rest|
      {
        var f :| f in rest;
        OneSpawnedMore(runs, rest, f);
        SpawnRun(f, runs[f].ids, runs[f].run);
        rest := rest - {f};
      }
    }
  }

  lemma SlotIsThere(a: Agent, key: RunKey)
    requires Inv(a) && key in a.live
    ensures key.flakelet in a.slots && RunKey(key.flakelet, key.number + 1) !in a.live
  {
    LiveRunOk(a, key);
    hide RunOk;
    if RunKey(key.flakelet, key.number + 1) in a.live { LiveRunOk(a, RunKey(key.flakelet, key.number + 1)); }
  }

  lemma RunIsDistinct(a: Agent, key: RunKey)
    requires Inv(a) && key in a.live
    ensures Distinct(a.live[key].ids)
  {
    LiveRunOk(a, key);
  }

  lemma NothingSaved(disk: map<Id, Job>, jobs: map<Id, Job>, done: Option<DoneBody>)
    ensures Saves(jobs, []) == [] && Apply(disk, []) == disk && SaveFrames(jobs, [], done) == []
  {
  }

  lemma NothingMarked(jobs: map<Id, Job>, run: Run, body: DoneBody, now: nat)
    ensures AllRunning(jobs, [], run) == jobs && AllDone(jobs, [], body, now) == jobs
  {
  }

  lemma NothingLogged(jobs: map<Id, Job>, number: nat, line: string)
    ensures AllLogged(jobs, [], number, line) == jobs && LineFrames(jobs, [], number, line) == []
  {
  }

  /** Marking one more job changes that one only, to what it will be in the
      end. */
  lemma OneRunningMore(jobs: map<Id, Job>, ids: seq<Id>, some: seq<Id>, id: Id, run: Run)
    requires id in ids
    ensures var before, after := AllRunning(jobs, some, run), AllRunning(jobs, some + [id], run);
      && (id in jobs ==> id in before && after == before[id := MarkRunning(before[id], run)]
                         && id in AllRunning(jobs, ids, run) && after[id] == AllRunning(jobs, ids, run)[id])
      && (id !in jobs ==> id !in before && after == before && id !in AllRunning(jobs, ids, run))
  {
  }

  lemma OneDoneMore(jobs: map<Id, Job>, ids: seq<Id>, some: seq<Id>, id: Id, body: DoneBody, now: nat)
    requires id in ids
    ensures var before, after := AllDone(jobs, some, body, now), AllDone(jobs, some + [id], body, now);
      && (id in jobs ==> id in before && after == before[id := MarkDone(before[id], body, now)]
                         && id in AllDone(jobs, ids, body, now) && after[id] == AllDone(jobs, ids, body, now)[id])
      && (id !in jobs ==> id !in before && after == before && id !in AllDone(jobs, ids, body, now))
  {
  }

  lemma OneLineMore(jobs: map<Id, Job>, some: seq<Id>, id: Id, number: nat, line: string)
    requires id !in some
    ensures var before, after := AllLogged(jobs, some, number, line), AllLogged(jobs, some + [id], number, line);
      && (id in jobs ==>
            && id in before && before[id] == jobs[id]
            && after == before[id := RecordLine(jobs[id], number, line)])
      && (id !in jobs ==> id !in before && after == before)
    ensures LineFrames(jobs, some + [id], number, line) == LineFrames(jobs, some, number, line) +
      if id in jobs && !jobs[id].truncated then
        [Frame.Log(id, number, if jobs[id].logBytes + Length(line) > LOG_CAP then MARKER else line)]
      else []
  {
    assert (some + [id])[..|some|] == some;
  }

  lemma OneSaveMore(disk: map<Id, Job>, jobs: map<Id, Job>, ids: seq<Id>, id: Id, done: Option<DoneBody>)
    ensures var before, more := Saves(jobs, ids), Saves(jobs, ids + [id]);
      && more == before + (if id in jobs then [Put(id, Serialized(jobs[id]))] else [])
      && Apply(disk, more) == if id in jobs then Apply(disk, before)[id := Serialized(jobs[id])]
         else Apply(disk, before)
    ensures SaveFrames(jobs, ids + [id], done)
         == SaveFrames(jobs, ids, done) + (if done.Some? then [Frame.Done(id, done.value)] else [])
          + (if id in jobs then [Frame.Job(Summary(id, jobs[id]))] else [])
  {
    assert (ids + [id])[..|ids|] == ids;
    var before, more := Saves(jobs, ids), Saves(jobs, ids + [id]);
    if id in jobs {
      assert more[..|more| - 1] == before;
    } else {
      assert more == before;
    }
  }

  lemma StartedIs(a: Agent, b: Agent, id: Id, flakelet: string, who: Caller, now: nat)
    requires Adds(a, id, flakelet) && b.described == a.described
    requires b.jobs == a.jobs[id := NewJob(flakelet, who, now)]
    requires b.disk == a.disk[id := Serialized(NewJob(flakelet, who, now))]
    requires b.arrived == a.arrived[id := Begun(a, flakelet)] && b.finishedBy == a.finishedBy - {id}
    requires var n, slot := Begun(a, flakelet), SlotOf(a, flakelet);
      if slot.running then
        && b.slots == a.slots[flakelet := slot.(followup := slot.followup + [id])]
        && b.live == a.live && b.begun == a.begun
      else
        && b.slots == a.slots[flakelet := slot.(running := true)]
        && b.live == a.live[RunKey(flakelet, n + 1) := LiveRun([id], None, 0)]
        && b.begun == a.begun[flakelet := n + 1]
    ensures b == Started(a, id, flakelet, who, now)
  {
    hide NewJob, Serialized;
  }

  lemma CompletedIs(a: Agent, b: Agent, key: RunKey, body: DoneBody, now: nat)
    requires key in a.live && key.flakelet in a.slots && b.described == a.described && b.arrived == a.arrived
    requires var ids, next := a.live[key].ids, a.slots[key.flakelet].followup;
      && b.jobs == AllDone(a.jobs, ids, body, now)
      && b.disk == Apply(a.disk, Saves(b.jobs, ids))
      && b.finishedBy == a.finishedBy + AllBy(ids, key.number)
      && b.slots == a.slots[key.flakelet := Slot(next != [], [])]
      && b.live == (if next == [] then a.live - {key}
                    else (a.live - {key})[RunKey(key.flakelet, key.number + 1) := LiveRun(next, None, 0)])
      && b.begun == if next == [] then a.begun else a.begun[key.flakelet := key.number + 1]
    ensures b == Completed(a, key, body, now)
  {
    hide Apply, Saves, AllDone, AllBy;
    var slot := SlotOf(a, key.flakelet);
    if slot.followup == [] {
      assert b.live == Completed(a, key, body, now).live;
    } else {
      assert b.live == Completed(a, key, body, now).live;
    }
  }

  // ----- retention -----

  function Finished(jobs: map<Id, Job>): set<Id> {
    set id | id in jobs && jobs[id].state.Done?
  }

  predicate AgeLe(a: (nat, Id), b: (nat, Id)) {
    a.0 < b.0 || (a.0 == b.0 && a.1 <= b.1)
  }

  lemma AgeOrders()
    ensures Orders(AgeLe)
  {
  }

  /** All finished jobs but some, each once, with their age. */
  ghost predicate Collected(jobs: map<Id, Job>, rest: set<Id>, done: seq<(nat, Id)>) {
    && (forall id | id in rest :: id in Finished(jobs))
    && (forall id | id in Finished(jobs) && id !in rest :: (jobs[id].created, id) in done)
    && (forall x | x in done :: x.1 in Finished(jobs) && x.1 !in rest && x.0 == jobs[x.1].created)
    && (forall i, j | 0 <= i < j < |done| :: done[i] != done[j])
  }

  lemma OneMoreCollected(jobs: map<Id, Job>, rest: set<Id>, done: seq<(nat, Id)>, id: Id)
    requires Collected(jobs, rest, done) && id in rest
    ensures id in jobs && Collected(jobs, rest - {id}, done + [(jobs[id].created, id)])
  {
    var x, more := (jobs[id].created, id), done + [(jobs[id].created, id)];
    assert x !in done && x in more && forall y | y in done :: y in more;
  }

  lemma InAgeOrder(jobs: map<Id, Job>, done: seq<(nat, Id)>, sorted: seq<(nat, Id)>)
    requires Collected(jobs, {}, done) && Sorting.Sorted(sorted, AgeLe) && multiset(sorted) == multiset(done)
    ensures DoneOrder(jobs, seq(|sorted|, k requires 0 <= k < |sorted| => sorted[k].1))
  {
    SameMembers(sorted, done);
    StillDistinct(done, sorted);
    var order := seq(|sorted|, k requires 0 <= k < |sorted| => sorted[k].1);
    forall i | 0 <= i < |order| ensures order[i] in Finished(jobs) && sorted[i].0 == jobs[order[i]].created {
      assert sorted[i] in done;
    }
    forall id | id in jobs && jobs[id].state.Done? ensures id in order {
      assert id in Finished(jobs) && (jobs[id].created, id) in sorted;
      var i :| 0 <= i < |sorted| && sorted[i] == (jobs[id].created, id);
      assert order[i] == id;
    }
    forall i, j | 0 <= i < j < |order| ensures Before(jobs, order[i], order[j]) {
      assert AgeLe(sorted[i], sorted[j]) && sorted[i] != sorted[j];
    }
  }

  /** The table with the first few finished jobs looked at. */
  function KeptUpTo(jobs: map<Id, Job>, now: nat, r: Retention, order: seq<Id>, k: nat): map<Id, Job>
    requires k <= |order|
  {
    if k == 0 then jobs else
    var before, id := KeptUpTo(jobs, now, r, order, k - 1), order[k - 1];
    if Drops(jobs, now, r, order, k - 1) then before - {id}
    else if id in jobs && Stale(jobs[id], now, r) then before[id := Strip(jobs[id])]
    else before
  }

  lemma {:induction false} KeptOther(jobs: map<Id, Job>, now: nat, r: Retention, order: seq<Id>, k: nat, id: Id)
    requires k <= |order| && id !in order[..k]
    ensures var kept := KeptUpTo(jobs, now, r, order, k);
      && (id in kept <==> id in jobs)
      && (id in jobs ==> kept[id] == jobs[id])
  {
    hide Drops, Stale, Strip;
    if k > 0 {
      assert order[..k] == order[..k - 1] + [order[k - 1]];
      KeptOther(jobs, now, r, order, k - 1, id);
    }
  }

  lemma {:induction false} KeptAt(jobs: map<Id, Job>, now: nat, r: Retention, order: seq<Id>, k: nat, i: nat)
    requires i < k <= |order| && order[i] in jobs && Distinct(order)
    ensures var kept := KeptUpTo(jobs, now, r, order, k);
      && (order[i] in kept <==> !Drops(jobs, now, r, order, i))
      && (order[i] in kept ==>
            kept[order[i]] == if Stale(jobs[order[i]], now, r) then Strip(jobs[order[i]]) else jobs[order[i]])
  {
    hide Drops, Stale, Strip;
    if i == k - 1 {
      KeptOther(jobs, now, r, order, i, order[i]);
    } else {
      KeptAt(jobs, now, r, order, k - 1, i);
    }
  }

  lemma AllPruned(jobs: map<Id, Job>, now: nat, r: Retention, order: seq<Id>)
    requires DoneOrder(jobs, order)
    ensures KeptUpTo(jobs, now, r, order, |order|) == Kept(jobs, now, r, order)
  {
    OrderFacts(jobs, order);
    hide DoneOrder, Drops, KeptUpTo, Strip, Expired;
    var kept, n := KeptUpTo(jobs, now, r, order, |order|), |order|;
    assert order[..n] == order;
    forall id
      ensures id in kept <==> id in jobs && id !in Gone(jobs, now, r, order)
      ensures id in kept ==> kept[id] == if Stale(jobs[id], now, r) then Strip(jobs[id]) else jobs[id]
    {
      if id in order {
        var i :| 0 <= i < n && order[i] == id;
        KeptAt(jobs, now, r, order, n, i);
      } else {
        KeptOther(jobs, now, r, order, n, id);
      }
    }
  }

  lemma OrderFacts(jobs: map<Id, Job>, order: seq<Id>)
    requires DoneOrder(jobs, order)
    ensures (forall i | 0 <= i < |order| :: order[i] in jobs && jobs[order[i]].state.Done?) && Distinct(order)
    ensures forall id | id in jobs && jobs[id].state.Done? :: id in order
  {
  }

  lemma NothingPruned(disk: map<Id, Job>, jobs: map<Id, Job>, now: nat, r: Retention, order: seq<Id>)
    ensures KeptUpTo(jobs, now, r, order, 0) == jobs
    ensures PruneWrites(jobs, now, r, order, 0) == [] && Apply(disk, []) == disk
    ensures PruneFrames(jobs, now, r, order, 0) == []
  {
  }

  lemma OnePrunedMore(disk: map<Id, Job>, jobs: map<Id, Job>, now: nat, r: Retention, order: seq<Id>, i: nat)
    requires DoneOrder(jobs, order) && i < |order|
    ensures var id, kept, kept' := order[i], KeptUpTo(jobs, now, r, order, i), KeptUpTo(jobs, now, r, order, i + 1);
      && id in jobs && id in kept && kept[id] == jobs[id]
      && (Drops(jobs, now, r, order, i) <==>
            i + r.maxJobs < |jobs| || Expired(jobs[id].created, r.keepJobsDays, now))
      && (Stale(jobs[id], now, r) <==> Expired(jobs[id].created, r.keepLogsDays, now) && jobs[id].logs != [])
      && kept' == if Drops(jobs, now, r, order, i) then kept - {id}
                  else if Stale(jobs[id], now, r) then kept[id := Strip(jobs[id])]
                  else kept
    ensures var id, before, after := order[i], PruneWrites(jobs, now, r, order, i),
      PruneWrites(jobs, now, r, order, i + 1);
      if Drops(jobs, now, r, order, i) then
        after == before + [Remove(id)] && Apply(disk, after) == Apply(disk, before) - {id}
      else if Stale(jobs[id], now, r) then
        after == before + [Put(id, Serialized(Strip(jobs[id])))]
        && Apply(disk, after) == Apply(disk, before)[id := Serialized(Strip(jobs[id]))]
      else after == before
    ensures PruneFrames(jobs, now, r, order, i + 1) == PruneFrames(jobs, now, r, order, i) +
      if !Drops(jobs, now, r, order, i) && Stale(jobs[order[i]], now, r) then
        [Frame.Job(Summary(order[i], Strip(jobs[order[i]])))]
      else []
  {
    hide Apply, Summary, Serialized, Strip, Expired, DoneOrder;
    OrderFacts(jobs, order);
    assert order[i] !in order[..i];
    KeptOther(jobs, now, r, order, i, order[i]);
    OneWriteMore(disk, PruneWrites(jobs, now, r, order, i), Remove(order[i]));
    OneWriteMore(disk, PruneWrites(jobs, now, r, order, i), Put(order[i], Serialized(Strip(jobs[order[i]]))));
  }

  lemma {:induction false} OneWriteMore(disk: map<Id, Job>, writes: seq<Write>, w: Write)
    ensures Apply(disk, writes + [w]) ==
      match w case Put(id, job) => Apply(disk, writes)[id := job] case Remove(id) => Apply(disk, writes) - {id}
  {
    assert (writes + [w])[..|writes|] == writes;
  }

  // ----- after a restart -----

  ghost predicate Named(jobs: map<Id, Job>, order: seq<Id>, f: string) {
    exists id :: id in order && id in jobs && jobs[id].flakelet == f
  }

  /** Slots and runs with the jobs listed so far sorted into them. */
  ghost predicate SortedSoFar(jobs: map<Id, Job>, order: seq<Id>, slots: map<string, Slot>, runs: map<string,
                              LiveRun>) {
    SlotsSorted(jobs, order, slots) && RunsSorted(jobs, order, runs)
  }

  ghost predicate SlotsSorted(jobs: map<Id, Job>, order: seq<Id>, slots: map<string, Slot>) {
    && (forall f :: f in slots <==> Named(jobs, order, f))
    && (forall f | f in slots ::
          slots[f] == Slot(Of(jobs, order, f, JobState.Running) != [], Of(jobs, order, f, JobState.Pending)))
  }

  ghost predicate RunsSorted(jobs: map<Id, Job>, order: seq<Id>, runs: map<string, LiveRun>) {
    && (forall f :: f in runs <==> Of(jobs, order, f, JobState.Running) != [])
    && (forall f | f in runs ::
          var ids := Of(jobs, order, f, JobState.Running);
          ids != [] && ids[|ids| - 1] in jobs && runs[f] == LiveRun(ids, jobs[ids[|ids| - 1]].run, 0))
  }

  lemma NothingSorted(jobs: map<Id, Job>)
    ensures SortedSoFar(jobs, [], map[], map[]) && Lists([], jobs.Keys - jobs.Keys)
  {
  }

  lemma OfOneMore(jobs: map<Id, Job>, order: seq<Id>, id: Id)
    ensures forall f, st ::
      Of(jobs, order + [id], f, st) == Of(jobs, order, f, st) + if Is(jobs, id, f, st) then [id] else []
  {
    assert (order + [id])[..|order|] == order;
  }

  lemma {:induction false} NoneOf(jobs: map<Id, Job>, order: seq<Id>, f: string)
    requires !Named(jobs, order, f)
    ensures forall st :: Of(jobs, order, f, st) == []
  {
    if order != [] {
      var front := order[..|order| - 1];
      assert order[|order| - 1] in order && forall id | id in front :: id in order;
      NoneOf(jobs, front, f);
    }
  }

  /** Sorting one more job in. */
  lemma OneSortedMore(jobs: map<Id, Job>, order: seq<Id>, slots: map<string, Slot>, runs: map<string, LiveRun>, id: Id)
    requires SortedSoFar(jobs, order, slots, runs) && id in jobs
    ensures var job := jobs[id];
      var slot := if job.flakelet in slots then slots[job.flakelet] else Slot(false, []);
      var ids := if job.flakelet in runs then runs[job.flakelet].ids else [];
      match job.state
      case Running => SortedSoFar(jobs, order + [id], slots[job.flakelet := slot.(running := true)],
                                  runs[job.flakelet := LiveRun(ids + [id], job.run, 0)])
      case Pending =>
        SortedSoFar(jobs, order + [id], slots[job.flakelet := slot.(followup := slot.followup + [id])], runs)
      case _ => SortedSoFar(jobs, order + [id], slots[job.flakelet := slot], runs)
  {
    hide SlotsSorted, RunsSorted;
    OneSlotMore(jobs, order, slots, id);
    OneAttachedMore(jobs, order, runs, id);
  }

  lemma OneSlotMore(jobs: map<Id, Job>, order: seq<Id>, slots: map<string, Slot>, id: Id)
    requires SlotsSorted(jobs, order, slots) && id in jobs
    ensures var job := jobs[id];
      var slot := if job.flakelet in slots then slots[job.flakelet] else Slot(false, []);
      SlotsSorted(jobs, order + [id], slots[job.flakelet :=
        if job.state.Running? then slot.(running := true)
        else if job.state.Pending? then slot.(followup := slot.followup + [id])
        else slot])
  {
    OfOneMore(jobs, order, id);
    if jobs[id].flakelet !in slots { NoneOf(jobs, order, jobs[id].flakelet); }
    SeenMore(jobs, order, id);
    hide Of, Named;
  }

  lemma OneAttachedMore(jobs: map<Id, Job>, order: seq<Id>, runs: map<string, LiveRun>, id: Id)
    requires RunsSorted(jobs, order, runs) && id in jobs
    ensures var f := jobs[id].flakelet;
      var ids := if f in runs then runs[f].ids else [];
      RunsSorted(jobs, order + [id],
        if jobs[id].state.Running? then runs[f := LiveRun(ids + [id], jobs[id].run, 0)] else runs)
  {
    OfOneMore(jobs, order, id);
    hide Of;
  }

  lemma SeenMore(jobs: map<Id, Job>, order: seq<Id>, id: Id)
    requires id in jobs
    ensures forall f :: Named(jobs, order + [id], f) <==> Named(jobs, order, f) || jobs[id].flakelet == f
  {
    var more := order + [id];
    assert id in more && forall x | x in order :: x in more;
    forall f | Named(jobs, order, f) ensures Named(jobs, more, f) {
      var x :| x in order && x in jobs && jobs[x].flakelet == f;
      assert x in more;
    }
  }

  /** A slot whose waiting jobs are started if nothing runs. */
  function Settled(slot: Slot): Slot {
    if slot.running then slot else Slot(slot.followup != [], [])
  }

  /** The slots once the waiting jobs of all but some flakelets are started. */
  function SettledBut(slots: map<string, Slot>, rest: set<string>): map<string, Slot> {
    map f | f in slots :: if f in rest then slots[f] else Settled(slots[f])
  }

  function RunsBut(slots: map<string, Slot>, attached: map<string, LiveRun>, rest: set<string>): map<string, LiveRun> {
    map f | f in slots && (f in attached || (f !in rest && Waits(slots[f]))) ::
      if f in attached then attached[f] else LiveRun(slots[f].followup, None, 0)
  }

  predicate Waits(slot: Slot) {
    !slot.running && slot.followup != []
  }

  lemma NothingStarted(slots: map<string, Slot>, attached: map<string, LiveRun>)
    requires forall f | f in attached :: f in slots
    ensures SettledBut(slots, slots.Keys) == slots && RunsBut(slots, attached, slots.Keys) == attached
  {
  }

  lemma OneStartedMore(slots: map<string, Slot>, attached: map<string, LiveRun>, rest: set<string>, f: string)
    requires f in rest && f in slots && (f in attached ==> slots[f].running)
    ensures var before, after := SettledBut(slots, rest), SettledBut(slots, rest - {f});
      && f in before && before[f] == slots[f]
      && after == if Waits(slots[f]) then before[f := Slot(true, [])] else before
    ensures var before, after := RunsBut(slots, attached, rest), RunsBut(slots, attached, rest - {f});
      after == if Waits(slots[f]) then before[f := LiveRun(slots[f].followup, None, 0)] else before
  {
    var before, after := SettledBut(slots, rest), SettledBut(slots, rest - {f});
    if !Waits(slots[f]) { assert Settled(slots[f]) == slots[f]; }
  }

  /** The first run of all but some flakelets. */
  function SpawnedBut(runs: map<string, LiveRun>, rest: set<string>): map<RunKey, LiveRun> {
    map f | f in runs && f !in rest :: RunKey(f, 1) := LiveRun(runs[f].ids, runs[f].run, 0)
  }

  function FirstBut(runs: map<string, LiveRun>, rest: set<string>): map<string, nat> {
    map f | f in runs && f !in rest :: 1
  }

  lemma NothingSpawned(runs: map<string, LiveRun>)
    ensures SpawnedBut(runs, runs.Keys) == map[] && FirstBut(runs, runs.Keys) == map[]
  {
  }

  lemma OneSpawnedMore(runs: map<string, LiveRun>, rest: set<string>, f: string)
    requires f in rest && f in runs
    ensures f !in FirstBut(runs, rest) && FirstBut(runs, rest - {f}) == FirstBut(runs, rest)[f := 1]
    ensures SpawnedBut(runs, rest - {f}) == SpawnedBut(runs, rest)[RunKey(f, 1) := LiveRun(runs[f].ids, runs[f].run, 0)]
  {
  }

  /** All jobs sorted in: what remains is to start those that only wait. */
  ghost predicate AllSorted(jobs: map<Id, Job>, order: seq<Id>, slots: map<string, Slot>, runs: map<string, LiveRun>) {
    && (forall f :: f in slots <==> f in JobRecovery.Flakelets(jobs))
    && (forall f | f in slots :: ResumedSlot(jobs, order, f) == Settled(slots[f]))
    && (forall f :: f in runs <==> f in slots && slots[f].running)
    && (forall f | f in runs :: ResumedRun(jobs, order, f) == runs[f] && runs[f].lines == 0)
    && (forall f | f in slots && f !in runs :: ResumedRun(jobs, order, f) == LiveRun(slots[f].followup, None, 0))
  }

  lemma SortedAll(jobs: map<Id, Job>, order: seq<Id>, slots: map<string, Slot>, runs: map<string, LiveRun>)
    requires SortedSoFar(jobs, order, slots, runs) && Lists(order, jobs.Keys)
    ensures AllSorted(jobs, order, slots, runs)
    ensures forall f | f in runs :: f in slots && slots[f].running
  {
    hide Of;
    forall f | f in runs ensures f in slots {
      if f !in slots { NoneOf(jobs, order, f); }
    }
    SameFlakelets(jobs, order);
    hide Named, Lists, JobRecovery.Flakelets;
  }

  lemma SameFlakelets(jobs: map<Id, Job>, order: seq<Id>)
    requires Lists(order, jobs.Keys)
    ensures forall f :: Named(jobs, order, f) <==> f in JobRecovery.Flakelets(jobs)
  {
  }

  lemma OneListedMore(order: seq<Id>, ids: set<Id>, rest: set<Id>, id: Id)
    requires rest <= ids && Lists(order, ids - rest) && id in rest
    ensures Lists(order + [id], ids - (rest - {id}))
  {
    assert id !in order;
  }

  lemma ResumedIs(a: Agent, order: seq<Id>, b: Agent, sorted: map<string, Slot>, attached: map<string, LiveRun>)
    requires AllSorted(a.jobs, order, sorted, attached)
    requires var runs := RunsBut(sorted, attached, {});
      b == a.(slots := SettledBut(sorted, {}), live := SpawnedBut(runs, {}), begun := FirstBut(runs, {}),
              arrived := ResumedArrivals(a.jobs, order))
    ensures b == Resumed(a, order)
  {
    var runs := RunsBut(sorted, attached, {});
    hide ResumedSlot, ResumedRun, JobRecovery.Flakelets, ResumedArrivals, SpawnedBut, FirstBut, Resumed;
    SameSlots(a, order, SettledBut(sorted, {}));
    RunsAre(a, order, sorted, attached);
    SameRuns(a, order, runs);
    ResumedRest(a, order);
  }

  lemma ResumedRest(a: Agent, order: seq<Id>)
    ensures var b := Resumed(a, order);
      b == a.(slots := b.slots, live := b.live, begun := b.begun, arrived := ResumedArrivals(a.jobs, order))
  {
    hide ResumedSlot, ResumedRun, JobRecovery.Flakelets, ResumedArrivals;
  }

  lemma RunsAre(a: Agent, order: seq<Id>, sorted: map<string, Slot>, attached: map<string, LiveRun>)
    requires AllSorted(a.jobs, order, sorted, attached)
    ensures var runs := RunsBut(sorted, attached, {});
      && (forall f :: f in runs <==> f in JobRecovery.Flakelets(a.jobs) && ResumedSlot(a.jobs, order, f).running)
      && (forall f | f in runs :: runs[f] == ResumedRun(a.jobs, order, f) && runs[f].lines == 0)
  {
    hide ResumedSlot, ResumedRun, JobRecovery.Flakelets;
  }

  lemma SameSlots(a: Agent, order: seq<Id>, slots: map<string, Slot>)
    requires forall f :: f in slots <==> f in JobRecovery.Flakelets(a.jobs)
    requires forall f | f in slots :: slots[f] == ResumedSlot(a.jobs, order, f)
    ensures slots == Resumed(a, order).slots
  {
    hide ResumedSlot, ResumedRun, JobRecovery.Flakelets, ResumedArrivals;
  }

  lemma SameRuns(a: Agent, order: seq<Id>, runs: map<string, LiveRun>)
    requires forall f :: f in runs <==> f in JobRecovery.Flakelets(a.jobs) && ResumedSlot(a.jobs, order, f).running
    requires forall f | f in runs :: runs[f] == ResumedRun(a.jobs, order, f) && runs[f].lines == 0
    ensures SpawnedBut(runs, {}) == Resumed(a, order).live && FirstBut(runs, {}) == Resumed(a, order).begun
  {
    hide ResumedSlot, ResumedRun, JobRecovery.Flakelets, ResumedArrivals;
  }

}
