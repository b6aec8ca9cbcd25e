/** What becomes of a job: who asked for it, and how it ended, from then on and for
    as long as it is kept (src/agent/jobs.rs). */
module JobResults {
  import opened Wrappers
  import opened Proto
  import opened JobTable
  import opened JobInvariants
  import opened JobRecovery
  import opened JobRuns
  import R = JobRuns
  import Jobs

  // ----- what is remembered of a job -----

  /** How a job came about, or how it ended. */
  datatype Fact =
    | Asked(flakelet: string, who: Caller, created: nat)
    | Ended(body: DoneBody, at: nat)

  predicate Meets(j: Job, f: Fact) {
    match f
    case Asked(flakelet, who, created) => j.flakelet == flakelet && j.who == who && j.created == created
    case Ended(body, at) => j.state == JobState.Done && j.done == Some(body) && j.finished == Some(at)
  }

  /** The jobs of a running agent, or of its state directory while it is down. */
  function Known(w: World): map<Id, Job> {
    match w case Up(a) => a.jobs case Down(disk) => disk
  }

  ghost predicate Remembers(w: World, id: Id, f: Fact) {
    id in Known(w) ==> Meets(Known(w)[id], f)
  }

  /** The events lead from the one state to the other, and the job is there all the
      time: retention does not drop it, and no crash loses it. */
  ghost predicate LeadsKeeping(from: World, events: seq<R.Event>, to: World, id: Id)
    decreases |events|
  {
    && id in Known(from)
    && if events == [] then from == to
       else Possible(from, events[0]) && LeadsKeeping(R.After(from, events[0]), events[1..], to, id)
  }

  // ----- one step -----

  lemma StepRemembers(a: Agent, s: Step, id: Id, f: Fact)
    requires Inv(a) && Enabled(a, s) && id in a.jobs && Meets(a.jobs[id], f)
    ensures id in Do(a, s).jobs ==> Meets(Do(a, s).jobs[id], f)
  {
    hide Apply, Saves, PruneWrites, RecordLine, NewJob, LocalJob, Gone, LiveOk, SlotsOk, Covered, DiskMatches, JobsOk;
    RecordLineMeets(a, s, id, f);
    if s.Launch? || s.Complete? || s.Line? {
      LiveRunOk(a, s.key);
      RunIds(a, s.key);
    }
  }

  lemma RecordLineMeets(a: Agent, s: Step, id: Id, f: Fact)
    requires id in a.jobs && Meets(a.jobs[id], f)
    ensures forall number, line :: Meets(RecordLine(a.jobs[id], number, line), f)
  {
  }

  lemma {:induction false} SavesMeet(jobs: map<Id, Job>, ids: seq<Id>)
    ensures forall w | w in Saves(jobs, ids) :: w.Put? && w.id in jobs && w.job == Serialized(jobs[w.id])
  {
    hide Serialized;
    if ids != [] { SavesMeet(jobs, ids[..|ids| - 1]); }
  }

  lemma {:induction false} PruneMeets(jobs: map<Id, Job>, now: nat, r: Retention, order: seq<Id>, k: nat)
    requires k <= |order|
    ensures forall w | w in PruneWrites(jobs, now, r, order, k) && w.Put? ::
      w.id in jobs && w.job == Serialized(Strip(jobs[w.id]))
  {
    hide Serialized, Drops, Strip, Stale;
    if k > 0 { PruneMeets(jobs, now, r, order, k - 1); }
  }

  /** What a step writes of the job agrees with what is known of it. */
  lemma WritesMeet(a: Agent, s: Step, id: Id, f: Fact)
    requires Inv(a) && Enabled(a, s) && id in a.jobs && Meets(a.jobs[id], f)
    ensures forall w | w in Writes(a, s) && w.Put? && w.id == id :: Meets(w.job, f)
  {
    hide Inv, Saves, PruneWrites, NewJob, LocalJob, Gone;
    StepRemembers(a, s, id, f);
    match s {
      case Launch(key, run) => SavesMeet(MarkedRunning(a, key, run), a.live[key].ids);
      case Complete(key, body, now) => SavesMeet(MarkedDone(a, key, body, now), a.live[key].ids);
      case Prune(now, r, order) => PruneMeets(a.jobs, now, r, order, |order|);
      case _ =>
    }
  }

  lemma {:induction false} AppliedMeets(disk: map<Id, Job>, ws: seq<Write>, id: Id, f: Fact)
    requires id in disk ==> Meets(disk[id], f)
    requires forall w | w in ws && w.Put? && w.id == id :: Meets(w.job, f)
    ensures id in Apply(disk, ws) ==> Meets(Apply(disk, ws)[id], f)
  {
    hide Meets;
    if ws != [] {
      assert ws[|ws| - 1] in ws && forall w | w in ws[..|ws| - 1] :: w in ws;
      AppliedMeets(disk, ws[..|ws| - 1], id, f);
    }
  }

  lemma FileMeets(a: Agent, id: Id, f: Fact)
    requires Inv(a) && id in a.jobs && Meets(a.jobs[id], f)
    ensures id in a.disk && Meets(a.disk[id], f)
  {
    hide LiveOk, SlotsOk, Covered, HistoryOk, JobsOk;
  }

  lemma KeptMeets(jobs: map<Id, Job>, now: nat, r: Retention, order: seq<Id>, id: Id, f: Fact)
    requires id in jobs && Meets(jobs[id], f)
    ensures id in Kept(jobs, now, r, order) ==> Meets(Kept(jobs, now, r, order)[id], f)
  {
    hide Gone;
  }

  lemma EventRemembers(w: World, e: R.Event, id: Id, f: Fact)
    requires WorldOk(w) && Possible(w, e) && id in Known(w) && Remembers(w, id, f)
    ensures Remembers(R.After(w, e), id, f)
  {
    hide Inv, DiskOk, Do, Writes, Enabled, Apply, PruneWrites, Kept, DoneOrder, Lists, Booted, Meets;
    match e {
      case Does(s) => StepRemembers(w.agent, s, id, f);
      case Crashes(s, saved) =>
        FileMeets(w.agent, id, f);
        WritesMeet(w.agent, s, id, f);
        AppliedMeets(w.agent.disk, Writes(w.agent, s)[..saved], id, f);
      case Boots(now, r, done, order) =>
        Recovers(w.disk, now, r, done, order);
        KeptMeets(w.disk, now, r, done, id, f);
      case CrashesBooting(now, r, done, saved) =>
        var ws := PruneWrites(w.disk, now, r, done, |done|);
        PruneMeets(w.disk, now, r, done, |done|);
        StripMeets(w.disk, id, f);
        AppliedMeets(w.disk, ws[..saved], id, f);
    }
  }

  lemma StripMeets(jobs: map<Id, Job>, id: Id, f: Fact)
    requires id in jobs && Meets(jobs[id], f)
    ensures Meets(Serialized(Strip(jobs[id])), f)
  {
  }

  lemma {:induction false} RunRemembers(from: World, events: seq<R.Event>, to: World, id: Id, f: Fact)
    requires WorldOk(from) && LeadsKeeping(from, events, to, id) && Remembers(from, id, f)
    ensures id in Known(to) && Remembers(to, id, f) && WorldOk(to)
    decreases |events|
  {
    hide WorldOk, Possible, R.After, Remembers, Known;
    if events != [] {
      EventKeeps(from, events[0]);
      EventRemembers(from, events[0], id, f);
      RunRemembers(R.After(from, events[0]), events[1..], to, id, f);
    }
  }

  // ----- what a job answers -----

  /** A replay: the acknowledgement, the log line by line, and the result if there
      is one. */
  lemma FramesAre(id: Id, j: Job)
    ensures var fs, n := Frames(id, j), |j.logs|;
      && |fs| == 1 + n + (if j.done.Some? then 1 else 0)
      && fs[0].Ack? && fs[0].id == id && fs[0].accepted
      && (forall k | 0 <= k < n :: fs[k + 1] == Frame.Log(id, j.logs[k].0, j.logs[k].1))
      && (j.done.Some? ==> fs[n + 1] == Frame.Done(id, j.done.value))
  {
    LogFramesAre(id, j.logs);
  }

  lemma {:induction false} LogFramesAre(id: Id, logs: seq<(nat, string)>)
    ensures |LogFrames(id, logs)| == |logs|
    ensures forall k | 0 <= k < |logs| :: LogFrames(id, logs)[k] == Frame.Log(id, logs[k].0, logs[k].1)
  {
    if logs != [] { LogFramesAre(id, logs[..|logs| - 1]); }
  }

  /** The only result among some frames is the one given, and it comes last. */
  ghost predicate EndsWith(fs: seq<Frame>, id: Id, body: DoneBody) {
    && fs != [] && fs[|fs| - 1] == Frame.Done(id, body)
    && forall k | 0 <= k < |fs| - 1 :: !fs[k].Done?
  }

  lemma DoneAnswers(id: Id, j: Job, body: DoneBody)
    requires j.done == Some(body)
    ensures EndsWith(Frames(id, j), id, body)
  {
    hide Frames;
    FramesAre(id, j);
    var fs := Frames(id, j);
    forall k | 0 <= k < |fs| - 1 ensures !fs[k].Done? {
      if k > 0 { assert fs[(k - 1) + 1] == Frame.Log(id, j.logs[k - 1].0, j.logs[k - 1].1); }
    }
  }

  /** Why a start is refused, and what it is answered with otherwise. */
  lemma StartAnswers(a: Agent, id: Id, flakelet: string)
    ensures flakelet !in a.described ==>
      Reply(a, id, flakelet) == [Frame.Ack(id, false, "no such flakelet on this host")]
    ensures flakelet in a.described && id in a.jobs && a.jobs[id].flakelet != flakelet ==>
      Reply(a, id, flakelet) == [Frame.Ack(id, false, "id already used for another flakelet")]
    ensures flakelet in a.described && id !in a.jobs ==> Reply(a, id, flakelet) == [Frame.Ack(id, true, "")]
    ensures flakelet in a.described && id in a.jobs && a.jobs[id].flakelet == flakelet && a.jobs[id].done.Some? ==>
      EndsWith(Reply(a, id, flakelet), id, a.jobs[id].done.value)
    ensures flakelet in a.described && id in a.jobs && a.jobs[id].flakelet == flakelet && a.jobs[id].done.None? ==>
      forall k | 0 <= k < |Reply(a, id, flakelet)| :: !Reply(a, id, flakelet)[k].Done?
  {
    hide Frames;
    if id in a.jobs {
      FramesAre(id, a.jobs[id]);
      if a.jobs[id].done.Some? {
        DoneAnswers(id, a.jobs[id], a.jobs[id].done.value);
      } else {
        var fs := Frames(id, a.jobs[id]);
        forall k | 0 <= k < |fs| ensures !fs[k].Done? {
          if k > 0 { assert fs[(k - 1) + 1] == Frame.Log(id, a.jobs[id].logs[k - 1].0, a.jobs[id].logs[k - 1].1); }
        }
      }
    }
  }

  // ----- how a job ends -----

  /** The end of a run ends each of its jobs, in memory and on file. */
  lemma CompleteEnds(a: Agent, key: RunKey, body: DoneBody, now: nat, id: Id)
    requires Inv(a) && Enabled(a, Step.Complete(key, body, now)) && id in a.live[key].ids
    ensures var b := Completed(a, key, body, now); id in b.jobs && Meets(b.jobs[id], Ended(body, now))
  {
    hide Apply, Saves, LiveOk, SlotsOk, Covered, JobsOk, DiskMatches, HistoryOk;
    LiveRunOk(a, key);
    RunIds(a, key);
  }

  /** From the end of a run on, over all later starts, runs, retention, crashes and
      restarts, and for as long as the job is kept: it is done with the result its
      run ended with, and every replay and every answer to a start that is not
      refused ends with that result and carries no other. */
  lemma ResultStays(a: Agent, key: RunKey, body: DoneBody, now: nat, id: Id, events: seq<R.Event>, b: Agent,
                    flakelet: string)
    requires Inv(a) && Enabled(a, Step.Complete(key, body, now)) && id in a.live[key].ids
    requires LeadsKeeping(Up(Completed(a, key, body, now)), events, Up(b), id)
    ensures id in b.jobs && b.jobs[id].state == JobState.Done && b.jobs[id].done == Some(body)
    ensures b.jobs[id].finished == Some(now)
    ensures EndsWith(Frames(id, b.jobs[id]), id, body)
    ensures flakelet in b.described && b.jobs[id].flakelet == flakelet ==> EndsWith(Reply(b, id, flakelet), id, body)
    ensures forall f | f in Reply(b, id, flakelet) && f.Done? :: f == Frame.Done(id, body)
  {
    hide Inv, Completed, LeadsKeeping, Frames;
    CompleteKeeps(a, key, body, now);
    CompleteEnds(a, key, body, now, id);
    RunRemembers(Up(Completed(a, key, body, now)), events, Up(b), id, Ended(body, now));
    DoneAnswers(id, b.jobs[id], body);
  }

  /** From its start on, and for as long as it is kept, a job is what was asked for,
      by whom and when. */
  lemma StartStays(a: Agent, id: Id, flakelet: string, who: Caller, now: nat, events: seq<R.Event>, b: Agent)
    requires Inv(a) && flakelet in a.described && id !in a.jobs
    requires LeadsKeeping(Up(Started(a, id, flakelet, who, now)), events, Up(b), id)
    ensures id in b.jobs && b.jobs[id].flakelet == flakelet && b.jobs[id].who == who && b.jobs[id].created == now
  {
    hide Inv, LeadsKeeping;
    StartKeeps(a, id, flakelet, who, now);
    assert Remembers(Up(Started(a, id, flakelet, who, now)), id, Asked(flakelet, who, now));
    hide Started;
    RunRemembers(Up(Started(a, id, flakelet, who, now)), events, Up(b), id, Asked(flakelet, who, now));
  }

  // ----- what relays are told -----

  lemma {:induction false} SaveIsTold(jobs: map<Id, Job>, ids: seq<Id>, done: Option<DoneBody>, id: Id)
    requires id in ids && id in jobs
    ensures Frame.Job(Summary(id, jobs[id])) in SaveFrames(jobs, ids, done)
    ensures done.Some? ==> Frame.Done(id, done.value) in SaveFrames(jobs, ids, done)
  {
    hide Summary;
    var front := ids[..|ids| - 1];
    assert ids == front + [ids[|ids| - 1]];
    if id in front { SaveIsTold(jobs, front, done, id); }
  }

  /** At the end of a run relays are told, for each of its jobs, the result and a
      summary: done, since when, with the result's status, generation and revision,
      for the one who asked. */
  lemma EndIsTold(a: Agent, key: RunKey, body: DoneBody, now: nat, id: Id) returns (ref: JobRef)
    requires Inv(a) && Enabled(a, Step.Complete(key, body, now)) && id in a.live[key].ids
    ensures var fs := Broadcasts(a, Step.Complete(key, body, now)); Frame.Done(id, body) in fs && Frame.Job(ref) in fs
    ensures ref.id == id && ref.state == JobState.Done && ref.finished == Some(now)
    ensures ref.status == Some(body.status) && ref.generation == body.generation && ref.revision == body.revision
    ensures id in a.jobs && ref.flakelet == a.jobs[id].flakelet == key.flakelet
    ensures ref.who == a.jobs[id].who && ref.created == a.jobs[id].created
  {
    hide Inv, Apply, Saves, SaveFrames;
    CompleteEnds(a, key, body, now, id);
    assert LiveOk(a) by { AllLive(a); }
    LiveRunOk(a, key);
    RunIds(a, key);
    var jobs := Completed(a, key, body, now).jobs;
    ref := Summary(id, jobs[id]);
    SaveIsTold(jobs, a.live[key].ids, Some(body), id);
  }

  lemma AllLive(a: Agent)
    requires Inv(a)
    ensures LiveOk(a)
  {
  }

  /** When its unit starts, a job is told to be running. */
  lemma LaunchIsTold(a: Agent, key: RunKey, run: Run, id: Id) returns (ref: JobRef)
    requires Inv(a) && Enabled(a, Step.Launch(key, run)) && id in a.live[key].ids
    ensures Frame.Job(ref) in Broadcasts(a, Step.Launch(key, run))
    ensures ref.id == id && ref.state == JobState.Running && ref.status.None?
    ensures id in a.jobs && ref.flakelet == key.flakelet && ref.who == a.jobs[id].who
    ensures ref.created == a.jobs[id].created && ref.finished == a.jobs[id].finished
    ensures Launched(a, key, run).jobs[id] == a.jobs[id].(state := JobState.Running, run := Some(run))
  {
    hide Apply, Saves, SaveFrames, SlotsOk, Covered, HistoryOk, DiskMatches, Numbered, Capped;
    LiveRunOk(a, key);
    RunIds(a, key);
    hide RunOk;
    assert JobOk(a.jobs[id]) && a.jobs[id].state == JobState.Pending by { WaitsForUnit(a, key, id); }
    var jobs := Launched(a, key, run).jobs;
    ref := Summary(id, jobs[id]);
    SaveIsTold(jobs, a.live[key].ids, None, id);
  }

  lemma WaitsForUnit(a: Agent, key: RunKey, id: Id)
    requires Inv(a) && key in a.live && a.live[key].run.None? && id in a.live[key].ids
    ensures id in a.jobs && a.jobs[id].state == JobState.Pending && JobOk(a.jobs[id])
  {
    hide SlotsOk, Covered, HistoryOk, DiskMatches, JobOk;
    LiveRunOk(a, key);
  }

  /** When it is added, to be waiting. */
  lemma StartIsTold(a: Agent, id: Id, flakelet: string, who: Caller, now: nat)
    requires Adds(a, id, flakelet)
    ensures var b := Started(a, id, flakelet, who, now);
      && id in b.jobs
      && Broadcasts(a, Step.Start(id, flakelet, who, now)) ==
           [Frame.Job(JobRef(id, flakelet, JobState.Pending, who, now, None, None, None, None))]
  {
  }

  // ----- switches that did not go through the agent -----

  /** What a foreign switch leaves: a finished job of its own, unless the switch was
      the agent's or is known. */
  lemma SwitchIsRecorded(a: Agent, own: Option<Id>, id: Id, flakelet: string, at: nat, who: Caller, body: DoneBody)
    ensures var b := Do(a, Step.Local(own, id, flakelet, at, who, body));
      if (own.Some? && own.value in a.jobs) || id in a.jobs then b == a
      else id in b.jobs && Meets(b.jobs[id], Ended(body, at)) && Meets(b.jobs[id], Asked(flakelet, who, at))
           && b.jobs[id].logs == [] && b.jobs == a.jobs[id := b.jobs[id]]
  {
  }

  // ----- switches that did not go through the agent -----

  /** A job that records a switch of a flakelet's generation. */
  predicate IsSwitch(j: Job, named: Named, c: Jobs.Change) {
    && j.flakelet == named.name && j.state == JobState.Done && j.who == c.who && j.logs == []
    && j.created == c.at && j.finished == Some(c.at) && j.done.Some?
    && j.done.value.status == (if c.rollback then Status.RolledBack else Status.Updated)
    && j.done.value.generation == Some(c.generation) && j.done.value.revision == named.revision
    && j.done.value.tail == []
  }

  lemma OneSwitch(a: Agent, named: Named, c: Jobs.Change)
    ensures var b := Do(a, Step.Local(c.own, c.id, named.name, c.at, c.who, Jobs.Outcome(named, c)));
      if (c.own.Some? && c.own.value in a.jobs) || c.id in a.jobs then b == a
      else c.id in b.jobs && IsSwitch(b.jobs[c.id], named, c) && b.jobs == a.jobs[c.id := b.jobs[c.id]]
  {
  }

  /** The reports changed no job, left none of the switches out, and added nothing
      else. */
  ghost predicate Noticed(jobs: map<Id, Job>, after: map<Id, Job>, reports: seq<Jobs.Report>) {
    && (forall id | id in jobs :: id in after && after[id] == jobs[id])
    && (forall r | r in reports && r.change.Some? ::
          r.change.value.id in after || (r.change.value.own.Some? && r.change.value.own.value in after))
    && (forall id | id in after && id !in jobs :: exists r | r in reports ::
          r.change.Some? && r.change.value.id == id && IsSwitch(after[id], r.named, r.change.value))
  }

  lemma NoticedMore(jobs: map<Id, Job>, mid: map<Id, Job>, after: map<Id, Job>, reports: seq<Jobs.Report>,
                    r: Jobs.Report)
    requires Noticed(jobs, mid, reports)
    requires if r.change.None? then after == mid else
      var c := r.change.value;
      if (c.own.Some? && c.own.value in mid) || c.id in mid then after == mid
      else c.id in after && IsSwitch(after[c.id], r.named, c) && after == mid[c.id := after[c.id]]
    ensures Noticed(jobs, after, reports + [r])
  {
    hide IsSwitch;
    var all := reports + [r];
    assert r in all && forall x | x in reports :: x in all;
    forall id | id in after && id !in jobs
      ensures exists x | x in all ::
        x.change.Some? && x.change.value.id == id && IsSwitch(after[id], x.named, x.change.value)
    {
      if id in mid {
        var x :| x in reports && x.change.Some? && x.change.value.id == id &&
          IsSwitch(mid[id], x.named, x.change.value);
        assert x in all;
      }
    }
  }

  lemma NoneNoticed(jobs: map<Id, Job>)
    ensures Noticed(jobs, jobs, [])
  {
  }

  /** Looking at the host's flakelets records each switch that others made as what
      it was, with the generation and revision it led to, and does nothing else to
      the jobs. */
  lemma {:induction false} SwitchesAreRecorded(a: Agent, reports: seq<Jobs.Report>)
    ensures Noticed(a.jobs, Jobs.AfterAll(a, Jobs.Switches(reports)).jobs, reports)
  {
    hide Noticed, IsSwitch, Do;
    if reports == [] {
      Jobs.NothingSeen(a);
      NoneNoticed(a.jobs);
    } else {
      var k := |reports| - 1;
      var front, r := reports[..k], reports[k];
      assert reports == front + [r] && reports[..k + 1] == reports;
      SwitchesAreRecorded(a, front);
      Jobs.OneReportMore(a, reports, k);
      hide Jobs.AfterAll, Jobs.Switches, Jobs.Outcome;
      var mid := Jobs.AfterAll(a, Jobs.Switches(front));
      if r.change.Some? { OneSwitch(mid, r.named, r.change.value); }
      NoticedMore(a.jobs, mid.jobs, Jobs.AfterAll(a, Jobs.Switches(reports)).jobs, front, r);
    }
  }
}
