/** What the relays know of an agent's jobs: the frames it broadcasts keep their
    list of deploys up to date (src/agent/jobs.rs, src/relay/state.rs). */
module JobNews {
  import opened Wrappers
  import opened Proto
  import opened JobTable
  import opened JobInvariants
  import Registry
  import Sorting

  /** The entry of a job in a list of deploys. */
  predicate Shows(r: JobRef, id: Id, j: Job) {
    && r.id == id && r.flakelet == j.flakelet && r.state == j.state && r.who == j.who
    && r.created == j.created && r.finished == j.finished
    && match j.done
       case None => r.status.None? && r.generation.None? && r.revision.None?
       case Some(body) =>
         r.status == Some(body.status) && r.generation == body.generation && r.revision == body.revision
  }

  /** Every job of the agent that is listed is listed as it is, and those that are
      not are finished. */
  predicate Current(list: map<Id, JobRef>, jobs: map<Id, Job>) {
    forall id | id in jobs :: if id in list then Shows(list[id], id, jobs[id]) else jobs[id].state == JobState.Done
  }

  /** The list after some frames: each report of a job replaces the one before. */
  function Listed(list: map<Id, JobRef>, fs: seq<Frame>): map<Id, JobRef> {
    if fs == [] then list else
    var front, f := Listed(list, fs[..|fs| - 1]), fs[|fs| - 1];
    if f.Job? then front[f.job.id := f.job] else front
  }

  lemma ListedMore(list: map<Id, JobRef>, fs: seq<Frame>, f: Frame)
    ensures Listed(list, fs + [f]) ==
      if f.Job? then Listed(list, fs)[f.job.id := f.job] else Listed(list, fs)
  {
    assert (fs + [f])[..|fs|] == fs;
  }

  lemma {:induction false} ListedJoined(list: map<Id, JobRef>, fs: seq<Frame>, more: seq<Frame>)
    ensures Listed(list, fs + more) == Listed(Listed(list, fs), more)
  {
    if more == [] {
      assert fs + more == fs;
    } else {
      var front, f := more[..|more| - 1], more[|more| - 1];
      ListedJoined(list, fs, front);
      ListedMore(list, fs + front, f);
      assert fs + more == fs + front + [f];
    }
  }

  lemma ListedOne(list: map<Id, JobRef>, f: Frame)
    ensures Listed(list, [f]) == if f.Job? then list[f.job.id := f.job] else list
  {
    ListedMore(list, [], f);
    assert [] + [f] == [f];
  }

  lemma SummaryShows(id: Id, j: Job)
    ensures Shows(Summary(id, j), id, j) && Summary(id, j).id == id
    ensures Shows(Summary(id, Strip(j)), id, j)
  {
  }

  lemma {:induction false} SavesListed(list: map<Id, JobRef>, jobs: map<Id, Job>, ids: seq<Id>, done: Option<DoneBody>)
    ensures var after := Listed(list, SaveFrames(jobs, ids, done));
      && (forall id | id in jobs && id in ids :: id in after && Shows(after[id], id, jobs[id]))
      && (forall id | !(id in jobs && id in ids) ::
            if id in list then id in after && after[id] == list[id] else id !in after)
  {
    hide Shows, Summary;
    if ids != [] {
      var front, last := ids[..|ids| - 1], ids[|ids| - 1];
      assert ids == front + [last];
      SavesListed(list, jobs, front, done);
      var before := SaveFrames(jobs, front, done);
      var ended := if done.Some? then [Frame.Done(last, done.value)] else [];
      var told := if last in jobs then [Frame.Job(Summary(last, jobs[last]))] else [];
      assert SaveFrames(jobs, ids, done) == before + ended + told;
      hide SaveFrames;
      if done.Some? { ListedMore(list, before, ended[0]); } else { assert before + ended == before; }
      if last in jobs {
        SummaryShows(last, jobs[last]);
        ListedMore(list, before + ended, told[0]);
      } else {
        assert before + ended + told == before + ended;
      }
    }
  }

  lemma {:induction false} LinesListed(list: map<Id, JobRef>, jobs: map<Id, Job>, ids: seq<Id>, number: nat,
                                       line: string)
    ensures Listed(list, LineFrames(jobs, ids, number, line)) == list
  {
    hide Length;
    if ids != [] {
      var front := LineFrames(jobs, ids[..|ids| - 1], number, line);
      LinesListed(list, jobs, ids[..|ids| - 1], number, line);
      var all := LineFrames(jobs, ids, number, line);
      if |all| > |front| { ListedMore(list, front, all[|front|]); } else { assert all == front; }
    }
  }

  lemma {:induction false} StripsListed(list: map<Id, JobRef>, jobs: map<Id, Job>, now: nat, r: Retention,
                                        order: seq<Id>, k: nat)
    requires Current(list, jobs) && k <= |order|
    ensures Current(Listed(list, PruneFrames(jobs, now, r, order, k)), jobs)
  {
    hide Shows, Summary, Strip, Stale, Drops;
    if k > 0 {
      StripsListed(list, jobs, now, r, order, k - 1);
      var front, all := PruneFrames(jobs, now, r, order, k - 1), PruneFrames(jobs, now, r, order, k);
      if |all| > |front| {
        SummaryShows(order[k - 1], jobs[order[k - 1]]);
        ListedMore(list, front, all[|front|]);
      } else {
        assert all == front;
      }
    }
  }

  lemma LineShows(j: Job, number: nat, line: string)
    ensures forall r, id | Shows(r, id, j) :: Shows(r, id, RecordLine(j, number, line))
    ensures RecordLine(j, number, line).state == j.state
  {
  }

  lemma KeptShows(list: map<Id, JobRef>, jobs: map<Id, Job>, now: nat, r: Retention, order: seq<Id>)
    requires Current(list, jobs)
    ensures Current(list, Kept(jobs, now, r, order))
  {
    hide Gone, Stale;
  }

  lemma NewIsTold(list: map<Id, JobRef>, jobs: map<Id, Job>, id: Id, j: Job)
    requires Current(list, jobs)
    ensures Current(list[id := Summary(id, j)], jobs[id := j])
  {
    hide Shows, Summary;
    SummaryShows(id, j);
  }

  lemma LinesAreTold(list: map<Id, JobRef>, jobs: map<Id, Job>, ids: seq<Id>, number: nat, line: string)
    requires Current(list, jobs)
    ensures Current(list, AllLogged(jobs, ids, number, line))
  {
    hide Shows, RecordLine;
    forall id | id in jobs { LineShows(jobs[id], number, line); }
  }

  lemma SavedIsTold(list: map<Id, JobRef>, was: map<Id, Job>, jobs: map<Id, Job>, ids: seq<Id>,
                    done: Option<DoneBody>)
    requires Current(list, was) && jobs.Keys == was.Keys && forall id | id in jobs && id !in ids :: jobs[id] == was[id]
    ensures Current(Listed(list, SaveFrames(jobs, ids, done)), jobs)
  {
    hide Shows, Listed, SaveFrames;
    SavesListed(list, jobs, ids, done);
  }

  lemma TwiceListed(list: map<Id, JobRef>, f: Frame)
    requires f.Job?
    ensures Listed(list, [f, f]) == list[f.job.id := f.job]
  {
    ListedOne(list, f);
    ListedMore(list, [f], f);
    assert [f] + [f] == [f, f];
  }

  /** Whatever a step does to a job, the relays that were up to date are so again
      once they heard it. */
  lemma StepIsTold(a: Agent, s: Step, list: map<Id, JobRef>)
    requires Enabled(a, s) && Current(list, a.jobs)
    ensures Current(Listed(list, Broadcasts(a, s)), Do(a, s).jobs)
  {
    hide Shows, Summary, Listed, SaveFrames, LineFrames, Current, PruneFrames, RecordLine, Kept;
    hide Apply, Saves, PruneWrites, NewJob, LocalJob, MarkRunning, MarkDone;
    NothingListed(list);
    match s {
      case Start(id, f, who, now) =>
        var j := NewJob(f, who, now);
        SummaryShows(id, j);
        ListedOne(list, Frame.Job(Summary(id, j)));
        NewIsTold(list, a.jobs, id, j);
      case Launch(key, run) => SavedIsTold(list, a.jobs, MarkedRunning(a, key, run), a.live[key].ids, None);
      case Line(key, line) =>
        LinesListed(list, a.jobs, a.live[key].ids, a.live[key].lines + 1, line);
        LinesAreTold(list, a.jobs, a.live[key].ids, a.live[key].lines + 1, line);
      case Complete(key, body, now) =>
        SavedIsTold(list, a.jobs, MarkedDone(a, key, body, now), a.live[key].ids, Some(body));
      case Prune(now, r, order) =>
        StripsListed(list, a.jobs, now, r, order, |order|);
        KeptShows(Listed(list, PruneFrames(a.jobs, now, r, order, |order|)), a.jobs, now, r, order);
      case Local(own, id, f, at, who, body) =>
        TwiceListed(list, Frame.Job(Summary(id, LocalJob(f, at, who, body))));
        SummaryShows(id, LocalJob(f, at, who, body));
        NewIsTold(list, a.jobs, id, LocalJob(f, at, who, body));
      case Refresh(_) =>
    }
  }

  lemma NothingListed(list: map<Id, JobRef>)
    ensures Listed(list, []) == list
  {
  }

  // ----- what is advertised -----

  /** All jobs, each once, the newest first. Which of two of the same age is first
      is left open. */
  ghost predicate NewestFirst(jobs: map<Id, Job>, order: seq<Id>) {
    && (forall i | 0 <= i < |order| :: order[i] in jobs)
    && (forall id | id in jobs :: id in order)
    && (forall i, j | 0 <= i < j < |order| :: order[i] != order[j] && jobs[order[i]].created >= jobs[order[j]].created)
  }

  const ADVERTISE := 50

  function Count(jobs: map<Id, Job>, order: seq<Id>, flakelet: string): nat
    requires forall i | 0 <= i < |order| :: order[i] in jobs
  {
    if order == [] then 0 else
    Count(jobs, order[..|order| - 1], flakelet) + if jobs[order[|order| - 1]].flakelet == flakelet then 1 else 0
  }

  /** Of each flakelet the newest few, and whatever is not finished. */
  function RefsOf(jobs: map<Id, Job>, order: seq<Id>): seq<JobRef>
    requires forall i | 0 <= i < |order| :: order[i] in jobs
  {
    if order == [] then [] else
    var front, id := order[..|order| - 1], order[|order| - 1];
    RefsOf(jobs, front) +
    if Count(jobs, front, jobs[id].flakelet) < ADVERTISE || !jobs[id].state.Done? then [Summary(id, jobs[id])] else []
  }

  predicate NotOlder(a: (nat, Id), b: (nat, Id)) {
    a.0 >= b.0
  }

  /** All jobs but some, each once, with their age. */
  ghost predicate Gathered(jobs: map<Id, Job>, rest: set<Id>, all: seq<(nat, Id)>) {
    && (forall id | id in jobs && id !in rest :: (jobs[id].created, id) in all)
    && (forall x | x in all :: x.1 in jobs && x.1 !in rest && x.0 == jobs[x.1].created)
    && (forall i, j | 0 <= i < j < |all| :: all[i] != all[j])
  }

  lemma GatheredMore(jobs: map<Id, Job>, rest: set<Id>, all: seq<(nat, Id)>, id: Id)
    requires Gathered(jobs, rest, all) && id in rest && id in jobs
    ensures Gathered(jobs, rest - {id}, all + [(jobs[id].created, id)])
  {
    var x, more := (jobs[id].created, id), all + [(jobs[id].created, id)];
    assert x !in all && x in more && forall y | y in all :: y in more;
  }

  lemma SortedAre(jobs: map<Id, Job>, all: seq<(nat, Id)>, sorted: seq<(nat, Id)>)
    requires Gathered(jobs, {}, all) && multiset(sorted) == multiset(all)
    ensures forall i | 0 <= i < |sorted| :: sorted[i].1 in jobs && sorted[i].0 == jobs[sorted[i].1].created
    ensures forall id | id in jobs :: (jobs[id].created, id) in sorted
    ensures forall i, j | 0 <= i < j < |sorted| :: sorted[i].1 != sorted[j].1
  {
    Sorting.SameMembers(sorted, all);
    Sorting.StillDistinct(all, sorted);
    forall i | 0 <= i < |sorted| ensures sorted[i].1 in jobs && sorted[i].0 == jobs[sorted[i].1].created {
      assert sorted[i] in all;
    }
  }

  lemma InOrder(jobs: map<Id, Job>, all: seq<(nat, Id)>, sorted: seq<(nat, Id)>)
    requires Gathered(jobs, {}, all) && Sorting.Sorted(sorted, NotOlder) && multiset(sorted) == multiset(all)
    ensures NewestFirst(jobs, seq(|sorted|, k requires 0 <= k < |sorted| => sorted[k].1))
  {
    hide Gathered;
    SortedAre(jobs, all, sorted);
    var order := seq(|sorted|, k requires 0 <= k < |sorted| => sorted[k].1);
    forall id | id in jobs ensures id in order {
      var i :| 0 <= i < |sorted| && sorted[i] == (jobs[id].created, id);
      assert order[i] == id;
    }
    forall i, j | 0 <= i < j < |order| ensures jobs[order[i]].created >= jobs[order[j]].created {
      assert NotOlder(sorted[i], sorted[j]);
    }
  }

  /** What an agent advertises when it connects. */
  method Refs(jobs: map<Id, Job>) returns (refs: seq<JobRef>, ghost order: seq<Id>)
    ensures NewestFirst(jobs, order) && refs == RefsOf(jobs, order)
  {
    hide Count, RefsOf, Summary, NewestFirst;
    var rest := jobs.Keys;
    var all: seq<(nat, Id)> := [];
    while rest != {}
      invariant rest <= jobs.Keys && Gathered(jobs, rest, all)
      decreases |rest|
    {
      var id :| id in rest;
      GatheredMore(jobs, rest, all, id);
      all := all + [(jobs[id].created, id)];
      rest := rest - {id};
    }
    assert Sorting.Orders(NotOlder) by { AgesOrder(); }
    var sorted := Sorting.Sort(all, NotOlder);
    InOrder(jobs, all, sorted);
    var ids := seq(|sorted|, k requires 0 <= k < |sorted| => sorted[k].1);
    order := ids;
    assert forall i | 0 <= i < |ids| :: ids[i] in jobs by { OrderIsOfJobs(jobs, ids); }
    var per: map<string, nat> := map[];
    refs := [];
    NothingCounted(jobs);
    for k := 0 to |ids|
      invariant refs == RefsOf(jobs, ids[..k])
      invariant forall f :: (if f in per then per[f] else 0) == Count(jobs, ids[..k], f)
    {
      var j := jobs[ids[k]];
      OneCounted(jobs, ids, k);
      var n := if j.flakelet in per then per[j.flakelet] else 0;
      per := per[j.flakelet := n + 1];
      if n + 1 <= ADVERTISE || !j.state.Done? { refs := refs + [Summary(ids[k], j)]; }
    }
    assert ids[..|ids|] == ids;
  }

  lemma AgesOrder()
    ensures Sorting.Orders(NotOlder)
  {
  }

  lemma OrderIsOfJobs(jobs: map<Id, Job>, order: seq<Id>)
    requires NewestFirst(jobs, order)
    ensures forall i | 0 <= i < |order| :: order[i] in jobs
  {
  }

  lemma NothingCounted(jobs: map<Id, Job>)
    ensures RefsOf(jobs, []) == [] && forall f :: Count(jobs, [], f) == 0
  {
  }

  lemma OneCounted(jobs: map<Id, Job>, order: seq<Id>, k: nat)
    requires k < |order| && forall i | 0 <= i < |order| :: order[i] in jobs
    ensures var id, f := order[k], jobs[order[k]].flakelet;
      && RefsOf(jobs, order[..k + 1]) == RefsOf(jobs, order[..k]) +
           (if Count(jobs, order[..k], f) < ADVERTISE || !jobs[id].state.Done? then [Summary(id, jobs[id])] else [])
      && forall g :: Count(jobs, order[..k + 1], g) == Count(jobs, order[..k], g) + if g == f then 1 else 0
  {
    hide Summary;
    assert order[..k + 1][..k] == order[..k];
  }

  /** The jobs of a flakelet among some. */
  ghost function OfFlakelet(jobs: map<Id, Job>, order: seq<Id>, flakelet: string): set<Id> {
    set id | id in order && id in jobs && jobs[id].flakelet == flakelet
  }

  lemma {:induction false} CountIs(jobs: map<Id, Job>, order: seq<Id>, flakelet: string)
    requires forall i | 0 <= i < |order| :: order[i] in jobs
    requires forall i, j | 0 <= i < j < |order| :: order[i] != order[j]
    ensures Count(jobs, order, flakelet) == |OfFlakelet(jobs, order, flakelet)|
  {
    if order == [] {
      assert OfFlakelet(jobs, order, flakelet) == {};
    } else {
      var front, id := order[..|order| - 1], order[|order| - 1];
      assert order == front + [id];
      CountIs(jobs, front, flakelet);
      var before := OfFlakelet(jobs, front, flakelet);
      assert id !in before;
      assert OfFlakelet(jobs, order, flakelet) == before + if jobs[id].flakelet == flakelet then {id} else {};
    }
  }

  /** Other jobs of the same flakelet that are no older. */
  predicate NoOlder(jobs: map<Id, Job>, others: set<Id>, id: Id)
    requires id in jobs
  {
    forall x | x in others ::
      x != id && x in jobs && jobs[x].flakelet == jobs[id].flakelet && jobs[x].created >= jobs[id].created
  }

  /** What is advertised is so, and a job is left out only if it is finished and 50
      others of its flakelet are no older. */
  lemma {:induction false} AdvertisedAre(jobs: map<Id, Job>, order: seq<Id>)
    requires forall i | 0 <= i < |order| :: order[i] in jobs
    requires forall i, j | 0 <= i < j < |order| ::
      order[i] != order[j] && jobs[order[i]].created >= jobs[order[j]].created
    ensures forall r | r in RefsOf(jobs, order) :: r.id in order && Shows(r, r.id, jobs[r.id])
    ensures forall id | id in order && (forall r | r in RefsOf(jobs, order) :: r.id != id) ::
      && jobs[id].state == JobState.Done
      && exists others :: |others| == 50 && NoOlder(jobs, others, id)
  {
    hide Shows, Summary, Count;
    if order != [] {
      var front, id := order[..|order| - 1], order[|order| - 1];
      assert order == front + [id];
      AdvertisedAre(jobs, front);
      SummaryShows(id, jobs[id]);
      var refs, all := RefsOf(jobs, front), RefsOf(jobs, order);
      if Count(jobs, front, jobs[id].flakelet) < ADVERTISE || !jobs[id].state.Done? {
        assert all == refs + [Summary(id, jobs[id])] && Summary(id, jobs[id]) in all;
      } else {
        assert all == refs;
        var others := FiftyOthers(jobs, front, id);
      }
    }
  }

  lemma FiftyOthers(jobs: map<Id, Job>, front: seq<Id>, id: Id) returns (others: set<Id>)
    requires id in jobs && id !in front && forall i | 0 <= i < |front| :: front[i] in jobs
    requires forall i, j | 0 <= i < j < |front| :: front[i] != front[j]
    requires forall i | 0 <= i < |front| :: jobs[front[i]].created >= jobs[id].created
    requires Count(jobs, front, jobs[id].flakelet) >= 50
    ensures |others| == 50 && NoOlder(jobs, others, id)
  {
    hide Count;
    CountIs(jobs, front, jobs[id].flakelet);
    others := OfFlakelet(jobs, front, jobs[id].flakelet);
    while |others| > 50
      invariant |others| >= 50 && others <= OfFlakelet(jobs, front, jobs[id].flakelet)
      decreases |others|
    {
      var x :| x in others;
      others := others - {x};
    }
    forall x | x in others ensures jobs[x].created >= jobs[id].created {
      var i :| 0 <= i < |front| && front[i] == x;
    }
  }

  /** The relay keeps the jobs of a hello by their ids. */
  function ById(refs: seq<JobRef>): map<Id, JobRef> {
    if refs == [] then map[] else ById(refs[..|refs| - 1])[refs[|refs| - 1].id := refs[|refs| - 1]]
  }

  lemma {:induction false} ByIdAre(refs: seq<JobRef>)
    ensures forall id | id in ById(refs) :: ById(refs)[id] in refs && ById(refs)[id].id == id
    ensures forall r | r in refs :: r.id in ById(refs)
  {
    if refs != [] {
      var front, r := refs[..|refs| - 1], refs[|refs| - 1];
      assert refs == front + [r];
      ByIdAre(front);
    }
  }

  lemma AdvertisedIsCurrent(jobs: map<Id, Job>, order: seq<Id>)
    requires NewestFirst(jobs, order)
    ensures Current(ById(RefsOf(jobs, order)), jobs)
  {
    hide Shows, RefsOf, ById;
    AdvertisedAre(jobs, order);
    var refs := RefsOf(jobs, order);
    ByIdAre(refs);
    var list := ById(refs);
    forall id | id in jobs
      ensures if id in list then Shows(list[id], id, jobs[id]) else jobs[id].state == JobState.Done
    {
      assert id in order;
    }
  }

  // ----- at the relay -----

  /** What a relay does with the frames of a connection: it records each job. */
  function Records(fs: seq<Frame>): seq<Registry.Op> {
    if fs == [] then [] else
    var f := fs[|fs| - 1];
    Records(fs[..|fs| - 1]) + if f.Job? then [Registry.RecordJob(0, f.job)] else []
  }

  /** Its entry of the agent then lists the jobs as they are. */
  lemma {:induction false} RelayLists(e: Registry.Entry, fs: seq<Frame>)
    ensures Registry.AllOwn(e, Records(fs)).jobs == Listed(e.jobs, fs)
  {
    hide Registry.AllOwn, Registry.Own, Listed;
    if fs == [] {
      NothingListed(e.jobs);
      NothingDone(e);
    } else {
      var front, f := fs[..|fs| - 1], fs[|fs| - 1];
      assert fs == front + [f];
      RelayLists(e, front);
      ListedMore(e.jobs, front, f);
      if f.Job? {
        OneMoreDone(e, Records(front), f.job);
      } else {
        assert Records(front) + [] == Records(front);
      }
    }
  }

  lemma NothingDone(e: Registry.Entry)
    ensures Registry.AllOwn(e, []) == e
  {
  }

  lemma OneMoreDone(e: Registry.Entry, ops: seq<Registry.Op>, job: JobRef)
    ensures Registry.AllOwn(e, ops + [Registry.RecordJob(0, job)]).jobs == Registry.AllOwn(e, ops).jobs[job.id := job]
  {
    hide Registry.UpToDate;
    assert (ops + [Registry.RecordJob(0, job)])[..|ops|] == ops;
  }

  /** The steps can be taken one after the other. */
  ghost predicate Takes(a: Agent, steps: seq<Step>, b: Agent)
    decreases |steps|
  {
    if steps == [] then a == b else Enabled(a, steps[0]) && Takes(Do(a, steps[0]), steps[1..], b)
  }

  ghost function AllBroadcasts(a: Agent, steps: seq<Step>, b: Agent): seq<Frame>
    requires Takes(a, steps, b)
    decreases |steps|
  {
    if steps == [] then [] else Broadcasts(a, steps[0]) + AllBroadcasts(Do(a, steps[0]), steps[1..], b)
  }

  lemma {:induction false} RunIsTold(a: Agent, steps: seq<Step>, b: Agent, list: map<Id, JobRef>)
    requires Takes(a, steps, b) && Current(list, a.jobs)
    ensures Current(Listed(list, AllBroadcasts(a, steps, b)), b.jobs)
    decreases |steps|
  {
    hide Enabled, Do, Broadcasts, Current, Listed;
    if steps == [] {
      NothingListed(list);
    } else {
      var told, next := Broadcasts(a, steps[0]), Do(a, steps[0]);
      StepIsTold(a, steps[0], list);
      RunIsTold(next, steps[1..], b, Listed(list, told));
      ListedJoined(list, told, AllBroadcasts(next, steps[1..], b));
    }
  }

  /** A relay that hears what an agent advertises when it connects, and all it says
      from then on, lists jobs as they are: who asked for them, their state, when
      they ended and with what. No job that is not finished is left out. */
  lemma RelayIsCurrent(a: Agent, steps: seq<Step>, b: Agent, order: seq<Id>, conn: nat, hello: Registry.Hello, now: nat)
    requires Takes(a, steps, b) && NewestFirst(a.jobs, order) && hello.jobs == ById(RefsOf(a.jobs, order))
    ensures var e := Registry.AllOwn(Registry.Fresh(conn, hello, now), Records(AllBroadcasts(a, steps, b)));
      Current(e.jobs, b.jobs)
  {
    hide Takes, AllBroadcasts, Current, Records, Registry.AllOwn, Listed, NewestFirst, ById, RefsOf;
    AdvertisedIsCurrent(a.jobs, order);
    RunIsTold(a, steps, b, hello.jobs);
    RelayLists(Registry.Fresh(conn, hello, now), AllBroadcasts(a, steps, b));
  }
}
