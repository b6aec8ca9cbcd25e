/** The relay's record of connected agents and of who waits for which job
    (src/relay/state.rs, src/relay/agent_conn.rs). */
module Registry {
  import opened Wrappers
  import opened Proto

  /** Nanoseconds. An agent heard from this recently is alive. */
  const ALIVE := 45_000_000_000

  datatype Hello = Hello(flakelets: seq<Named>, jobs: map<Id, JobRef>)

  datatype Entry = Entry(conn: nat, flakelets: seq<Named>, jobs: map<Id, JobRef>, lastSeen: nat)

  /** What a connection of a host does to the registry. */
  datatype Op =
    | Register(conn: nat, hello: Hello, now: nat)
    | Unregister(conn: nat)
    | Seen(conn: nat, now: nat)
    | RecordFlakelets(conn: nat, flakelets: seq<Named>)
    | RecordJob(conn: nat, job: JobRef)

  // ----- one entry -----

  function Fresh(conn: nat, hello: Hello, now: nat): Entry {
    Entry(conn, hello.flakelets, hello.jobs, now)
  }

  function Runs(f: Named, job: JobRef): Named {
    f.(generation := if job.generation.Some? then job.generation else f.generation,
       revision := if job.revision.Some? then job.revision else f.revision)
  }

  /** What the flakelets run once a job is done: the first of that name is
      brought up to date. */
  function UpToDate(flakelets: seq<Named>, job: JobRef): seq<Named> {
    if flakelets == [] then []
    else if flakelets[0].name == job.flakelet then [Runs(flakelets[0], job)] + flakelets[1..]
    else [flakelets[0]] + UpToDate(flakelets[1..], job)
  }

  /** An op of the entry's own connection. */
  function Own(e: Entry, op: Op): Entry {
    match op
    case Seen(_, now) => e.(lastSeen := now)
    case RecordFlakelets(_, flakelets) => e.(flakelets := flakelets)
    case RecordJob(_, job) =>
      e.(flakelets := if job.state.Done? then UpToDate(e.flakelets, job) else e.flakelets,
         jobs := e.jobs[job.id := job])
    case _ => e
  }

  function AllOwn(e: Entry, ops: seq<Op>): Entry {
    if ops == [] then e else Own(AllOwn(e, ops[..|ops| - 1]), ops[|ops| - 1])
  }

  // ----- the registry -----

  predicate Accepts(agents: map<string, Entry>, host: string, now: nat) {
    host !in agents || now - agents[host].lastSeen >= ALIVE
  }

  function Next(agents: map<string, Entry>, host: string, op: Op): map<string, Entry> {
    match op
    case Register(conn, hello, now) =>
      if Accepts(agents, host, now) then agents[host := Fresh(conn, hello, now)] else agents
    case Unregister(conn) =>
      if host in agents && agents[host].conn == conn then agents - {host} else agents
    case _ =>
      if host in agents && agents[host].conn == op.conn then agents[host := Own(agents[host], op)] else agents
  }

  type Trace = seq<(string, Op)>

  function After(t: Trace): map<string, Entry> {
    if t == [] then map[] else Next(After(t[..|t| - 1]), t[|t| - 1].0, t[|t| - 1].1)
  }

  lemma AfterMore(t: Trace, x: (string, Op))
    ensures After(t + [x]) == Next(After(t), x.0, x.1)
  {
    assert (t + [x])[..|t|] == t;
  }

  /** The reports of one connection, in order. */
  function Reports(t: Trace, host: string, conn: nat): seq<Op> {
    if t == [] then [] else
    var (h, op) := t[|t| - 1];
    Reports(t[..|t| - 1], host, conn) +
    if h == host && op.conn == conn && !op.Register? && !op.Unregister? then [op] else []
  }

  lemma ReportsMore(t: Trace, x: (string, Op), host: string, conn: nat)
    ensures Reports(t + [x], host, conn) == Reports(t, host, conn) +
      if x.0 == host && x.1.conn == conn && !x.1.Register? && !x.1.Unregister? then [x.1] else []
  {
    assert (t + [x])[..|t|] == t;
  }

  lemma AllOwnMore(e: Entry, ops: seq<Op>, op: Op)
    ensures AllOwn(e, ops + [op]) == Own(AllOwn(e, ops), op)
  {
    assert (ops + [op])[..|ops|] == ops;
  }

  lemma {:induction false} AllOwnConn(e: Entry, ops: seq<Op>)
    ensures AllOwn(e, ops).conn == e.conn
  {
    if ops != [] { AllOwnConn(e, ops[..|ops| - 1]); }
  }

  // ----- every interleaving of connections -----

  /** The `r`-th op registered the host's present connection, and what the relay
      knows is that connection's hello overwritten by its own reports since, in
      order. */
  ghost predicate RegisteredAt(t: Trace, host: string, r: nat) {
    && r < |t| && t[r].0 == host && t[r].1.Register?
    && Accepts(After(t[..r]), host, t[r].1.now)
    && host in After(t)
    && var op := t[r].1;
    After(t)[host] == AllOwn(Fresh(op.conn, op.hello, op.now), Reports(t[r + 1..], host, op.conn))
  }

  /** However old and new connections of a host are interleaved, the entry is
      the registered connection's hello overwritten by its own reports. */
  lemma {:induction false} EntryIsRegistered(t: Trace, host: string) returns (r: nat)
    requires host in After(t)
    ensures RegisteredAt(t, host, r)
  {
    var front, x := t[..|t| - 1], t[|t| - 1];
    assert t == front + [x];
    AfterMore(front, x);
    if x.0 == host && x.1.Register? && Accepts(After(front), host, x.1.now) {
      r := |front|;
      assert t[r + 1..] == [];
    } else {
      r := EntryIsRegistered(front, host);
      ReportedMore(front, x, host, r);
    }
  }

  lemma ReportedMore(t: Trace, x: (string, Op), host: string, r: nat)
    requires RegisteredAt(t, host, r) && host in After(t + [x])
    requires !(x.0 == host && x.1.Register? && Accepts(After(t), host, x.1.now))
    ensures RegisteredAt(t + [x], host, r)
  {
    hide After, Reports, AllOwn, Own, Accepts;
    var op := t[r].1;
    Appended(t, x, r);
    AfterMore(t, x);
    ReportsMore(t[r + 1..], x, host, op.conn);
    var e, ops := Fresh(op.conn, op.hello, op.now), Reports(t[r + 1..], host, op.conn);
    AllOwnConn(e, ops);
    AllOwnMore(e, ops, x.1);
    assert ops + [] == ops;
  }

  lemma Appended(t: Trace, x: (string, Op), r: nat)
    requires r < |t|
    ensures var more := t + [x]; more[..r] == t[..r] && more[r + 1..] == t[r + 1..] + [x] && more[r] == t[r]
  {
  }

  // ----- what an entry says, in terms of the ops -----

  /** The kinds of reports an entry depends on. */
  datatype Kind = AboutJob(id: Id) | Life | List | Generation(name: string) | Revision(name: string)

  predicate Is(x: (string, Op), host: string, conn: nat, kind: Kind) {
    && x.0 == host && x.1.conn == conn
    && match kind
       case AboutJob(id) => x.1.RecordJob? && x.1.job.id == id
       case Life => x.1.Seen?
       case List => x.1.RecordFlakelets?
       case Generation(name) =>
         x.1.RecordJob? && x.1.job.state == JobState.Done && x.1.job.flakelet == name && x.1.job.generation.Some?
       case Revision(name) =>
         x.1.RecordJob? && x.1.job.state == JobState.Done && x.1.job.flakelet == name && x.1.job.revision.Some?
  }

  /** The last report of a kind behind place `from`, and that there is none. */
  ghost predicate LastIs(t: Trace, host: string, conn: nat, kind: Kind, from: nat, i: nat) {
    from < i < |t| && Is(t[i], host, conn, kind) && forall j | i < j < |t| :: !Is(t[j], host, conn, kind)
  }

  ghost predicate NoneIs(t: Trace, host: string, conn: nat, kind: Kind, from: nat) {
    forall j | from < j < |t| :: !Is(t[j], host, conn, kind)
  }

  lemma LastMore(t: Trace, x: (string, Op), host: string, conn: nat, kind: Kind, from: nat)
    requires from < |t|
    ensures NoneIs(t + [x], host, conn, kind, from) <==> NoneIs(t, host, conn, kind, from) && !Is(x, host, conn, kind)
    ensures forall i: nat | i < |t| ::
      LastIs(t + [x], host, conn, kind, from, i) <==> LastIs(t, host, conn, kind, from, i) && !Is(x, host, conn, kind)
    ensures LastIs(t + [x], host, conn, kind, from, |t|) <==> Is(x, host, conn, kind)
  {
    hide Is;
    var more := t + [x];
    assert more[|t|] == x && forall j | 0 <= j < |t| :: more[j] == t[j];
  }

  /** A job is the one last reported under its id, or else the hello's. */
  ghost predicate JobIs(t: Trace, host: string, r: nat, jobs: map<Id, JobRef>, id: Id)
    requires r < |t| && t[r].1.Register?
  {
    var op := t[r].1;
    && (forall i: nat | LastIs(t, host, op.conn, AboutJob(id), r, i) ::
          id in jobs && t[i].1.RecordJob? && jobs[id] == t[i].1.job)
    && (NoneIs(t, host, op.conn, AboutJob(id), r) ==>
          (id in jobs <==> id in op.hello.jobs) && (id in jobs ==> jobs[id] == op.hello.jobs[id]))
  }

  ghost predicate SeenIs(t: Trace, host: string, r: nat, lastSeen: nat)
    requires r < |t| && t[r].1.Register?
  {
    && (forall i: nat | LastIs(t, host, t[r].1.conn, Life, r, i) :: t[i].1.Seen? && lastSeen == t[i].1.now)
    && (NoneIs(t, host, t[r].1.conn, Life, r) ==> lastSeen == t[r].1.now)
  }

  /** The flakelets are those listed at place `b`, the hello's or the last list. The
      first of a name has the generation and the revision last reported by a
      finished job of it since, if any. */
  ghost predicate FlakeletIs(t: Trace, host: string, conn: nat, b: nat, was: Named, f: Named) {
    && f.name == was.name
    && (forall i: nat | LastIs(t, host, conn, Generation(f.name), b, i) ::
          t[i].1.RecordJob? && f.generation == t[i].1.job.generation)
    && (NoneIs(t, host, conn, Generation(f.name), b) ==> f.generation == was.generation)
    && (forall i: nat | LastIs(t, host, conn, Revision(f.name), b, i) ::
          t[i].1.RecordJob? && f.revision == t[i].1.job.revision)
    && (NoneIs(t, host, conn, Revision(f.name), b) ==> f.revision == was.revision)
  }

  predicate FirstOfName(fs: seq<Named>, k: nat)
    requires k < |fs|
  {
    forall j | 0 <= j < k :: fs[j].name != fs[k].name
  }

  ghost predicate ListedAt(t: Trace, host: string, r: nat, b: nat, listed: seq<Named>)
    requires r < |t| && t[r].1.Register?
  {
    if b == r then NoneIs(t, host, t[r].1.conn, List, r) && listed == t[r].1.hello.flakelets
    else LastIs(t, host, t[r].1.conn, List, r, b) && t[b].1.RecordFlakelets? && listed == t[b].1.flakelets
  }

  ghost predicate FlakeletsAre(t: Trace, host: string, conn: nat, b: nat, listed: seq<Named>, fs: seq<Named>) {
    && |fs| == |listed|
    && forall k | 0 <= k < |fs| ::
         if FirstOfName(listed, k) then FlakeletIs(t, host, conn, b, listed[k], fs[k]) else fs[k] == listed[k]
  }

  /** All of it. */
  ghost predicate Says(t: Trace, host: string, r: nat, b: nat, listed: seq<Named>, e: Entry) {
    && r < |t| && t[r].0 == host && t[r].1.Register? && e.conn == t[r].1.conn && r <= b < |t|
    && (forall id :: JobIs(t, host, r, e.jobs, id))
    && SeenIs(t, host, r, e.lastSeen)
    && ListedAt(t, host, r, b, listed) && FlakeletsAre(t, host, e.conn, b, listed, e.flakelets)
  }

  lemma {:induction false} UpToDateAt(fs: seq<Named>, job: JobRef)
    ensures var more := UpToDate(fs, job);
      && |more| == |fs|
      && forall k | 0 <= k < |fs| ::
           more[k] == (if fs[k].name == job.flakelet && FirstOfName(fs, k) then Runs(fs[k], job) else fs[k])
  {
    if fs != [] && fs[0].name != job.flakelet {
      UpToDateAt(fs[1..], job);
      forall k | 0 < k < |fs| && fs[k].name == job.flakelet
        ensures FirstOfName(fs[1..], k - 1) == FirstOfName(fs, k)
      {
        if FirstOfName(fs[1..], k - 1) {
          forall j | 0 <= j < k ensures fs[j].name != fs[k].name {
            if j > 0 { assert fs[1..][j - 1] == fs[j]; }
          }
        }
      }
    }
  }

  lemma JobIsMore(t: Trace, x: (string, Op), host: string, r: nat, jobs: map<Id, JobRef>, more: map<Id, JobRef>, id: Id)
    requires r < |t| && t[r].1.Register? && JobIs(t, host, r, jobs, id)
    requires if Is(x, host, t[r].1.conn, AboutJob(id)) then id in more && more[id] == x.1.job
             else (id in more <==> id in jobs) && (id in more ==> more[id] == jobs[id])
    ensures JobIs(t + [x], host, r, more, id)
  {
    hide LastIs, NoneIs;
    LastMore(t, x, host, t[r].1.conn, AboutJob(id), r);
    LastWithin(t + [x], host, t[r].1.conn, AboutJob(id), r);
  }

  lemma LastWithin(t: Trace, host: string, conn: nat, kind: Kind, from: nat)
    ensures forall i: nat | LastIs(t, host, conn, kind, from, i) :: i < |t| && Is(t[i], host, conn, kind)
  {
    hide Is;
  }

  lemma SeenIsMore(t: Trace, x: (string, Op), host: string, r: nat, was: nat, now: nat)
    requires r < |t| && t[r].1.Register? && SeenIs(t, host, r, was)
    requires if Is(x, host, t[r].1.conn, Life) then now == x.1.now else now == was
    ensures SeenIs(t + [x], host, r, now)
  {
    hide LastIs, NoneIs;
    LastMore(t, x, host, t[r].1.conn, Life, r);
    LastWithin(t + [x], host, t[r].1.conn, Life, r);
  }

  lemma FlakeletIsMore(t: Trace, x: (string, Op), host: string, conn: nat, b: nat, was: Named, f: Named, more: Named)
    requires b < |t| && FlakeletIs(t, host, conn, b, was, f) && more.name == f.name
    requires more.generation == if Is(x, host, conn, Generation(f.name)) then x.1.job.generation else f.generation
    requires more.revision == if Is(x, host, conn, Revision(f.name)) then x.1.job.revision else f.revision
    ensures FlakeletIs(t + [x], host, conn, b, was, more)
  {
    hide LastIs, NoneIs;
    LastMore(t, x, host, conn, Generation(f.name), b);
    LastMore(t, x, host, conn, Revision(f.name), b);
    LastWithin(t + [x], host, conn, Generation(f.name), b);
    LastWithin(t + [x], host, conn, Revision(f.name), b);
  }

  lemma ListedMore(t: Trace, x: (string, Op), host: string, r: nat, b: nat, listed: seq<Named>)
    requires r < |t| && t[r].1.Register? && r <= b < |t| && ListedAt(t, host, r, b, listed)
    ensures !Is(x, host, t[r].1.conn, List) ==> ListedAt(t + [x], host, r, b, listed)
    ensures Is(x, host, t[r].1.conn, List) ==> ListedAt(t + [x], host, r, |t|, x.1.flakelets)
  {
    hide LastIs, NoneIs;
    LastMore(t, x, host, t[r].1.conn, List, r);
  }

  /** Nothing was reported yet. */
  lemma AllNew(t: Trace, host: string, conn: nat, n: nat)
    requires n + 1 == |t|
    ensures forall kind :: NoneIs(t, host, conn, kind, n)
    ensures forall kind, i: nat :: !LastIs(t, host, conn, kind, n, i)
  {
    hide Is;
  }

  lemma JustListed(t: Trace, host: string, conn: nat, listed: seq<Named>)
    requires t != []
    ensures FlakeletsAre(t, host, conn, |t| - 1, listed, listed)
  {
    hide LastIs, NoneIs;
    AllNew(t, host, conn, |t| - 1);
  }

  lemma JustRegistered(t: Trace, host: string)
    requires t != [] && t[|t| - 1].0 == host && t[|t| - 1].1.Register?
    ensures var op := t[|t| - 1].1;
      Says(t, host, |t| - 1, |t| - 1, op.hello.flakelets, Fresh(op.conn, op.hello, op.now))
  {
    hide LastIs, NoneIs;
    AllNew(t, host, t[|t| - 1].1.conn, |t| - 1);
    JustListed(t, host, t[|t| - 1].1.conn, t[|t| - 1].1.hello.flakelets);
  }

  /** The entry after one more op of its connection, or of another. */
  lemma SaysMore(t: Trace, x: (string, Op), host: string, r: nat, b: nat, listed: seq<Named>, e: Entry)
    returns (b': nat, listed': seq<Named>)
    requires Says(t, host, r, b, listed, e)
    ensures var own := x.0 == host && x.1.conn == e.conn && !x.1.Register? && !x.1.Unregister?;
      Says(t + [x], host, r, b', listed', if own then Own(e, x.1) else e)
  {
    hide JobIs, SeenIs, ListedAt, FlakeletsAre;
    var own := x.0 == host && x.1.conn == e.conn && !x.1.Register? && !x.1.Unregister?;
    var more := if own then Own(e, x.1) else e;
    forall id ensures JobIs(t + [x], host, r, more.jobs, id) {
      JobIsMore(t, x, host, r, e.jobs, more.jobs, id);
    }
    SeenIsMore(t, x, host, r, e.lastSeen, more.lastSeen);
    ListedMore(t, x, host, r, b, listed);
    if Is(x, host, e.conn, List) {
      b', listed' := |t|, x.1.flakelets;
      JustListed(t + [x], host, e.conn, listed');
    } else {
      b', listed' := b, listed;
      FlakeletsMore(t, x, host, e.conn, b, listed, e.flakelets, more.flakelets);
    }
  }

  lemma FlakeletsMore(t: Trace, x: (string, Op), host: string, conn: nat, b: nat, listed: seq<Named>, fs: seq<Named>,
                      more: seq<Named>)
    requires b < |t| && FlakeletsAre(t, host, conn, b, listed, fs)
    requires more == if x.0 == host && x.1.conn == conn && x.1.RecordJob? && x.1.job.state.Done?
                     then UpToDate(fs, x.1.job) else fs
    ensures FlakeletsAre(t + [x], host, conn, b, listed, more)
  {
    hide FlakeletIs;
    SameNames(t, host, conn, b, listed, fs);
    if x.1.RecordJob? { UpToDateAt(fs, x.1.job); }
    forall k | 0 <= k < |more|
      ensures if FirstOfName(listed, k) then FlakeletIs(t + [x], host, conn, b, listed[k], more[k])
              else more[k] == listed[k]
    {
      SameFirst(listed, fs, k);
      if FirstOfName(listed, k) { FlakeletIsMore(t, x, host, conn, b, listed[k], fs[k], more[k]); }
    }
  }

  lemma SameNames(t: Trace, host: string, conn: nat, b: nat, listed: seq<Named>, fs: seq<Named>)
    requires FlakeletsAre(t, host, conn, b, listed, fs)
    ensures |fs| == |listed| && forall k | 0 <= k < |fs| :: fs[k].name == listed[k].name
  {
    hide LastIs, NoneIs;
  }

  lemma SameFirst(a: seq<Named>, b: seq<Named>, k: nat)
    requires |a| == |b| && k < |a| && forall j | 0 <= j < |a| :: a[j].name == b[j].name
    ensures FirstOfName(a, k) <==> FirstOfName(b, k)
  {
  }

  /** However connections and reports are interleaved, an entry says: each job as
      its connection last reported it, or as the hello had it, and no other; when
      the connection was last heard; and the flakelets last listed, with the
      generation and revision finished jobs reported since. */
  lemma {:induction false} EntrySays(t: Trace, host: string) returns (r: nat, b: nat, listed: seq<Named>)
    requires host in After(t)
    ensures Says(t, host, r, b, listed, After(t)[host])
  {
    hide Says, Own, UpToDate;
    var front, x := t[..|t| - 1], t[|t| - 1];
    assert t == front + [x];
    AfterMore(front, x);
    if x.0 == host && x.1.Register? && Accepts(After(front), host, x.1.now) {
      r, b, listed := |front|, |front|, x.1.hello.flakelets;
      JustRegistered(t, host);
    } else {
      r, b, listed := EntrySays(front, host);
      b, listed := SaysMore(front, x, host, r, b, listed, After(front)[host]);
    }
  }

  /** Whatever another connection does, and whatever happens on other hosts,
      leaves a host's entry alone, unless the connection has been silent and is
      replaced. In particular a late unregister never evicts a successor. */
  lemma OthersChangeNothing(t: Trace, x: (string, Op), host: string)
    requires host in After(t)
    requires x.0 != host || (x.1.conn != After(t)[host].conn && !x.1.Register?) ||
             (x.1.Register? && x.1.now - After(t)[host].lastSeen < ALIVE)
    ensures host in After(t + [x]) && After(t + [x])[host] == After(t)[host]
  {
    AfterMore(t, x);
  }

  /** Only its own unregister removes a host's entry. */
  lemma RemovedByOwn(t: Trace, x: (string, Op), host: string)
    requires host in After(t) && host !in After(t + [x])
    ensures x == (host, Unregister(After(t)[host].conn))
  {
    AfterMore(t, x);
  }

  // ----- silence -----

  /** When an op happens, as far as it says. */
  predicate Timed(op: Op) {
    op.Register? || op.Seen?
  }

  ghost predicate Clocked(t: Trace) {
    forall i, j | 0 <= i <= j < |t| && Timed(t[i].1) && Timed(t[j].1) :: t[i].1.now <= t[j].1.now
  }

  /** The relay heard from a connection at least as recently as it recorded. */
  ghost predicate HeardBefore(t: Trace, host: string, conn: nat, now: nat) {
    forall i | 0 <= i < |t| && t[i].0 == host && t[i].1.conn == conn && t[i].1.Seen? :: t[i].1.now <= now
  }

  lemma {:induction false} LastSeenIsLatest(t: Trace, host: string)
    requires Clocked(t) && host in After(t)
    ensures HeardBefore(t, host, After(t)[host].conn, After(t)[host].lastSeen)
  {
    if |t| > 0 {
      var front, x := t[..|t| - 1], t[|t| - 1];
      assert t == front + [x];
      AfterMore(front, x);
      if host in After(front) && After(front)[host].conn == After(t)[host].conn {
        LastSeenIsLatest(front, host);
      }
      hide After;
    }
  }

  /** A connection is replaced only after a silence: when another one is
      registered over it, nothing was heard from it for as long as it takes to
      be taken for dead. */
  lemma ReplacedAfterSilence(t: Trace, host: string, op: Op)
    requires Clocked(t + [(host, op)]) && op.Register? && host in After(t)
    requires After(t + [(host, op)])[host] != After(t)[host]
    ensures HeardBefore(t, host, After(t)[host].conn, op.now - 45_000_000_000)
  {
    AfterMore(t, (host, op));
    assert forall i | 0 <= i < |t| :: (t + [(host, op)])[i] == t[i];
    LastSeenIsLatest(t, host);
    hide After;
  }

  // ----- the registry as the program keeps it -----

  datatype StartFrame = StartFrame(id: Id, flakelet: string)

  /** One target of a running deploy: its index in the wave, the channel of the
      wave and the frame to send again when the agent reconnects. */
  datatype Sub = Sub(index: nat, channel: nat, start: StartFrame)

  class Relay {
    var agents: map<string, Entry>
    var subs: map<(string, Id), Sub>
    /** Channels whose receiving wave is gone, and what was sent on the others. */
    var closed: set<nat>
    var sent: seq<(nat, nat, Frame)>
    ghost var trace: Trace

    ghost predicate Valid()
      reads this
    {
      agents == After(trace)
    }

    constructor ()
      ensures Valid() && trace == [] && subs == map[] && sent == []
    {
      agents, subs, closed, sent, trace := map[], map[], {}, [], [];
    }

    ghost method Happened(host: string, op: Op)
      modifies this`trace
      ensures trace == old(trace) + [(host, op)]
      ensures After(trace) == Next(After(old(trace)), host, op)
    {
      AfterMore(trace, (host, op));
      trace := trace + [(host, op)];
    }

    /** Registers a connection unless another one of the host was heard from
        recently. */
    method Register(host: string, conn: nat, hello: Hello, now: nat) returns (ok: bool)
      requires Valid()
      modifies this`agents, this`trace
      ensures Valid() && trace == old(trace) + [(host, Op.Register(conn, hello, now))]
      ensures ok <==> host !in old(agents) || now - old(agents)[host].lastSeen >= 45_000_000_000
      ensures agents == if ok then old(agents)[host := Entry(conn, hello.flakelets, hello.jobs, now)] else old(agents)
    {
      hide After;
      Happened(host, Op.Register(conn, hello, now));
      if host in agents {
        if now - agents[host].lastSeen < ALIVE { return false; }
      }
      agents := agents[host := Entry(conn, hello.flakelets, hello.jobs, now)];
      return true;
    }

    method Unregister(host: string, conn: nat)
      requires Valid()
      modifies this`agents, this`trace
      ensures Valid() && trace == old(trace) + [(host, Op.Unregister(conn))]
      ensures agents ==
        if host in old(agents) && old(agents)[host].conn == conn then old(agents) - {host} else old(agents)
    {
      hide After;
      Happened(host, Op.Unregister(conn));
      if host in agents && agents[host].conn == conn { agents := agents - {host}; }
    }

    method Seen(host: string, conn: nat, now: nat)
      requires Valid()
      modifies this`agents, this`trace
      ensures Valid() && trace == old(trace) + [(host, Op.Seen(conn, now))]
      ensures agents == if host !in old(agents) || old(agents)[host].conn != conn then old(agents)
                        else old(agents)[host := old(agents)[host].(lastSeen := now)]
    {
      hide After;
      Happened(host, Op.Seen(conn, now));
      if host in agents && agents[host].conn == conn {
        agents := agents[host := agents[host].(lastSeen := now)];
      }
    }

    method RecordFlakelets(host: string, conn: nat, flakelets: seq<Named>)
      requires Valid()
      modifies this`agents, this`trace
      ensures Valid() && trace == old(trace) + [(host, Op.RecordFlakelets(conn, flakelets))]
      ensures agents == if host !in old(agents) || old(agents)[host].conn != conn then old(agents)
                        else old(agents)[host := old(agents)[host].(flakelets := flakelets)]
    {
      hide After;
      Happened(host, Op.RecordFlakelets(conn, flakelets));
      if host in agents && agents[host].conn == conn {
        agents := agents[host := agents[host].(flakelets := flakelets)];
      }
    }

    /** Remembers a job of the host and, once it is done, what its flakelet now
        runs. */
    method RecordJob(host: string, conn: nat, job: JobRef)
      requires Valid()
      modifies this`agents, this`trace
      ensures Valid() && trace == old(trace) + [(host, Op.RecordJob(conn, job))]
      ensures if host !in old(agents) || old(agents)[host].conn != conn then agents == old(agents)
              else host in agents && agents[host].jobs == old(agents)[host].jobs[job.id := job]
    {
      hide After, UpToDate;
      Happened(host, Op.RecordJob(conn, job));
      if host !in agents || agents[host].conn != conn { return; }
      var e := agents[host];
      if job.state.Done? {
        var flakelets := Update(e.flakelets, job);
        e := e.(flakelets := flakelets);
      }
      agents := agents[host := e.(jobs := e.jobs[job.id := job])];
    }

    /** A connection of a host after its hello: refused, or registered and sent
        the starts of deploys still waiting for the host. */
    method Connect(host: string, conn: nat, hello: Hello, now: nat)
      returns (ok: bool, starts: seq<StartFrame>)
      requires Valid()
      modifies this`agents, this`trace
      ensures Valid() && trace == old(trace) + [(host, Op.Register(conn, hello, now))]
      ensures ok <==> host !in old(agents) || now - old(agents)[host].lastSeen >= 45_000_000_000
      ensures agents == if ok then old(agents)[host := Entry(conn, hello.flakelets, hello.jobs, now)] else old(agents)
      ensures if ok then Waiting(subs, host, starts) else starts == []
    {
      ok := Register(host, conn, hello, now);
      starts := [];
      if ok { starts := PendingStarts(host); }
    }

    // ----- subscriptions -----

    method Subscribe(host: string, id: Id, sub: Sub)
      modifies this`subs
      ensures subs == old(subs)[(host, id) := sub]
    {
      subs := subs[(host, id) := sub];
    }

    method Unsubscribe(host: string, id: Id)
      modifies this`subs
      ensures subs == old(subs) - {(host, id)}
    {
      subs := subs - {(host, id)};
    }

    /** The starts of deploys still waiting for a host, in any order. */
    method PendingStarts(host: string) returns (starts: seq<StartFrame>)
      ensures Waiting(subs, host, starts)
    {
      starts := [];
      ghost var keys: seq<(string, Id)> := [];
      var rest := subs.Keys;
      while rest != {}
        invariant rest <= subs.Keys
        invariant Collected(subs, host, rest, keys, starts)
        decreases |rest|
      {
        var key :| key in rest;
        if key.0 == host {
          starts := starts + [subs[key].start];
          keys := keys + [key];
        }
        rest := rest - {key};
      }
    }

    /** Routes a frame of a job to whoever waits for it, wherever the frame came
        from. A subscriber that is gone is forgotten. */
    method Dispatch(host: string, id: Id, frame: Frame)
      modifies this`subs, this`sent
      ensures var key := (host, id);
        if key !in old(subs) then subs == old(subs) && sent == old(sent)
        else if old(subs)[key].channel in closed then subs == old(subs) - {key} && sent == old(sent)
        else subs == old(subs) && sent == old(sent) + [(old(subs)[key].channel, old(subs)[key].index, frame)]
    {
      var key := (host, id);
      if key in subs {
        var sub := subs[key];
        if sub.channel in closed {
          subs := subs - {key};
        } else {
          sent := sent + [(sub.channel, sub.index, frame)];
        }
      }
    }
  }

  /** Some of the subscriptions of a host, each once, and their starts. */
  ghost predicate Collected(subs: map<(string, Id), Sub>, host: string, rest: set<(string, Id)>,
                            keys: seq<(string, Id)>, starts: seq<StartFrame>)
  {
    && |keys| == |starts|
    && (forall i, j | 0 <= i < j < |keys| :: keys[i] != keys[j])
    && (forall key :: key in keys <==> key in subs && key !in rest && key.0 == host)
    && (forall i | 0 <= i < |keys| :: keys[i] in subs && starts[i] == subs[keys[i]].start)
  }

  /** All subscriptions of a host, each once, and their starts. */
  ghost predicate Waiting(subs: map<(string, Id), Sub>, host: string, starts: seq<StartFrame>) {
    exists keys :: Collected(subs, host, {}, keys, starts)
  }

  /** Brings the first flakelet of the job's name up to date. */
  method Update(flakelets: seq<Named>, job: JobRef) returns (r: seq<Named>)
    ensures r == UpToDate(flakelets, job)
  {
    for k := 0 to |flakelets|
      invariant forall j | 0 <= j < k :: flakelets[j].name != job.flakelet
    {
      if flakelets[k].name == job.flakelet {
        var f := flakelets[k];
        if job.generation.Some? { f := f.(generation := job.generation); }
        if job.revision.Some? { f := f.(revision := job.revision); }
        UpdatedAt(flakelets, job, k);
        return flakelets[k := f];
      }
    }
    UpdatedNowhere(flakelets, job);
    return flakelets;
  }

  lemma {:induction false} UpdatedAt(flakelets: seq<Named>, job: JobRef, k: nat)
    requires k < |flakelets| && flakelets[k].name == job.flakelet
    requires forall j | 0 <= j < k :: flakelets[j].name != job.flakelet
    ensures UpToDate(flakelets, job) == flakelets[k := Runs(flakelets[k], job)]
  {
    if k > 0 {
      UpdatedAt(flakelets[1..], job, k - 1);
    }
  }

  lemma {:induction false} UpdatedNowhere(flakelets: seq<Named>, job: JobRef)
    requires forall j | 0 <= j < |flakelets| :: flakelets[j].name != job.flakelet
    ensures UpToDate(flakelets, job) == flakelets
  {
    if flakelets != [] {
      UpdatedNowhere(flakelets[1..], job);
    }
  }
}
