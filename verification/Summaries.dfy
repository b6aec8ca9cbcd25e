/** Deploys as the relay lists them: the jobs of all hosts grouped by caller and
    client id (src/relay/state.rs, job_summaries). */
module Summaries {
  import opened Wrappers
  import opened Proto
  import opened Policies
  import opened Sorting

  /** One job of one host. The hosts and their jobs are visited in any order. */
  datatype Row = Row(host: string, job: JobRef)

  datatype JobTarget = JobTarget(target: string, state: JobState, status: Option<Status>, generation: Option<nat>)

  datatype Summary = Summary(id: string, caller: string, name: string, created: nat, finished: Option<nat>,
                             targets: seq<JobTarget>)

  type Key = (string, string)

  // ----- sorting -----

  predicate LexLe(a: string, b: string) {
    a == "" || (b != "" && (a[0] < b[0] || (a[0] == b[0] && LexLe(a[1..], b[1..]))))
  }

  lemma {:induction false} LexTotal(a: string, b: string)
    ensures LexLe(a, b) || LexLe(b, a)
  {
    if a != "" && b != "" { LexTotal(a[1..], b[1..]); }
  }

  lemma {:induction false} LexTransitive(a: string, b: string, c: string)
    requires LexLe(a, b) && LexLe(b, c)
    ensures LexLe(a, c)
  {
    if a != "" && a[0] == b[0] == c[0] { LexTransitive(a[1..], b[1..], c[1..]); }
  }

  predicate TargetLe(a: JobTarget, b: JobTarget) {
    LexLe(a.target, b.target)
  }

  /** Newest first, then by id. */
  predicate NewerFirst(a: Summary, b: Summary) {
    a.created > b.created || (a.created == b.created && LexLe(a.id, b.id))
  }

  lemma BothOrder()
    ensures Orders(TargetLe) && Orders(NewerFirst)
  {
    forall a: JobTarget, b: JobTarget ensures TargetLe(a, b) || TargetLe(b, a) { LexTotal(a.target, b.target); }
    forall a: JobTarget, b: JobTarget, c: JobTarget | TargetLe(a, b) && TargetLe(b, c) ensures TargetLe(a, c) {
      LexTransitive(a.target, b.target, c.target);
    }
    forall a: Summary, b: Summary ensures NewerFirst(a, b) || NewerFirst(b, a) { LexTotal(a.id, b.id); }
    forall a: Summary, b: Summary, c: Summary | NewerFirst(a, b) && NewerFirst(b, c) ensures NewerFirst(a, c) {
      if a.created == c.created { LexTransitive(a.id, b.id, c.id); }
    }
  }

  // ----- groups -----

  predicate Readable(p: Policy, principals: seq<string>, row: Row) {
    RuleFor(p, principals, row.host, row.job.flakelet).Some?
  }

  function KeyOf(row: Row): Key {
    (row.job.who.caller, row.job.who.clientId)
  }

  /** A row that tells who asked for the deploys with a client id. */
  predicate Tells(p: Policy, principals: seq<string>, clientId: string, row: Row) {
    row.job.who.clientId == clientId && Readable(p, principals, row)
  }

  /** Some rule grants the caller the flakelet of the row. */
  ghost predicate MayRead(p: Policy, principals: seq<string>, row: Row) {
    exists k | 0 <= k < |p.rules| :: Grants(p, p.rules[k].1, principals, row.host, row.job.flakelet)
  }

  lemma ReadableIff(p: Policy, principals: seq<string>, row: Row)
    ensures Readable(p, principals, row) <==> MayRead(p, principals, row)
  {
    RuleForIff(p, principals, row.host, row.job.flakelet);
    hide Grants, RuleFor;
  }

  /** Who asked for the deploys with a client id, as some readable job recorded. */
  method JobCaller(p: Policy, principals: seq<string>, clientId: string, rows: seq<Row>) returns (r: Option<string>)
    ensures r.None? <==> forall row | row in rows :: !Tells(p, principals, clientId, row)
    ensures r.Some? ==> exists row | row in rows :: Tells(p, principals, clientId, row) && row.job.who.caller == r.value
    ensures r.None? <==> forall row | row in rows && row.job.who.clientId == clientId :: !MayRead(p, principals, row)
    ensures r.Some? ==> exists row | row in rows ::
      row.job.who.clientId == clientId && MayRead(p, principals, row) && row.job.who.caller == r.value
  {
    hide Readable, MayRead;
    forall row ensures Tells(p, principals, clientId, row) <==>
      row.job.who.clientId == clientId && MayRead(p, principals, row)
    {
      ReadableIff(p, principals, row);
    }
    for k := 0 to |rows|
      invariant forall j | 0 <= j < k :: !Tells(p, principals, clientId, rows[j])
    {
      if Tells(p, principals, clientId, rows[k]) { return Some(rows[k].job.who.caller); }
    }
    return None;
  }

  /** The readable rows of one deploy. */
  function Of(p: Policy, principals: seq<string>, rows: seq<Row>, key: Key): seq<Row> {
    if rows == [] then [] else
    var row := rows[|rows| - 1];
    Of(p, principals, rows[..|rows| - 1], key) + if Readable(p, principals, row) && KeyOf(row) == key then [row] else []
  }

  lemma OfMore(p: Policy, principals: seq<string>, rows: seq<Row>, row: Row)
    ensures forall key :: (Of(p, principals, rows + [row], key) ==
      Of(p, principals, rows, key) + if Readable(p, principals, row) && KeyOf(row) == key then [row] else [])
  {
    assert (rows + [row])[..|rows|] == rows;
  }

  function TargetOf(row: Row): JobTarget {
    JobTarget(row.host + "/" + row.job.flakelet, row.job.state, row.job.status, row.job.generation)
  }

  function TargetsOf(rows: seq<Row>): multiset<JobTarget> {
    if rows == [] then multiset{} else TargetsOf(rows[..|rows| - 1]) + multiset{TargetOf(rows[|rows| - 1])}
  }

  /** What a summary says of its rows: when the first was created, when the last
      was finished if all are, and a target for each. */
  ghost predicate Sums(s: Summary, rows: seq<Row>) {
    && rows != []
    && (exists r :: r in rows && r.job.created == s.created)
    && (forall r | r in rows :: KeyOf(r) == (s.caller, s.id) && s.created <= r.job.created)
    && (exists r :: r in rows && r.job.who.name == s.name)
    && (s.finished.None? <==> exists r :: r in rows && r.job.finished.None?)
    && (s.finished.Some? ==> forall r | r in rows :: r.job.finished.Some? && r.job.finished.value <= s.finished.value)
    && (s.finished.Some? ==> exists r :: r in rows && r.job.finished == s.finished)
    && multiset(s.targets) == TargetsOf(rows)
  }

  ghost predicate Grouped(groups: map<Key, Summary>, p: Policy, principals: seq<string>, rows: seq<Row>) {
    && (forall key :: key in groups <==> Of(p, principals, rows, key) != [])
    && (forall key | key in groups ::
          (groups[key].caller, groups[key].id) == key && Sums(groups[key], Of(p, principals, rows, key)))
  }

  function Min(a: nat, b: nat): nat {
    if a <= b then a else b
  }

  /** The latest of two times, if both are known. */
  function Latest(a: Option<nat>, b: Option<nat>): Option<nat> {
    if a.None? || b.None? then None else Some(if a.value >= b.value then a.value else b.value)
  }

  function First(row: Row): Summary {
    Summary(row.job.who.clientId, row.job.who.caller, row.job.who.name, row.job.created, row.job.finished, [])
  }

  function WithRow(s: Summary, row: Row): Summary {
    s.(created := Min(s.created, row.job.created), finished := Latest(s.finished, row.job.finished),
       targets := s.targets + [TargetOf(row)])
  }

  lemma TargetsMore(rows: seq<Row>, row: Row)
    ensures TargetsOf(rows + [row]) == TargetsOf(rows) + multiset{TargetOf(row)}
  {
    assert (rows + [row])[..|rows|] == rows;
  }

  lemma FirstSums(row: Row)
    ensures Sums(WithRow(First(row), row), [row])
  {
    TargetsMore([], row);
    assert [] + [row] == [row] && row in [row];
    assert [] + [TargetOf(row)] == [TargetOf(row)];
  }

  lemma OneMoreSums(s: Summary, rows: seq<Row>, row: Row)
    requires Sums(s, rows) && KeyOf(row) == (s.caller, s.id)
    ensures Sums(WithRow(s, row), rows + [row])
  {
    hide TargetOf, TargetsOf;
    TargetsMore(rows, row);
    var more, t := rows + [row], WithRow(s, row);
    assert row in more && forall r :: r in more <==> r in rows || r == row;
    var oldest :| oldest in rows && oldest.job.created == s.created;
    var named :| named in rows && named.job.who.name == s.name;
    assert oldest in more && named in more;
    assert exists r :: r in more && r.job.created == t.created by {
      assert t.created == oldest.job.created || t.created == row.job.created;
    }
    if t.finished.Some? {
      var last :| last in rows && last.job.finished == s.finished;
      assert last in more;
      assert last.job.finished == t.finished || row.job.finished == t.finished;
    } else if s.finished.None? {
      var open :| open in rows && open.job.finished.None?;
      assert open in more;
    }
  }

  lemma GroupedMore(groups: map<Key, Summary>, p: Policy, principals: seq<string>, rows: seq<Row>, row: Row)
    requires Grouped(groups, p, principals, rows)
    ensures var key := KeyOf(row);
      var s := if key in groups then groups[key] else First(row);
      Grouped(if Readable(p, principals, row) then groups[key := WithRow(s, row)] else groups,
              p, principals, rows + [row])
  {
    hide Of, Readable, Sums;
    OfMore(p, principals, rows, row);
    var key := KeyOf(row);
    var group := Of(p, principals, rows, key);
    if Readable(p, principals, row) {
      if key in groups {
        OneMoreSums(groups[key], group, row);
      } else {
        FirstSums(row);
        assert group + [row] == [row];
      }
    }
    forall k ensures Of(p, principals, rows, k) + [] == Of(p, principals, rows, k) {
    }
  }

  lemma NothingGrouped(p: Policy, principals: seq<string>)
    ensures Grouped(map[], p, principals, [])
  {
  }

  /** The deploys the caller may see: one summary for each deploy with a readable
      row, newest first, its targets in order. */
  method JobSummaries(p: Policy, principals: seq<string>, rows: seq<Row>) returns (out: seq<Summary>)
    ensures forall i | 0 <= i < |out| :: Sums(out[i], Of(p, principals, rows, (out[i].caller, out[i].id)))
    ensures forall i | 0 <= i < |out| :: Sorted(out[i].targets, TargetLe)
    ensures forall key | Of(p, principals, rows, key) != [] ::
      exists i :: 0 <= i < |out| && (out[i].caller, out[i].id) == key
    ensures forall i, j | 0 <= i < j < |out| :: (out[i].caller, out[i].id) != (out[j].caller, out[j].id)
    ensures Sorted(out, NewerFirst)
    ensures forall i | 0 <= i < |out| :: IsListed(p, principals, rows, out[i])
    ensures forall row | row in rows && MayRead(p, principals, row) :: exists i | 0 <= i < |out| ::
      out[i].caller == row.job.who.caller && out[i].id == row.job.who.clientId
    ensures forall i, j | 0 <= i < j < |out| ::
      out[i].created > out[j].created || (out[i].created == out[j].created && NotAfter(out[i].id, out[j].id))
    ensures forall i, j, k | 0 <= i < |out| && 0 <= j < k < |out[i].targets| ::
      NotAfter(out[i].targets[j].target, out[i].targets[k].target)
  {
    hide IsDeploy, NotAfter, MayRead, Of, Sums, Readable, Orders, Sorted, Grouped;
    BothOrder();
    var groups: map<Key, Summary> := map[];
    NothingGrouped(p, principals);
    for n := 0 to |rows|
      invariant Grouped(groups, p, principals, rows[..n])
    {
      var row := rows[n];
      GroupedMore(groups, p, principals, rows[..n], row);
      assert rows[..n + 1] == rows[..n] + [row];
      if !Readable(p, principals, row) { continue; }
      var key := KeyOf(row);
      var s := if key in groups then groups[key] else First(row);
      groups := groups[key := WithRow(s, row)];
    }
    assert rows[..|rows|] == rows;
    var values := Values(groups, p, principals, rows);
    out := Sort(values, NewerFirst);
    Reordered(values, out, groups, p, principals, rows);
    forall i | 0 <= i < |out| ensures IsListed(p, principals, rows, out[i]) {
      var at := DeployIs(p, principals, rows, out[i]);
    }
    forall row | row in rows && MayRead(p, principals, row)
      ensures exists i | 0 <= i < |out| ::
        out[i].caller == row.job.who.caller && out[i].id == row.job.who.clientId
    {
      ReadIsListed(p, principals, rows, row);
      var key := (row.job.who.caller, row.job.who.clientId);
      var i :| 0 <= i < |out| && (out[i].caller, out[i].id) == key;
    }
    InOrder(out);
  }

  // ----- what a summary says -----

  /** Not behind the other in the order of their characters. */
  ghost predicate NotAfter(a: string, b: string) {
    exists k | 0 <= k <= |a| && k <= |b| :: a[..k] == b[..k] && (k == |a| || (k < |b| && a[k] < b[k]))
  }

  lemma {:induction false} NotAfterIff(a: string, b: string)
    ensures LexLe(a, b) <==> NotAfter(a, b)
  {
    if a == "" {
      assert a[..0] == b[..0];
    } else if b != "" && a[0] == b[0] {
      NotAfterIff(a[1..], b[1..]);
      if k :| 0 <= k <= |a| && k <= |b| && a[..k] == b[..k] && (k == |a| || (k < |b| && a[k] < b[k])) {
        assert k > 0;
        assert a[1..][..k - 1] == a[..k][1..] == b[..k][1..] == b[1..][..k - 1];
      }
      if k :| 0 <= k < |a| && k < |b| && a[1..][..k] == b[1..][..k] &&
              (k == |a| - 1 || (k + 1 < |b| && a[1..][k] < b[1..][k])) {
        assert a[..k + 1] == [a[0]] + a[1..][..k] && b[..k + 1] == [b[0]] + b[1..][..k];
      }
    } else if b != "" && a[0] < b[0] {
      assert a[..0] == b[..0];
    } else if b != "" {
      assert forall k | 0 < k <= |a| && k <= |b| :: a[..k][0] != b[..k][0];
    }
  }

  lemma InOrder(out: seq<Summary>)
    requires Sorted(out, NewerFirst) && forall i | 0 <= i < |out| :: Sorted(out[i].targets, TargetLe)
    ensures forall i, j | 0 <= i < j < |out| ::
      out[i].created > out[j].created || (out[i].created == out[j].created && NotAfter(out[i].id, out[j].id))
    ensures forall i, j, k | 0 <= i < |out| && 0 <= j < k < |out[i].targets| ::
      NotAfter(out[i].targets[j].target, out[i].targets[k].target)
  {
    hide NotAfter, LexLe;
    forall a, b ensures LexLe(a, b) <==> NotAfter(a, b) {
      NotAfterIff(a, b);
    }
  }

  /** The `k`-th row is of the deploy and the caller may read it. */
  ghost predicate Belongs(p: Policy, principals: seq<string>, rows: seq<Row>, s: Summary, k: nat) {
    && k < |rows| && MayRead(p, principals, rows[k])
    && rows[k].job.who.caller == s.caller && rows[k].job.who.clientId == s.id
  }

  /** Created with the first of its rows, and finished with the last if all are. */
  ghost predicate Timed(rows: seq<Row>, s: Summary, at: seq<nat>)
    requires forall i | 0 <= i < |at| :: at[i] < |rows|
  {
    && (forall i | 0 <= i < |at| :: s.created <= rows[at[i]].job.created)
    && (exists i | 0 <= i < |at| :: s.created == rows[at[i]].job.created)
    && (exists i | 0 <= i < |at| :: s.name == rows[at[i]].job.who.name)
    && (s.finished.None? <==> exists i | 0 <= i < |at| :: rows[at[i]].job.finished.None?)
    && (s.finished.Some? ==>
          && (forall i | 0 <= i < |at| :: rows[at[i]].job.finished.value <= s.finished.value)
          && (exists i | 0 <= i < |at| :: rows[at[i]].job.finished.value == s.finished.value))
  }

  /** A deploy as listed: a target for each of its rows, `at` saying which. */
  ghost predicate IsDeploy(p: Policy, principals: seq<string>, rows: seq<Row>, s: Summary, at: seq<nat>) {
    && |at| == |s.targets| > 0
    && (forall k: nat :: Belongs(p, principals, rows, s, k) <==> k in at)
    && (forall i | 0 <= i < |at| :: at[i] < |rows| && IsTarget(s.targets[i], rows[at[i]]))
    && (forall i, j | 0 <= i < j < |at| :: at[i] != at[j])
    && Timed(rows, s, at)
  }

  ghost predicate IsListed(p: Policy, principals: seq<string>, rows: seq<Row>, s: Summary) {
    exists at :: IsDeploy(p, principals, rows, s, at)
  }

  predicate IsTarget(t: JobTarget, row: Row) {
    && t.target == row.host + "/" + row.job.flakelet && t.state == row.job.state
    && t.status == row.job.status && t.generation == row.job.generation
  }

  /** Where the rows of a deploy are. */
  lemma {:induction false} OfAt(p: Policy, principals: seq<string>, rows: seq<Row>, key: Key) returns (at: seq<nat>)
    ensures var group := Of(p, principals, rows, key);
      && |at| == |group| && (forall i | 0 <= i < |at| :: at[i] < |rows| && rows[at[i]] == group[i])
      && (forall i, j | 0 <= i < j < |at| :: at[i] < at[j])
      && forall k | 0 <= k < |rows| && Readable(p, principals, rows[k]) && KeyOf(rows[k]) == key :: k in at
  {
    hide Readable, KeyOf;
    at := [];
    if rows != [] {
      var front := rows[..|rows| - 1];
      at := OfAt(p, principals, front, key);
      var row := rows[|front|];
      var more := at + [|front|];
      assert more[|at|] == |front|;
      if Readable(p, principals, row) && KeyOf(row) == key { at := more; }
      assert forall k | 0 <= k < |front| :: front[k] == rows[k];
    }
  }

  lemma {:induction false} OfMay(p: Policy, principals: seq<string>, rows: seq<Row>, key: Key, row: Row)
    ensures row in Of(p, principals, rows, key) <==>
      row in rows && MayRead(p, principals, row) && (row.job.who.caller, row.job.who.clientId) == key
  {
    OfCounts(p, principals, rows, key, row);
    ReadableIff(p, principals, row);
    hide Of, Readable, MayRead;
    var group := Of(p, principals, rows, key);
    assert row in group <==> row in multiset(group);
    assert row in rows <==> row in multiset(rows);
  }

  lemma ReadIsListed(p: Policy, principals: seq<string>, rows: seq<Row>, row: Row)
    requires row in rows && MayRead(p, principals, row)
    ensures Of(p, principals, rows, (row.job.who.caller, row.job.who.clientId)) != []
  {
    hide Of, MayRead;
    OfMay(p, principals, rows, (row.job.who.caller, row.job.who.clientId), row);
  }

  lemma Without<T>(s: seq<T>, k: nat)
    requires k < |s|
    ensures multiset(s[..k] + s[k + 1..]) == multiset(s) - multiset{s[k]}
  {
    assert s == s[..k] + [s[k]] + s[k + 1..];
  }

  lemma SameSize<T>(a: seq<T>, b: seq<T>)
    requires multiset(a) == multiset(b)
    ensures |a| == |b|
  {
    assert |a| == |multiset(a)| == |multiset(b)| == |b|;
  }

  /** Two sequences with the same elements are arranged by places. */
  lemma {:induction false} Arranged<T>(a: seq<T>, b: seq<T>) returns (at: seq<nat>)
    requires multiset(a) == multiset(b)
    ensures |at| == |a| == |b| && forall i | 0 <= i < |at| :: at[i] < |b| && a[i] == b[at[i]]
    ensures forall i, j | 0 <= i < j < |at| :: at[i] != at[j]
    ensures forall k | 0 <= k < |b| :: k in at
    decreases |a|
  {
    hide Shifted;
    SameSize(a, b);
    if a == [] {
      at := [];
    } else {
      var n := |a| - 1;
      assert a[n] in multiset(b);
      var k :| 0 <= k < |b| && b[k] == a[n];
      Without(a, n);
      Without(b, k);
      assert a[..n] + a[n + 1..] == a[..n] && a == a[..n] + [a[n]];
      var some := Arranged(a[..n], b[..k] + b[k + 1..]);
      at := Shifted(some, k);
      ShiftedArranges(a[..n], a[n], b, k, some);
    }
  }

  /** Places in a sequence without its `k`-th element, and that. */
  function Shifted(at: seq<nat>, k: nat): seq<nat> {
    seq(|at|, i requires 0 <= i < |at| => if at[i] < k then at[i] else at[i] + 1) + [k]
  }

  lemma ShiftedArranges<T>(a: seq<T>, x: T, b: seq<T>, k: nat, some: seq<nat>)
    requires k < |b| && b[k] == x && |some| == |a| == |b| - 1
    requires forall i | 0 <= i < |some| :: some[i] < |b| - 1 && a[i] == (b[..k] + b[k + 1..])[some[i]]
    requires forall i, j | 0 <= i < j < |some| :: some[i] != some[j]
    requires forall k | 0 <= k < |b| - 1 :: k in some
    ensures var at := Shifted(some, k);
      && |at| == |b| && (forall i | 0 <= i < |at| :: at[i] < |b| && (a + [x])[i] == b[at[i]])
      && (forall i, j | 0 <= i < j < |at| :: at[i] != at[j])
      && forall m | 0 <= m < |b| :: m in at
  {
    var at := Shifted(some, k);
    forall m | 0 <= m < |b| ensures m in at {
      if m == k {
        assert at[|some|] == m;
      } else {
        var n := if m < k then m else m - 1;
        assert n in some;
        var i :| 0 <= i < |some| && some[i] == n;
        assert at[i] == m;
      }
    }
  }

  lemma {:induction false} TargetsAt(rows: seq<Row>)
    ensures TargetsOf(rows) == multiset(seq(|rows|, i requires 0 <= i < |rows| => TargetOf(rows[i])))
  {
    hide TargetOf;
    if rows != [] {
      var front, last := rows[..|rows| - 1], rows[|rows| - 1];
      TargetsAt(front);
      assert seq(|rows|, i requires 0 <= i < |rows| => TargetOf(rows[i]))
          == seq(|front|, i requires 0 <= i < |front| => TargetOf(front[i])) + [TargetOf(last)];
    }
  }

  lemma DeployIs(p: Policy, principals: seq<string>, rows: seq<Row>, s: Summary) returns (at: seq<nat>)
    requires Sums(s, Of(p, principals, rows, (s.caller, s.id)))
    ensures IsDeploy(p, principals, rows, s, at)
  {
    hide Of, MayRead, Readable, TargetsOf, Belongs, TargetOf, IsTarget, IsDeploy, Sums, KeyOf;
    var key := (s.caller, s.id);
    var group := Of(p, principals, rows, key);
    var places := OfAt(p, principals, rows, key);
    TargetsAt(group);
    SumsTargets(s, group);
    var targets := seq(|group|, i requires 0 <= i < |group| => TargetOf(group[i]));
    var move := Arranged(s.targets, targets);
    at := seq(|move|, i requires 0 <= i < |move| && move[i] < |places| => places[move[i]]);
    PlacesAre(p, principals, rows, s, places, move, at);
    TimesAre(p, principals, rows, s, group, places, move, at);
    forall i | 0 <= i < |at| ensures IsTarget(s.targets[i], rows[at[i]]) {
      assert s.targets[i] == targets[move[i]] == TargetOf(rows[at[i]]);
      TargetIs(rows[at[i]]);
    }
    IsDeployIf(p, principals, rows, s, at);
  }

  lemma IsDeployIf(p: Policy, principals: seq<string>, rows: seq<Row>, s: Summary, at: seq<nat>)
    requires |at| == |s.targets| > 0
    requires forall k: nat :: Belongs(p, principals, rows, s, k) <==> k in at
    requires forall i | 0 <= i < |at| :: at[i] < |rows| && IsTarget(s.targets[i], rows[at[i]])
    requires (forall i, j | 0 <= i < j < |at| :: at[i] != at[j]) && Timed(rows, s, at)
    ensures IsDeploy(p, principals, rows, s, at)
  {
    hide Belongs, IsTarget, Timed;
  }

  lemma SumsTargets(s: Summary, rows: seq<Row>)
    requires Sums(s, rows)
    ensures rows != [] && multiset(s.targets) == TargetsOf(rows)
  {
    hide TargetsOf;
  }

  lemma TargetIs(row: Row)
    ensures IsTarget(TargetOf(row), row)
  {
  }

  lemma PlacesAre(p: Policy, principals: seq<string>, rows: seq<Row>, s: Summary, places: seq<nat>, move: seq<nat>,
                  at: seq<nat>)
    requires |move| == |places| == |at| && forall i | 0 <= i < |move| :: move[i] < |places| && at[i] == places[move[i]]
    requires (forall i, j | 0 <= i < j < |move| :: move[i] != move[j]) && forall k | 0 <= k < |places| :: k in move
    requires forall i, j | 0 <= i < j < |places| :: places[i] < places[j]
    requires forall i | 0 <= i < |places| ::
      places[i] < |rows| && rows[places[i]] in Of(p, principals, rows, (s.caller, s.id))
    requires forall k | 0 <= k < |rows| && Readable(p, principals, rows[k]) && KeyOf(rows[k]) == (s.caller, s.id) ::
      k in places
    ensures forall k: nat :: Belongs(p, principals, rows, s, k) <==> k in at
    ensures forall i, j | 0 <= i < j < |at| :: at[i] != at[j]
    ensures forall k | k in places :: k in at
  {
    hide Of, MayRead, Readable;
    forall k | k in places ensures k in at {
      var i :| 0 <= i < |places| && places[i] == k;
      assert i in move;
      var j :| 0 <= j < |move| && move[j] == i;
      assert at[j] == k;
    }
    forall k: nat ensures Belongs(p, principals, rows, s, k) <==> k in at {
      if k < |rows| {
        OfMay(p, principals, rows, (s.caller, s.id), rows[k]);
        ReadableIff(p, principals, rows[k]);
      }
    }
  }

  lemma TimesAre(p: Policy, principals: seq<string>, rows: seq<Row>, s: Summary, group: seq<Row>, places: seq<nat>,
                 move: seq<nat>, at: seq<nat>)
    requires Sums(s, group) && |move| == |places| == |at| == |group|
    requires forall i | 0 <= i < |at| :: move[i] < |places| && at[i] == places[move[i]] < |rows|
    requires forall i | 0 <= i < |places| :: places[i] < |rows| && rows[places[i]] == group[i] && places[i] in at
    ensures Timed(rows, s, at)
  {
    hide TargetsOf;
    forall i | 0 <= i < |at| ensures rows[at[i]] in group {
      assert rows[places[move[i]]] == group[move[i]];
    }
    forall r | r in group ensures exists i :: 0 <= i < |at| && rows[at[i]] == r {
      var k :| 0 <= k < |group| && group[k] == r;
      var i :| 0 <= i < |at| && at[i] == places[k];
    }
  }

  ghost predicate Listed(out: seq<Summary>, groups: map<Key, Summary>, rest: set<Key>, p: Policy,
                         principals: seq<string>, rows: seq<Row>) {
    && (forall s | s in out :: (s.caller, s.id) in groups && (s.caller, s.id) !in rest
          && Sums(s, Of(p, principals, rows, (s.caller, s.id))) && Sorted(s.targets, TargetLe))
    && (forall key | key in groups && key !in rest :: exists s :: s in out && (s.caller, s.id) == key)
    && (forall s | s in out :: multiset(out)[s] == 1)
    && (forall s, t | s in out && t in out && (s.caller, s.id) == (t.caller, t.id) :: s == t)
  }

  /** The groups, in any order, each with its targets sorted. */
  method Values(groups: map<Key, Summary>, p: Policy, principals: seq<string>, rows: seq<Row>)
    returns (out: seq<Summary>)
    requires Grouped(groups, p, principals, rows)
    ensures Listed(out, groups, {}, p, principals, rows)
  {
    hide Of, Sums, Orders, Sorted, Listed;
    BothOrder();
    out := [];
    NothingListed(groups, p, principals, rows);
    var rest := groups.Keys;
    while rest != {}
      invariant rest <= groups.Keys && Listed(out, groups, rest, p, principals, rows)
      decreases |rest|
    {
      var key :| key in rest;
      var targets := Sort(groups[key].targets, TargetLe);
      var s := groups[key].(targets := targets);
      SumsSorted(groups[key], s, Of(p, principals, rows, key));
      ListedMore(out, groups, rest, p, principals, rows, s);
      out := out + [s];
      rest := rest - {key};
    }
  }

  lemma NothingListed(groups: map<Key, Summary>, p: Policy, principals: seq<string>, rows: seq<Row>)
    ensures Listed([], groups, groups.Keys, p, principals, rows)
  {
  }

  lemma SumsSorted(s: Summary, t: Summary, rows: seq<Row>)
    requires Sums(s, rows) && t == s.(targets := t.targets) && multiset(t.targets) == multiset(s.targets)
    ensures Sums(t, rows)
  {
    hide TargetsOf;
  }

  lemma ListedMore(out: seq<Summary>, groups: map<Key, Summary>, rest: set<Key>, p: Policy, principals: seq<string>,
                   rows: seq<Row>,
                   s: Summary)
    requires Listed(out, groups, rest, p, principals, rows)
    requires (s.caller, s.id) in rest && rest <= groups.Keys && Sorted(s.targets, TargetLe)
    requires Sums(s, Of(p, principals, rows, (s.caller, s.id)))
    ensures Listed(out + [s], groups, rest - {(s.caller, s.id)}, p, principals, rows)
  {
    hide Of, Sums, Sorted;
    var more := out + [s];
    assert s !in out;
    assert forall t :: t in more <==> t in out || t == s;
    assert multiset(more) == multiset(out) + multiset{s};
    forall key | key in groups && key !in rest - {(s.caller, s.id)}
      ensures exists t :: t in more && (t.caller, t.id) == key {
      if key !in rest {
        var t :| t in out && (t.caller, t.id) == key;
        assert t in more;
      } else {
        assert s in more;
      }
    }
  }

  lemma Reordered(values: seq<Summary>, out: seq<Summary>, groups: map<Key, Summary>, p: Policy,
                  principals: seq<string>, rows: seq<Row>)
    requires Grouped(groups, p, principals, rows) && Listed(values, groups, {}, p, principals, rows)
    requires multiset(out) == multiset(values)
    ensures forall i | 0 <= i < |out| :: Sums(out[i], Of(p, principals, rows, (out[i].caller, out[i].id)))
    ensures forall i | 0 <= i < |out| :: Sorted(out[i].targets, TargetLe)
    ensures forall key | Of(p, principals, rows, key) != [] ::
      exists i :: 0 <= i < |out| && (out[i].caller, out[i].id) == key
    ensures forall i, j | 0 <= i < j < |out| :: (out[i].caller, out[i].id) != (out[j].caller, out[j].id)
  {
    hide Of, Sums, Sorted;
    forall s ensures s in out <==> s in values {
      assert s in multiset(out) <==> s in multiset(values);
    }
    forall i | 0 <= i < |out|
      ensures Sums(out[i], Of(p, principals, rows, (out[i].caller, out[i].id))) && Sorted(out[i].targets, TargetLe)
    {
      assert out[i] in values;
    }
    forall key | Of(p, principals, rows, key) != []
      ensures exists i :: 0 <= i < |out| && (out[i].caller, out[i].id) == key
    {
      var s :| s in values && (s.caller, s.id) == key;
      assert s in out;
    }
    forall i, j | 0 <= i < j < |out| ensures (out[i].caller, out[i].id) != (out[j].caller, out[j].id) {
      assert out[i] in values && out[j] in values;
      if out[i] == out[j] { TwiceIsTwo(out, i, j); }
    }
  }

  // ----- the order of hosts and jobs does not matter -----

  lemma {:induction false} OfCounts(p: Policy, principals: seq<string>, rows: seq<Row>, key: Key, row: Row)
    ensures multiset(Of(p, principals, rows, key))[row] ==
      if Readable(p, principals, row) && KeyOf(row) == key then multiset(rows)[row] else 0
  {
    hide Readable, KeyOf;
    if rows != [] {
      var front, last := rows[..|rows| - 1], rows[|rows| - 1];
      assert rows == front + [last];
      OfCounts(p, principals, front, key, row);
    }
  }

  lemma {:induction false} TargetsSame(a: seq<Row>, b: seq<Row>)
    requires multiset(a) == multiset(b)
    ensures TargetsOf(a) == TargetsOf(b)
    decreases |a|
  {
    hide TargetOf, TargetsOf;
    if a == [] {
      assert |b| == |multiset(b)| == |multiset(a)| == 0;
    } else {
      var front, last := a[..|a| - 1], a[|a| - 1];
      assert a == front + [last];
      assert last in multiset(b);
      var k :| 0 <= k < |b| && b[k] == last;
      var without := b[..k] + b[k + 1..];
      assert b == b[..k] + [last] + b[k + 1..];
      assert multiset(b) == multiset(without) + multiset{last};
      assert multiset(a) == multiset(front) + multiset{last};
      assert multiset(front) == multiset(a) - multiset{last};
      assert multiset(without) == multiset(b) - multiset{last};
      TargetsWithout(b[..k], last, b[k + 1..]);
      TargetsSame(front, without);
      TargetsMore(front, last);
      assert b[..k] + b[k + 1..] == without;
    }
  }

  lemma {:induction false} TargetsWithout(a: seq<Row>, x: Row, b: seq<Row>)
    ensures TargetsOf(a + [x] + b) == TargetsOf(a + b) + multiset{TargetOf(x)}
  {
    hide TargetOf, TargetsOf;
    if b == [] {
      assert a + [x] + b == a + [x] && a + b == a;
      TargetsMore(a, x);
    } else {
      var front, last := b[..|b| - 1], b[|b| - 1];
      TargetsWithout(a, x, front);
      assert a + [x] + b == (a + [x] + front) + [last] && a + b == (a + front) + [last];
      TargetsMore(a + [x] + front, last);
      TargetsMore(a + front, last);
    }
  }

  /** Summaries of the same rows in another order agree, apart from whose
      spelling of the caller's name was met first. */
  lemma OrderIsIrrelevant(p: Policy, principals: seq<string>, rows: seq<Row>, rows': seq<Row>, key: Key, s: Summary,
                          t: Summary)
    requires multiset(rows) == multiset(rows')
    requires Sums(s, Of(p, principals, rows, key)) && Sums(t, Of(p, principals, rows', key))
    ensures s.id == t.id && s.caller == t.caller && s.created == t.created && s.finished == t.finished
    ensures multiset(s.targets) == multiset(t.targets)
  {
    hide Of, TargetsOf, TargetOf;
    var a, b := Of(p, principals, rows, key), Of(p, principals, rows', key);
    forall row ensures multiset(a)[row] == multiset(b)[row] {
      OfCounts(p, principals, rows, key, row);
      OfCounts(p, principals, rows', key, row);
    }
    assert multiset(a) == multiset(b);
    TargetsSame(a, b);
    forall row ensures row in a <==> row in b {
      assert row in multiset(a) <==> row in multiset(b);
    }
    SameRows(a, b, s, t);
  }

  lemma SameRows(a: seq<Row>, b: seq<Row>, s: Summary, t: Summary)
    requires (forall row :: row in a <==> row in b) && Sums(s, a) && Sums(t, b) && TargetsOf(a) == TargetsOf(b)
    ensures s.id == t.id && s.caller == t.caller && s.created == t.created && s.finished == t.finished
    ensures multiset(s.targets) == multiset(t.targets)
  {
    hide TargetsOf;
    var x :| x in a && x.job.created == s.created;
    var y :| y in b && y.job.created == t.created;
    assert x in b && y in a;
    if s.finished.Some? {
      assert t.finished.Some?;
      var u :| u in a && u.job.finished == s.finished;
      var w :| w in b && w.job.finished == t.finished;
      assert u in b && w in a;
    }
  }
}
