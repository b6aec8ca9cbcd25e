/** What a deploy request asks for, target by target and in which order, and why
    it is refused (src/relay/api.rs, expand and plan). */
module PlanMeanings {
  import opened Wrappers
  import opened Text
  import T = Telling
  import opened Policies
  import opened Plans

  // ----- what one target of a request asks for -----

  /** The target names a host part and a flakelet. */
  predicate Parts(t: string, h: string, f: string) {
    t == h + "/" + f && h != "" && f != "" && '/' !in h && '/' !in f
  }

  /** The first rule that grants the target, or none. */
  ghost predicate RuleIs(p: Policy, principals: seq<string>, host: string, flakelet: string, rule: string) {
    || (rule == "" && forall k | 0 <= k < |p.rules| :: !Grants(p, p.rules[k].1, principals, host, flakelet))
    || exists k | 0 <= k < |p.rules| ::
         && p.rules[k].0 == rule && Grants(p, p.rules[k].1, principals, host, flakelet)
         && forall j | 0 <= j < k :: !Grants(p, p.rules[j].1, principals, host, flakelet)
  }

  ghost predicate Granted(p: Policy, principals: seq<string>, host: string, flakelet: string) {
    exists k | 0 <= k < |p.rules| :: Grants(p, p.rules[k].1, principals, host, flakelet)
  }

  /** A host that is spelled out is asked for as it is, and one that a pattern
      stands for only if the caller may deploy to it: as offline if its agent is
      not connected, else if the agent has the flakelet. What is not
      `host/flakelet` asks for nothing that has a host. */
  ghost predicate Asks(v: View, principals: seq<string>, t: string, p: T.Planned) {
    && RuleIs(v.policy, principals, p.host, p.flakelet, p.rule)
    && ((exists h, f | Parts(t, h, f) ::
           && p.flakelet == f
           && if '*' in h || h[0] == '@' then
                && p.target == p.host + "/" + f
                && (exists k | 0 <= k < |v.policy.agents| :: v.policy.agents[k].0 == p.host)
                && Covers(v.policy, h, p.host) && Granted(v.policy, principals, p.host, f)
                && (p.offline <==> p.host !in v.connected)
                && (p.host in v.connected ==> f in v.connected[p.host])
              else p.target == t && p.host == h && !p.offline)
        || ((forall h, f :: !Parts(t, h, f)) && p.target == t && p.host == "" && p.flakelet == "" && !p.offline))
  }

  lemma PartsIff(t: string)
    ensures SplitTarget(t).Some? ==> Parts(t, PartsOf(t).0, PartsOf(t).1)
    ensures SplitTarget(t).None? ==> PartsOf(t) == ("", "")
    ensures forall h, f | Parts(t, h, f) :: SplitTarget(t) == Some((h, f)) && PartsOf(t) == (h, f)
  {
    forall h, f | Parts(t, h, f) ensures SplitTarget(t) == Some((h, f)) {
      SplitIff(t, h, f);
    }
    if SplitTarget(t).Some? { SplitIff(t, PartsOf(t).0, PartsOf(t).1); }
  }

  lemma RuleIff(v: View, principals: seq<string>, host: string, flakelet: string, rule: string)
    ensures RuleIs(v.policy, principals, host, flakelet, rule) <==> RuleName(v, principals, host, flakelet) == rule
    ensures Granted(v.policy, principals, host, flakelet) <==> RuleFor(v.policy, principals, host, flakelet).Some?
  {
    RuleForIff(v.policy, principals, host, flakelet);
    hide RuleFor, Grants;
  }

  lemma {:induction false} HostIn(v: View, principals: seq<string>, pattern: string, flakelet: string, offline: bool,
                                  n: nat, h: string)
    requires n <= |v.policy.agents|
    ensures h in Hosts(v, principals, pattern, flakelet, offline, n) <==>
      && (exists k | 0 <= k < n :: v.policy.agents[k].0 == h)
      && HostMatches(v.policy, pattern, h) && RuleFor(v.policy, principals, h, flakelet).Some?
      && (if offline then h !in v.connected else h in v.connected && flakelet in v.connected[h])
  {
    hide HostMatches, RuleFor, Hosts;
    if n == 0 {
      HostsNone(v, principals, pattern, flakelet);
    } else {
      HostsMore(v, principals, pattern, flakelet, n - 1);
      HostIn(v, principals, pattern, flakelet, offline, n - 1, h);
    }
  }

  lemma {:induction false} TaggedAt(hosts: seq<string>, offline: bool)
    ensures |Tagged(hosts, offline)| == |hosts|
    ensures forall k | 0 <= k < |hosts| :: Tagged(hosts, offline)[k] == (hosts[k], offline)
  {
    if hosts != [] { TaggedAt(hosts[..|hosts| - 1], offline); }
  }

  lemma HostOf(v: View, principals: seq<string>, t: string, h: (string, bool))
    ensures h in HostsOf(v, principals, t) <==>
      var (host, flakelet) := PartsOf(t);
      if IsPattern(host) then h.0 in Hosts(v, principals, host, flakelet, h.1, |v.policy.agents|)
      else h == (host, false)
  {
    hide Hosts, Tagged, PartsOf;
    var (host, flakelet) := PartsOf(t);
    if IsPattern(host) {
      var n := |v.policy.agents|;
      var live, offline := Hosts(v, principals, host, flakelet, false, n),
        Hosts(v, principals, host, flakelet, true, n);
      TaggedAt(live, false);
      TaggedAt(offline, true);
      var a, b := Tagged(live, false), Tagged(offline, true);
      if k :| 0 <= k < |live| && live[k] == h.0 && !h.1 { assert a[k] == h; }
      if k :| 0 <= k < |offline| && offline[k] == h.0 && h.1 { assert b[k] == h; }
    }
  }

  lemma {:induction false} NaiveAt(v: View, principals: seq<string>, t: string, hosts: seq<(string, bool)>)
    ensures |Naive(v, principals, t, hosts)| == |hosts|
    ensures forall k | 0 <= k < |hosts| :: Naive(v, principals, t, hosts)[k] == PlannedFor(v, principals, t, hosts[k])
  {
    hide PlannedFor;
    if hosts != [] { NaiveAt(v, principals, t, hosts[..|hosts| - 1]); }
  }

  lemma PatternIff(h: string)
    requires h != ""
    ensures IsPattern(h) <==> '*' in h || h[0] == '@'
    ensures !IsPattern("")
  {
  }

  lemma PlannedAsked(v: View, principals: seq<string>, t: string, p: T.Planned)
    ensures Asks(v, principals, t, p) <==>
      (p.host, p.offline) in HostsOf(v, principals, t) && p == PlannedFor(v, principals, t, (p.host, p.offline))
  {
    PartsIff(t);
    RuleIff(v, principals, p.host, p.flakelet, p.rule);
    HostOf(v, principals, t, (p.host, p.offline));
    var (host, flakelet) := PartsOf(t);
    HostIn(v, principals, host, flakelet, p.offline, |v.policy.agents|, p.host);
    CoversIff(v.policy, host, p.host);
    if host != "" { PatternIff(host); }
    hide HostsOf, Hosts, RuleFor, RuleIs, RuleName, Granted, Covers, HostMatches, IsPattern, SplitTarget, PartsOf;
  }

  lemma AskedIff(v: View, principals: seq<string>, t: string, p: T.Planned)
    ensures p in Naive(v, principals, t, HostsOf(v, principals, t)) <==> Asks(v, principals, t, p)
  {
    hide Naive, HostsOf, PlannedFor, Asks;
    var hosts := HostsOf(v, principals, t);
    NaiveAt(v, principals, t, hosts);
    PlannedAsked(v, principals, t, p);
    HostKept(v, principals, t);
    var naive := Naive(v, principals, t, hosts);
    if k :| 0 <= k < |hosts| && hosts[k] == (p.host, p.offline) && naive[k] == p {
      assert naive[k] in naive;
    }
  }

  lemma HostKept(v: View, principals: seq<string>, t: string)
    ensures forall h :: PlannedFor(v, principals, t, h).host == h.0 && PlannedFor(v, principals, t, h).offline == h.1
  {
  }

  // ----- the order of a wave -----

  /** Hosts that are connected come before those that are not, and either in the
      order of the configuration. */
  ghost predicate Ahead(v: View, p: T.Planned, q: T.Planned) {
    || (!p.offline && q.offline)
    || (p.offline == q.offline && exists x, y | 0 <= x < y < |v.policy.agents| ::
          v.policy.agents[x].0 == p.host && v.policy.agents[y].0 == q.host)
  }

  lemma {:induction false} HostsInOrder(v: View, principals: seq<string>, pattern: string, flakelet: string,
                                        offline: bool, n: nat) returns (at: seq<nat>)
    requires n <= |v.policy.agents|
    ensures var hosts := Hosts(v, principals, pattern, flakelet, offline, n);
      && |at| == |hosts|
      && (forall i | 0 <= i < |at| :: at[i] < n && v.policy.agents[at[i]].0 == hosts[i])
      && (forall i, j | 0 <= i < j < |at| :: at[i] < at[j])
  {
    hide HostMatches, RuleFor, Hosts;
    at := [];
    HostsNone(v, principals, pattern, flakelet);
    if n > 0 {
      HostsMore(v, principals, pattern, flakelet, n - 1);
      at := HostsInOrder(v, principals, pattern, flakelet, offline, n - 1);
      if |Hosts(v, principals, pattern, flakelet, offline, n)| > |at| { at := at + [n - 1]; }
    }
  }

  lemma HostsAhead(v: View, principals: seq<string>, t: string)
    ensures var hosts := HostsOf(v, principals, t);
      forall i, j | 0 <= i < j < |hosts| :: Ahead(v, PlannedFor(v, principals, t, hosts[i]),
                                                  PlannedFor(v, principals, t, hosts[j]))
  {
    hide PlannedFor, PartsOf, Hosts, Tagged;
    HostKept(v, principals, t);
    var (host, flakelet) := PartsOf(t);
    if IsPattern(host) {
      var n := |v.policy.agents|;
      var live, offline := Hosts(v, principals, host, flakelet, false, n),
        Hosts(v, principals, host, flakelet, true, n);
      var a := HostsInOrder(v, principals, host, flakelet, false, n);
      var b := HostsInOrder(v, principals, host, flakelet, true, n);
      TaggedAt(live, false);
      TaggedAt(offline, true);
    }
  }

  /** What one target of a request stands for, in order. */
  ghost predicate OneFrom(v: View, principals: seq<string>, t: string, ps: seq<T.Planned>) {
    && (forall i, j | 0 <= i < j < |ps| :: Ahead(v, ps[i], ps[j]))
    && (forall i | 0 <= i < |ps| :: Asks(v, principals, t, ps[i]))
  }

  lemma NaiveAhead(v: View, principals: seq<string>, t: string)
    ensures OneFrom(v, principals, t, Naive(v, principals, t, HostsOf(v, principals, t)))
  {
    hide PlannedFor, HostsOf, Naive, Ahead, Asks;
    NaiveAt(v, principals, t, HostsOf(v, principals, t));
    HostsAhead(v, principals, t);
    var ps := Naive(v, principals, t, HostsOf(v, principals, t));
    forall i | 0 <= i < |ps| ensures Asks(v, principals, t, ps[i]) {
      AskedIff(v, principals, t, ps[i]);
    }
  }

  /** Where the targets of a wave come from: `src` names the target of the request
      each stands for. */
  ghost predicate From(v: View, principals: seq<string>, ts: seq<string>, ps: seq<T.Planned>, src: seq<nat>) {
    && |src| == |ps|
    && (forall i | 0 <= i < |ps| :: src[i] < |ts| && Asks(v, principals, ts[src[i]], ps[i]))
    && (forall i, j | 0 <= i < j < |ps| :: src[i] < src[j] || (src[i] == src[j] && Ahead(v, ps[i], ps[j])))
  }

  lemma FromMore(v: View, principals: seq<string>, ts: seq<string>, ps: seq<T.Planned>, src: seq<nat>, t: string,
                 more: seq<T.Planned>)
    requires From(v, principals, ts, ps, src) && OneFrom(v, principals, t, more)
    ensures From(v, principals, ts + [t], ps + more, src + seq(|more|, _ => |ts|))
  {
    hide Ahead, Asks;
  }

  lemma WaveMore(v: View, principals: seq<string>, ts: seq<string>, t: string)
    ensures NaiveWave(v, principals, ts + [t]) ==
      NaiveWave(v, principals, ts) + Naive(v, principals, t, HostsOf(v, principals, t))
  {
    hide Naive, HostsOf;
    var all := ts + [t];
    NaiveWaveMore(v, principals, all, |ts|);
    assert all[..|ts| + 1] == all && all[..|ts|] == ts;
  }

  lemma {:induction false} WaveFrom(v: View, principals: seq<string>, ts: seq<string>) returns (src: seq<nat>)
    ensures From(v, principals, ts, NaiveWave(v, principals, ts), src)
    ensures forall m | 0 <= m <= |ts| :: SplitAt(v, principals, ts, src, m)
  {
    hide *;
    if ts == [] {
      src := [];
      NothingExpanded(v, principals, {});
      FromNothing(v, principals);
      assert SplitAt(v, principals, ts, src, 0) by { SplitNothing(v, principals); }
    } else {
      var front, t := ts[..|ts| - 1], ts[|ts| - 1];
      assert ts == front + [t];
      var was := WaveFrom(v, principals, front);
      NaiveAhead(v, principals, t);
      var own := Naive(v, principals, t, HostsOf(v, principals, t));
      WaveMore(v, principals, front, t);
      FromMore(v, principals, front, NaiveWave(v, principals, front), was, t, own);
      src := was + seq(|own|, _ => |front|);
      forall m | 0 <= m <= |ts| ensures SplitAt(v, principals, ts, src, m) {
        SplitMore(v, principals, front, was, t, m);
      }
    }
  }

  /** What the first `m` targets of a request ask for comes first. */
  ghost predicate SplitAt(v: View, principals: seq<string>, ts: seq<string>, src: seq<nat>, m: nat)
    requires m <= |ts|
  {
    && NaiveWave(v, principals, ts[..m]) <= NaiveWave(v, principals, ts) && |src| == |NaiveWave(v, principals, ts)|
    && forall x | 0 <= x < |src| :: x < |NaiveWave(v, principals, ts[..m])| <==> src[x] < m
  }

  lemma SplitNothing(v: View, principals: seq<string>)
    ensures SplitAt(v, principals, [], [], 0)
  {
  }

  lemma SplitMore(v: View, principals: seq<string>, ts: seq<string>, src: seq<nat>, t: string, m: nat)
    requires m <= |ts| + 1 && SplitAt(v, principals, ts, src, |ts|)
    requires m <= |ts| ==> SplitAt(v, principals, ts, src, m)
    ensures var own := Naive(v, principals, t, HostsOf(v, principals, t));
      SplitAt(v, principals, ts + [t], src + seq(|own|, _ => |ts|), m)
  {
    hide Naive, HostsOf, NaiveWave;
    var all := ts + [t];
    WaveMore(v, principals, ts, t);
    assert ts[..|ts|] == ts;
    if m <= |ts| { assert all[..m] == ts[..m]; } else { assert all[..m] == all; }
  }

  lemma FromNothing(v: View, principals: seq<string>)
    ensures From(v, principals, [], [], [])
  {
  }

  /** Some of these ask for a target of this name. */
  ghost predicate AskedIn(v: View, principals: seq<string>, ts: seq<string>, name: string) {
    exists t, p :: t in ts && Asks(v, principals, t, p) && p.target == name
  }

  lemma {:induction false} NamesAsked(v: View, principals: seq<string>, ts: seq<string>, name: string)
    ensures name in NamesOf(NaiveWave(v, principals, ts)) <==> AskedIn(v, principals, ts, name)
  {
    hide Asks, Naive, HostsOf, NamesOf;
    if ts == [] {
      NothingExpanded(v, principals, {});
      NoNames();
    } else {
      var front, t := ts[..|ts| - 1], ts[|ts| - 1];
      assert ts == front + [t];
      NamesAsked(v, principals, front, name);
      var own := Naive(v, principals, t, HostsOf(v, principals, t));
      NamesJoined(NaiveWave(v, principals, front), own);
      NameOf(own, name);
      forall p ensures p in own <==> Asks(v, principals, t, p) {
        AskedIff(v, principals, t, p);
      }
    }
  }

  lemma NoNames()
    ensures NamesOf([]) == {}
  {
  }

  lemma NameOf(ps: seq<T.Planned>, name: string)
    ensures name in NamesOf(ps) <==> exists p :: p in ps && p.target == name
  {
  }

  // ----- first occurrences -----

  /** `at` are the places of the first occurrences of names that are new. */
  ghost predicate Picks(seen: set<string>, ps: seq<T.Planned>, at: seq<nat>) {
    && (forall i | 0 <= i < |at| :: at[i] < |ps|)
    && (forall i, j | 0 <= i < j < |at| :: at[i] < at[j])
    && forall k | 0 <= k < |ps| :: k in at <==> New(seen, ps, k)
  }

  /** Nothing before has the name. */
  predicate New(seen: set<string>, ps: seq<T.Planned>, k: nat)
    requires k < |ps|
  {
    ps[k].target !in seen && forall j | 0 <= j < k :: ps[j].target != ps[k].target
  }

  lemma StillNew(seen: set<string>, ps: seq<T.Planned>, p: T.Planned, k: nat)
    requires k < |ps|
    ensures New(seen, ps + [p], k) <==> New(seen, ps, k)
  {
    var more := ps + [p];
    assert forall j | 0 <= j <= k :: more[j] == ps[j];
  }

  lemma PicksMore(seen: set<string>, ps: seq<T.Planned>, at: seq<nat>, p: T.Planned)
    requires Picks(seen, ps, at)
    ensures Picks(seen, ps + [p], at + if New(seen, ps + [p], |ps|) then [|ps|] else [])
  {
    hide New;
    forall k | 0 <= k < |ps| ensures New(seen, ps + [p], k) <==> New(seen, ps, k) {
      StillNew(seen, ps, p, k);
    }
  }

  lemma {:induction false} FreshPicks(seen: set<string>, ps: seq<T.Planned>) returns (at: seq<nat>)
    ensures Picks(seen, ps, at) && |Fresh(seen, ps)| == |at|
    ensures forall i | 0 <= i < |at| :: Fresh(seen, ps)[i] == ps[at[i]]
  {
    hide Picks, NamesOf, New;
    if ps == [] {
      at := [];
      NothingPicked(seen);
    } else {
      var front, p := ps[..|ps| - 1], ps[|ps| - 1];
      assert ps == front + [p];
      at := FreshPicks(seen, front);
      PicksMore(seen, front, at, p);
      PickedIn(seen, front, at);
      NewIff(seen, front, p);
      if p.target !in seen && p.target !in NamesOf(front) { at := at + [|front|]; }
    }
  }

  lemma NewIff(seen: set<string>, ps: seq<T.Planned>, p: T.Planned)
    ensures New(seen, ps + [p], |ps|) <==> p.target !in seen && p.target !in NamesOf(ps)
  {
    NamedAt(ps, p.target);
    hide NamesOf;
    assert forall j | 0 <= j < |ps| :: (ps + [p])[j] == ps[j];
  }

  lemma NothingPicked(seen: set<string>)
    ensures Picks(seen, [], [])
  {
  }

  lemma PickedIn(seen: set<string>, ps: seq<T.Planned>, at: seq<nat>)
    requires Picks(seen, ps, at)
    ensures forall i | 0 <= i < |at| :: at[i] < |ps|
    ensures at + [] == at
  {
  }

  lemma NamedAt(ps: seq<T.Planned>, name: string)
    ensures name in NamesOf(ps) <==> exists k | 0 <= k < |ps| :: ps[k].target == name
  {
    NameOf(ps, name);
    hide NamesOf;
  }

  // ----- the plan -----

  /** Nothing before the `n`-th target of the `k`-th wave asks for the name. */
  ghost predicate NewAt(v: View, principals: seq<string>, waves: seq<seq<string>>, k: nat, n: nat, name: string)
    requires k < |waves| && n <= |waves[k]|
  {
    && !AskedIn(v, principals, waves[k][..n], name)
    && forall j | 0 <= j < k :: !AskedIn(v, principals, waves[j], name)
  }

  /** The plan of a wave: each target is one some target of the request asks for
      that nothing before it asked for, in the order of the request, and nothing
      asked for is left out. */
  ghost predicate AsAsked(v: View, principals: seq<string>, waves: seq<seq<string>>, k: nat, plan: seq<T.Planned>,
                          src: seq<nat>)
    requires k < |waves|
  {
    && From(v, principals, waves[k], plan, src)
    && (forall i | 0 <= i < |plan| :: NewAt(v, principals, waves, k, src[i], plan[i].target))
    && forall name | AskedIn(v, principals, waves[k], name) ::
         || (exists i :: 0 <= i < |plan| && plan[i].target == name)
         || exists j :: 0 <= j < k && AskedIn(v, principals, waves[j], name)
  }

  lemma PickedFrom(v: View, principals: seq<string>, ts: seq<string>, ps: seq<T.Planned>, all: seq<nat>,
                   seen: set<string>, at: seq<nat>, plan: seq<T.Planned>)
    requires From(v, principals, ts, ps, all) && Picks(seen, ps, at) && |plan| == |at|
    requires forall i | 0 <= i < |at| :: at[i] < |ps| && plan[i] == ps[at[i]]
    ensures From(v, principals, ts, plan, seq(|at|, i requires 0 <= i < |at| && at[i] < |all| => all[at[i]]))
  {
    hide Asks, Ahead;
  }

  lemma PickedNew(v: View, principals: seq<string>, ts: seq<string>, all: seq<nat>, seen: set<string>, at: seq<nat>,
                  i: nat)
    requires var ps := NaiveWave(v, principals, ts);
      Picks(seen, ps, at) && |all| == |ps| && i < |at| && at[i] < |ps|
    requires all[at[i]] <= |ts| && SplitAt(v, principals, ts, all, all[at[i]])
    ensures var p := NaiveWave(v, principals, ts)[at[i]];
      !AskedIn(v, principals, ts[..all[at[i]]], p.target) && p.target !in seen
  {
    hide AskedIn, NaiveWave, NamesOf;
    var ps, m := NaiveWave(v, principals, ts), all[at[i]];
    var p, before := ps[at[i]], NaiveWave(v, principals, ts[..m]);
    NamesAsked(v, principals, ts[..m], p.target);
    NamedAt(before, p.target);
    assert at[i] in at;
    assert forall x | 0 <= x < |before| :: before[x] == ps[x];
  }

  /** The plan of each wave is as the request asks, whatever is asked twice or
      matched by several patterns. */
  lemma PlanIsAsked(v: View, principals: seq<string>, waves: seq<seq<string>>, k: nat) returns (src: seq<nat>)
    requires k < |waves|
    ensures var plan := Expanded(v, principals, waves);
      |plan| == |waves| && AsAsked(v, principals, waves, k, plan[k], src)
  {
    hide Expanded, NaiveWave, Fresh, Picks, From, SplitAt, AskedIn, NamesBefore, NamesOf;
    var ts, seen := waves[k], NamesBefore(v, principals, waves[..k]);
    var ps := NaiveWave(v, principals, ts);
    ExpandedWave(v, principals, waves, k);
    var all := WaveFrom(v, principals, ts);
    FromIs(v, principals, ts, ps, all);
    var at := FreshPicks(seen, ps);
    PickedIn(seen, ps, at);
    var plan := Expanded(v, principals, waves)[k];
    PickedFrom(v, principals, ts, ps, all, seen, at, plan);
    src := seq(|at|, i requires 0 <= i < |at| && at[i] < |all| => all[at[i]]);
    forall name ensures name in seen <==> exists j :: 0 <= j < k && AskedIn(v, principals, waves[j], name) {
      SeenIff(v, principals, waves, k, name);
    }
    forall i | 0 <= i < |plan| ensures NewAt(v, principals, waves, k, src[i], plan[i].target) {
      PickedNew(v, principals, ts, all, seen, at, i);
    }
    forall name | AskedIn(v, principals, ts, name)
      ensures (exists i :: 0 <= i < |plan| && plan[i].target == name) || name in seen
    {
      NamesAsked(v, principals, ts, name);
      FreshNames(seen, ps);
      NamedAt(plan, name);
    }
  }

  lemma FromIs(v: View, principals: seq<string>, ts: seq<string>, ps: seq<T.Planned>, src: seq<nat>)
    requires From(v, principals, ts, ps, src)
    ensures |src| == |ps| && forall i | 0 <= i < |src| :: src[i] < |ts|
  {
    hide Asks, Ahead;
  }

  lemma SeenIff(v: View, principals: seq<string>, waves: seq<seq<string>>, k: nat, name: string)
    requires k < |waves|
    ensures name in NamesBefore(v, principals, waves[..k]) <==>
      exists j :: 0 <= j < k && AskedIn(v, principals, waves[j], name)
  {
    hide AskedIn, NaiveWave, NamesOf;
    NamesBeforeAre(v, principals, waves[..k], name);
    forall j | 0 <= j < k
      ensures waves[..k][j] == waves[j]
      ensures name in NamesOf(NaiveWave(v, principals, waves[j])) <==> AskedIn(v, principals, waves[j], name)
    {
      NamesAsked(v, principals, waves[j], name);
    }
  }

  // ----- refusals -----

  /** What is wrong with a planned target. */
  ghost predicate Bad(v: View, code: Code, p: T.Planned) {
    match code
    case BadTarget => p.host == ""
    case TargetDenied => p.rule == ""
    case UnknownHost => forall k | 0 <= k < |v.policy.agents| :: v.policy.agents[k].0 != p.host
    case AgentUnavailable => !p.offline && (p.host in v.connected ==> p.flakelet !in v.connected[p.host])
  }

  /** Which is looked for first. */
  function Rank(code: Code): nat {
    match code case BadTarget => 0 case TargetDenied => 1 case UnknownHost => 2 case AgentUnavailable => 3
  }

  ghost predicate SomeBad(v: View, waves: seq<seq<T.Planned>>, code: Code) {
    exists k, i | 0 <= k < |waves| && 0 <= i < |waves[k]| :: Bad(v, code, waves[k][i])
  }

  /** The code that refuses the plan, the first that anything fails for. */
  ghost predicate Decides(v: View, waves: seq<seq<T.Planned>>, code: Code) {
    SomeBad(v, waves, code) && forall c: Code | Rank(c) < Rank(code) :: !SomeBad(v, waves, c)
  }

  /** The names of the targets that fail, wave by wave: `at` is where each was
      planned. */
  ghost predicate NamesBad(v: View, waves: seq<seq<T.Planned>>, code: Code, names: seq<string>,
                           at: seq<(nat, nat)>)
  {
    && |names| == |at|
    && (forall n | 0 <= n < |at| ::
          && at[n].0 < |waves| && at[n].1 < |waves[at[n].0]|
          && names[n] == waves[at[n].0][at[n].1].target)
    && (forall n, m | 0 <= n < m < |at| :: at[n].0 < at[m].0 || (at[n].0 == at[m].0 && at[n].1 < at[m].1))
    && AllBadIn(v, waves, code, at)
  }

  ghost predicate AllBadIn(v: View, waves: seq<seq<T.Planned>>, code: Code, at: seq<(nat, nat)>) {
    forall k, i | 0 <= k < |waves| && 0 <= i < |waves[k]| :: Bad(v, code, waves[k][i]) <==> (k, i) in at
  }

  lemma OneMoreIn(v: View, waves: seq<seq<T.Planned>>, wave: seq<T.Planned>, p: T.Planned, code: Code,
                  at: seq<(nat, nat)>)
    requires AllBadIn(v, waves + [wave], code, at) && (|waves|, |wave|) !in at
    ensures AllBadIn(v, waves + [wave + [p]], code, at + if Bad(v, code, p) then [(|waves|, |wave|)] else [])
  {
    hide Bad;
    var was, more := waves + [wave], waves + [wave + [p]];
    forall k, i | 0 <= k < |more| && 0 <= i < |more[k]| && (k, i) != (|waves|, |wave|)
      ensures k < |was| && i < |was[k]| && more[k][i] == was[k][i]
    {
    }
  }

  lemma BadIff(v: View, code: Code, p: T.Planned)
    ensures Fails(v, code, p) <==> Bad(v, code, p)
  {
  }

  lemma {:induction false} WaveNamesBad(v: View, code: Code, waves: seq<seq<T.Planned>>, wave: seq<T.Planned>,
                                        names: seq<string>, at: seq<(nat, nat)>) returns (all: seq<(nat, nat)>)
    requires NamesBad(v, waves, code, names, at)
    ensures NamesBad(v, waves + [wave], code, names + FailNames(v, code, wave), all)
  {
    hide Bad, Fails, NamesBad, FailNames;
    if wave == [] {
      all := at;
      NoneAdded(v, code, waves, names, at);
    } else {
      var front, p := wave[..|wave| - 1], wave[|wave| - 1];
      assert wave == front + [p];
      var some := WaveNamesBad(v, code, waves, front, names, at);
      var before := names + FailNames(v, code, front);
      var name := if Bad(v, code, p) then [p.target] else [];
      OneMoreBad(v, code, waves, front, p, before, some);
      BadIff(v, code, p);
      FailMore(v, code, front, p);
      assert names + (FailNames(v, code, front) + name) == before + name;
      all := some + if Bad(v, code, p) then [(|waves|, |front|)] else [];
    }
  }

  lemma NoneAdded(v: View, code: Code, waves: seq<seq<T.Planned>>, names: seq<string>, at: seq<(nat, nat)>)
    requires NamesBad(v, waves, code, names, at)
    ensures NamesBad(v, waves + [[]], code, names + FailNames(v, code, []), at)
  {
    assert names + FailNames(v, code, []) == names;
    hide Bad;
    var more := waves + [[]];
    assert forall k | 0 <= k < |waves| :: more[k] == waves[k];
  }

  lemma OneMoreBad(v: View, code: Code, waves: seq<seq<T.Planned>>, wave: seq<T.Planned>, p: T.Planned,
                   names: seq<string>, at: seq<(nat, nat)>)
    requires NamesBad(v, waves + [wave], code, names, at)
    ensures NamesBad(v, waves + [wave + [p]], code, names + if Bad(v, code, p) then [p.target] else [],
                     at + if Bad(v, code, p) then [(|waves|, |wave|)] else [])
  {
    hide Bad, AllBadIn;
    var was, more := waves + [wave], waves + [wave + [p]];
    assert forall k | 0 <= k < |waves| :: more[k] == was[k];
    assert more[|waves|] == wave + [p] && was[|waves|] == wave;
    assert forall n | 0 <= n < |at| :: at[n].0 < |waves| || (at[n].0 == |waves| && at[n].1 < |wave|);
    OneMoreIn(v, waves, wave, p, code, at);
  }

  lemma {:induction false} AllNamesBad(v: View, code: Code, waves: seq<seq<T.Planned>>)
    returns (at: seq<(nat, nat)>)
    ensures NamesBad(v, waves, code, FailNames(v, code, FlatPlan(waves)), at)
  {
    hide NamesBad, FailNames;
    if waves == [] {
      at := [];
      assert FlatPlan(waves) == [];
      NoNamesBad(v, code);
    } else {
      var front, wave := waves[..|waves| - 1], waves[|waves| - 1];
      assert waves == front + [wave];
      at := AllNamesBad(v, code, front);
      FailNamesJoined(v, code, FlatPlan(front), wave);
      at := WaveNamesBad(v, code, front, wave, FailNames(v, code, FlatPlan(front)), at);
    }
  }

  lemma NoNamesBad(v: View, code: Code)
    ensures NamesBad(v, [], code, FailNames(v, code, []), [])
  {
  }

  lemma BadNamed(v: View, waves: seq<seq<T.Planned>>, code: Code, names: seq<string>, at: seq<(nat, nat)>)
    requires NamesBad(v, waves, code, names, at)
    ensures names != [] <==> SomeBad(v, waves, code)
  {
    hide Bad;
    if names != [] { assert at[0] in at && Bad(v, code, waves[at[0].0][at[0].1]); }
  }

  /** Whether anything is asked for. */
  ghost predicate AsksNothing(v: View, principals: seq<string>, waves: seq<seq<string>>) {
    forall k, name | 0 <= k < |waves| :: !AskedIn(v, principals, waves[k], name)
  }

  lemma NothingPlanned(v: View, principals: seq<string>, waves: seq<seq<string>>)
    ensures var plan := Expanded(v, principals, waves);
      AsksNothing(v, principals, waves) <==> forall k | 0 <= k < |plan| :: plan[k] == []
  {
    hide Expanded, AskedIn, NaiveWave, NamesOf;
    var plan := Expanded(v, principals, waves);
    ExpandedLength(v, principals, waves);
    forall k, name | 0 <= k < |waves|
      ensures name in NamesOf(plan[k]) ==> AskedIn(v, principals, waves[k], name)
      ensures AskedIn(v, principals, waves[k], name) ==>
        name in NamesOf(plan[k]) || exists j | 0 <= j < k :: AskedIn(v, principals, waves[j], name)
    {
      EarliestWaveOnly(v, principals, waves, k, name);
      NamesAsked(v, principals, waves[k], name);
      forall j | 0 <= j < k
        ensures name in NamesOf(NaiveWave(v, principals, waves[j])) <==> AskedIn(v, principals, waves[j], name)
      {
        NamesAsked(v, principals, waves[j], name);
      }
    }
    if AsksNothing(v, principals, waves) {
      forall k | 0 <= k < |plan| ensures plan[k] == [] {
        if plan[k] != [] { NamedAt(plan[k], plan[k][0].target); }
      }
    } else if forall k | 0 <= k < |plan| :: plan[k] == [] {
      NoNames();
      var k, name :| 0 <= k < |waves| && AskedIn(v, principals, waves[k], name);
      NotAsked(v, principals, waves, k, name);
    }
  }

  lemma {:induction false} NotAsked(v: View, principals: seq<string>, waves: seq<seq<string>>, k: nat, name: string)
    requires k < |waves|
    requires forall k | 0 <= k < |waves| && AskedIn(v, principals, waves[k], name) ::
      exists j | 0 <= j < k :: AskedIn(v, principals, waves[j], name)
    ensures !AskedIn(v, principals, waves[k], name)
  {
    hide AskedIn;
    if AskedIn(v, principals, waves[k], name) {
      var j :| 0 <= j < k && AskedIn(v, principals, waves[j], name);
      NotAsked(v, principals, waves, j, name);
    }
  }

  /** A request is refused for its form first, then if nothing it asks for may be
      deployed, and then for the first thing that is wrong with any target, with
      the names of all targets it is wrong with. Otherwise it is accepted. */
  lemma RefusedFor(v: View, principals: seq<string>, request: Request)
    returns (at: seq<(nat, nat)>, code: Code)
    ensures var r, plan := Answer(v, principals, request), Expanded(v, principals, request.waves);
      if request.id == "" || forall k | 0 <= k < |request.waves| :: request.waves[k] == [] then r == Err(BadRequest)
      else if request.options != [] then r == Err(UnsupportedOption(request.options[0]))
      else if AsksNothing(v, principals, request.waves) then r == Err(NoTargets)
      else if exists c: Code :: SomeBad(v, plan, c) then
        && r.Err? && r.error.Check? && r.error.code == code && Decides(v, plan, code)
        && NamesBad(v, plan, code, r.error.targets, at)
      else r == Ok(plan)
  {
    hide Expanded, FlatPlan, FailNames, NamesBad, SomeBad;
    var plan := Expanded(v, principals, request.waves);
    NothingPlanned(v, principals, request.waves);
    hide AsksNothing;
    TheChecks();
    forall c: Code ensures FailNames(v, c, FlatPlan(plan)) != [] <==> SomeBad(v, plan, c) {
      var places := AllNamesBad(v, c, plan);
      BadNamed(v, plan, c, FailNames(v, c, FlatPlan(plan)), places);
    }
    code := FirstBad(v, plan);
    at := AllNamesBad(v, code, plan);
    ChecksAre(v, FlatPlan(plan));
    hide Checked;
    if exists c: Code :: SomeBad(v, plan, c) {
      assert forall c: Code | Rank(c) < Rank(code) :: FailNames(v, c, FlatPlan(plan)) == [];
      assert Checked(v, FlatPlan(plan), 0) == Some(Check(code, FailNames(v, code, FlatPlan(plan)))) by {
        match code { case BadTarget => case TargetDenied => case UnknownHost => case AgentUnavailable => }
      }
    } else {
      assert Checked(v, FlatPlan(plan), 0).None?;
    }
  }

  lemma FirstBad(v: View, plan: seq<seq<T.Planned>>) returns (code: Code)
    ensures (exists c: Code :: SomeBad(v, plan, c)) ==> Decides(v, plan, code)
  {
    hide SomeBad;
    code :=
      if SomeBad(v, plan, BadTarget) then BadTarget
      else if SomeBad(v, plan, TargetDenied) then TargetDenied
      else if SomeBad(v, plan, UnknownHost) then UnknownHost
      else AgentUnavailable;
    forall c: Code | SomeBad(v, plan, c) ensures SomeBad(v, plan, code) && Rank(code) <= Rank(c) {
      match c { case BadTarget => case TargetDenied => case UnknownHost => case AgentUnavailable => }
    }
  }

  lemma ChecksAre(v: View, ps: seq<T.Planned>)
    ensures var bad, denied, unknown, unavailable := FailNames(v, BadTarget, ps), FailNames(v, TargetDenied, ps),
        FailNames(v, UnknownHost, ps), FailNames(v, AgentUnavailable, ps);
      Checked(v, ps, 0) ==
        if bad != [] then Some(Check(BadTarget, bad))
        else if denied != [] then Some(Check(TargetDenied, denied))
        else if unknown != [] then Some(Check(UnknownHost, unknown))
        else if unavailable != [] then Some(Check(AgentUnavailable, unavailable))
        else None
  {
    hide FailNames;
    TheChecks();
    assert Checked(v, ps, 4).None?;
    assert Checked(v, ps, 0) == Checked(v, ps, 0);
    var unknown := FailNames(v, UnknownHost, ps);
    assert Checked(v, ps, 2) == if unknown != [] then Some(Check(UnknownHost, unknown)) else Checked(v, ps, 3);
  }
}
