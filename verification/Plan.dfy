/** From a deploy request to the targets of each wave (src/relay/api.rs, expand
    and plan; src/relay/state.rs, expand and has_flakelet). */
module Plans {
  import opened Wrappers
  import opened Text
  import opened Telling
  import opened Policies

  /** What planning looks at: the policy, and the flakelets that connected hosts
      advertise. */
  datatype View = View(policy: Policy, connected: map<string, seq<string>>)

  datatype Request = Request(id: string, waves: seq<seq<string>>, options: seq<string>)

  datatype Code = BadTarget | TargetDenied | UnknownHost | AgentUnavailable

  datatype Refusal = BadRequest | UnsupportedOption(option: string) | NoTargets | Check(code: Code,
                                                    targets: seq<string>)

  // ----- targets -----

  /** `host/flakelet`, with exactly one slash and neither part empty. */
  function SplitTarget(t: string): Option<(string, string)> {
    match SplitOnce(t, '/')
    case None => None
    case Some((h, f)) => if h != "" && f != "" && '/' !in f then Some((h, f)) else None
  }

  function PartsOf(t: string): (string, string) {
    if SplitTarget(t).Some? then SplitTarget(t).value else ("", "")
  }

  predicate IsPattern(host: string) {
    '*' in host || "@" <= host
  }

  function RuleName(v: View, principals: seq<string>, host: string, flakelet: string): string {
    match RuleFor(v.policy, principals, host, flakelet) case Some(name) => name case None => ""
  }

  predicate Advertises(v: View, host: string, flakelet: string) {
    host in v.connected && flakelet in v.connected[host]
  }

  /** Among the first `n` configured hosts, those a pattern stands for: allowed
      by policy and either connected with the flakelet or not connected. */
  function Hosts(v: View, principals: seq<string>, pattern: string, flakelet: string, offline: bool,
                 n: nat): seq<string>
    requires n <= |v.policy.agents|
  {
    if n == 0 then [] else
    var h := v.policy.agents[n - 1].0;
    Hosts(v, principals, pattern, flakelet, offline, n - 1) +
    if HostMatches(v.policy, pattern, h) && RuleFor(v.policy, principals, h, flakelet).Some?
       && (if offline then h !in v.connected else Advertises(v, h, flakelet))
    then [h] else []
  }

  function Tagged(hosts: seq<string>, offline: bool): seq<(string, bool)> {
    if hosts == [] then [] else Tagged(hosts[..|hosts| - 1], offline) + [(hosts[|hosts| - 1], offline)]
  }

  /** The hosts one target of a request stands for. */
  function HostsOf(v: View, principals: seq<string>, t: string): seq<(string, bool)> {
    var (host, flakelet) := PartsOf(t);
    if IsPattern(host) then
      Tagged(Hosts(v, principals, host, flakelet, false, |v.policy.agents|), false)
      + Tagged(Hosts(v, principals, host, flakelet, true, |v.policy.agents|), true)
    else [(host, false)]
  }

  function TargetName(t: string, host: string): string {
    var (h, flakelet) := PartsOf(t);
    if IsPattern(h) then host + "/" + flakelet else t
  }

  function PlannedFor(v: View, principals: seq<string>, t: string, h: (string, bool)): Planned {
    var flakelet := PartsOf(t).1;
    Planned(TargetName(t, h.0), h.0, flakelet, RuleName(v, principals, h.0, flakelet), h.1)
  }

  /** Every host of a target, of the targets of a wave. */
  function Naive(v: View, principals: seq<string>, t: string, hosts: seq<(string, bool)>): seq<Planned> {
    if hosts == [] then [] else
    Naive(v, principals, t, hosts[..|hosts| - 1]) + [PlannedFor(v, principals, t, hosts[|hosts| - 1])]
  }

  function NaiveWave(v: View, principals: seq<string>, ts: seq<string>): seq<Planned> {
    if ts == [] then [] else
    var t := ts[|ts| - 1];
    NaiveWave(v, principals, ts[..|ts| - 1]) + Naive(v, principals, t, HostsOf(v, principals, t))
  }

  function NamesOf(ps: seq<Planned>): set<string> {
    set p | p in ps :: p.target
  }

  /** Those whose name was not there before, neither in the list nor in `seen`. */
  function Fresh(seen: set<string>, ps: seq<Planned>): seq<Planned> {
    if ps == [] then [] else
    var front, p := ps[..|ps| - 1], ps[|ps| - 1];
    Fresh(seen, front) + if p.target in seen || p.target in NamesOf(front) then [] else [p]
  }

  function NamesBefore(v: View, principals: seq<string>, waves: seq<seq<string>>): set<string> {
    if waves == [] then {} else
    NamesBefore(v, principals, waves[..|waves| - 1]) + NamesOf(NaiveWave(v, principals, waves[|waves| - 1]))
  }

  /** The first occurrences in the naive expansion of all waves. */
  function Expanded(v: View, principals: seq<string>, waves: seq<seq<string>>): seq<seq<Planned>> {
    if waves == [] then [] else
    var front := waves[..|waves| - 1];
    Expanded(v, principals, front)
    + [Fresh(NamesBefore(v, principals, front), NaiveWave(v, principals, waves[|waves| - 1]))]
  }

  // ----- one more -----

  lemma FreshMore(seen: set<string>, ps: seq<Planned>, p: Planned)
    ensures Fresh(seen, ps + [p]) == Fresh(seen, ps) + if p.target in seen || p.target in NamesOf(ps) then [] else [p]
    ensures NamesOf(ps + [p]) == NamesOf(ps) + {p.target}
  {
    assert (ps + [p])[..|ps|] == ps;
    assert p in ps + [p] && forall x | x in ps :: x in ps + [p];
  }

  lemma NaiveMore(v: View, principals: seq<string>, t: string, hosts: seq<(string, bool)>, k: nat)
    requires k < |hosts|
    ensures Naive(v, principals, t, hosts[..k + 1])
         == Naive(v, principals, t, hosts[..k]) + [PlannedFor(v, principals, t, hosts[k])]
  {
    assert hosts[..k + 1][..k] == hosts[..k];
  }

  lemma NaiveWaveMore(v: View, principals: seq<string>, ts: seq<string>, k: nat)
    requires k < |ts|
    ensures NaiveWave(v, principals, ts[..k + 1]) ==
      NaiveWave(v, principals, ts[..k]) + Naive(v, principals, ts[k], HostsOf(v, principals, ts[k]))
  {
    assert ts[..k + 1][..k] == ts[..k];
  }

  lemma ExpandedMore(v: View, principals: seq<string>, waves: seq<seq<string>>, k: nat)
    requires k < |waves|
    ensures Expanded(v, principals, waves[..k + 1]) == Expanded(v, principals, waves[..k])
      + [Fresh(NamesBefore(v, principals, waves[..k]), NaiveWave(v, principals, waves[k]))]
    ensures NamesBefore(v, principals, waves[..k + 1]) ==
      NamesBefore(v, principals, waves[..k]) + NamesOf(NaiveWave(v, principals, waves[k]))
  {
    assert waves[..k + 1][..k] == waves[..k];
  }

  // ----- expanding -----

  /** Hosts for a pattern: connected with the flakelet, and not connected. */
  method ExpandPattern(v: View, principals: seq<string>, pattern: string, flakelet: string)
    returns (live: seq<string>, offline: seq<string>)
    ensures live == Hosts(v, principals, pattern, flakelet, false, |v.policy.agents|)
    ensures offline == Hosts(v, principals, pattern, flakelet, true, |v.policy.agents|)
  {
    hide HostMatches, RuleFor, Hosts, Advertises;
    HostsNone(v, principals, pattern, flakelet);
    live, offline := [], [];
    for n := 0 to |v.policy.agents|
      invariant live == Hosts(v, principals, pattern, flakelet, false, n)
      invariant offline == Hosts(v, principals, pattern, flakelet, true, n)
    {
      var h := v.policy.agents[n].0;
      HostsMore(v, principals, pattern, flakelet, n);
      if !HostMatches(v.policy, pattern, h) || RuleFor(v.policy, principals, h, flakelet).None? { continue; }
      if h !in v.connected {
        offline := offline + [h];
      } else if flakelet in v.connected[h] {
        live := live + [h];
      }
    }
  }

  lemma HostsNone(v: View, principals: seq<string>, pattern: string, flakelet: string)
    ensures forall offline :: Hosts(v, principals, pattern, flakelet, offline, 0) == []
  {
  }

  lemma HostsMore(v: View, principals: seq<string>, pattern: string, flakelet: string, n: nat)
    requires n < |v.policy.agents|
    ensures var h := v.policy.agents[n].0;
      forall offline :: Hosts(v, principals, pattern, flakelet, offline, n + 1) ==
        Hosts(v, principals, pattern, flakelet, offline, n) +
        (if HostMatches(v.policy, pattern, h) && RuleFor(v.policy, principals, h, flakelet).Some?
           && (if offline then h !in v.connected else h in v.connected && flakelet in v.connected[h])
         then [h] else [])
  {
    hide HostMatches, RuleFor;
  }

  method TagAll(hosts: seq<string>, offline: bool) returns (r: seq<(string, bool)>)
    ensures r == Tagged(hosts, offline)
  {
    r := [];
    for k := 0 to |hosts|
      invariant r == Tagged(hosts[..k], offline)
    {
      assert hosts[..k + 1][..k] == hosts[..k];
      r := r + [(hosts[k], offline)];
    }
    assert hosts[..|hosts|] == hosts;
  }

  /** Adds the targets a target of the request stands for, unless they are
      already there. */
  method AddTarget(v: View, principals: seq<string>, t: string, seen: set<string>, out: seq<Planned>,
                   ghost before: set<string>, ghost naive: seq<Planned>)
    returns (seen': set<string>, out': seq<Planned>)
    requires seen == before + NamesOf(naive) && out == Fresh(before, naive)
    ensures var all := naive + Naive(v, principals, t, HostsOf(v, principals, t));
      seen' == before + NamesOf(all) && out' == Fresh(before, all)
  {
    hide Fresh, NamesOf, Naive, RuleFor, Hosts, Tagged, IsPattern, SplitTarget;
    var (host, flakelet) := PartsOf(t);
    var hosts;
    if IsPattern(host) {
      var live, offline := ExpandPattern(v, principals, host, flakelet);
      var l := TagAll(live, false);
      var o := TagAll(offline, true);
      hosts := l + o;
    } else {
      hosts := [(host, false)];
    }
    assert hosts == HostsOf(v, principals, t);
    hide HostsOf, PartsOf, PlannedFor;
    seen', out' := seen, out;
    NaiveNone(v, principals, t, naive);
    for k := 0 to |hosts|
      invariant seen' == before + NamesOf(naive + Naive(v, principals, t, hosts[..k]))
      invariant out' == Fresh(before, naive + Naive(v, principals, t, hosts[..k]))
    {
      ghost var so := naive + Naive(v, principals, t, hosts[..k]);
      PlannedIs(v, principals, t, hosts[k]);
      NaiveMore(v, principals, t, hosts, k);
      FreshMore(before, so, PlannedFor(v, principals, t, hosts[k]));
      assert naive + Naive(v, principals, t, hosts[..k + 1]) == so + [PlannedFor(v, principals, t, hosts[k])];
      var (h, offline) := hosts[k];
      var target := if IsPattern(host) then h + "/" + flakelet else t;
      if target in seen' { continue; }
      seen' := seen' + {target};
      out' := out' + [Planned(target, h, flakelet, RuleName(v, principals, h, flakelet), offline)];
    }
    assert hosts[..|hosts|] == hosts;
  }

  lemma NaiveNone(v: View, principals: seq<string>, t: string, naive: seq<Planned>)
    ensures naive + Naive(v, principals, t, []) == naive
  {
  }

  lemma PlannedIs(v: View, principals: seq<string>, t: string, h: (string, bool))
    ensures var (host, flakelet) := PartsOf(t);
      PlannedFor(v, principals, t, h) == Planned(if IsPattern(host) then h.0 + "/" + flakelet else t, h.0, flakelet,
                                               RuleName(v, principals, h.0, flakelet), h.1)
  {
  }

  method Expand(v: View, principals: seq<string>, waves: seq<seq<string>>) returns (out: seq<seq<Planned>>)
    ensures out == Expanded(v, principals, waves)
  {
    hide Fresh, NamesOf, Naive, HostsOf, NaiveWave, NamesBefore, Expanded;
    var seen: set<string> := {};
    out := [];
    NothingExpanded(v, principals, {});
    for w := 0 to |waves|
      invariant seen == NamesBefore(v, principals, waves[..w])
      invariant out == Expanded(v, principals, waves[..w])
    {
      var ts, wave := waves[w], [];
      ghost var before := seen;
      NothingExpanded(v, principals, before);
      for k := 0 to |ts|
        invariant seen == before + NamesOf(NaiveWave(v, principals, ts[..k]))
        invariant wave == Fresh(before, NaiveWave(v, principals, ts[..k]))
      {
        NaiveWaveMore(v, principals, ts, k);
        seen, wave := AddTarget(v, principals, ts[k], seen, wave, before, NaiveWave(v, principals, ts[..k]));
      }
      assert ts[..|ts|] == ts;
      ExpandedMore(v, principals, waves, w);
      out := out + [wave];
    }
    assert waves[..|waves|] == waves;
  }

  lemma NothingExpanded(v: View, principals: seq<string>, seen: set<string>)
    ensures NamesBefore(v, principals, []) == {} && Expanded(v, principals, []) == []
    ensures NaiveWave(v, principals, []) == [] && Fresh(seen, []) == [] && seen + NamesOf([]) == seen
  {
  }

  // ----- what expanding promises -----

  lemma NamesMore(ps: seq<Planned>, p: Planned)
    ensures NamesOf(ps + [p]) == NamesOf(ps) + {p.target}
  {
    FreshMore({}, ps, p);
  }

  lemma {:induction false} FreshNames(seen: set<string>, ps: seq<Planned>)
    ensures NamesOf(Fresh(seen, ps)) == NamesOf(ps) - seen
  {
    if ps != [] {
      var front, p := ps[..|ps| - 1], ps[|ps| - 1];
      assert ps == front + [p];
      FreshNames(seen, front);
      FreshMore(seen, front, p);
      NamesMore(Fresh(seen, front), p);
      hide Fresh, NamesOf;
      assert Fresh(seen, front) + [] == Fresh(seen, front);
    }
  }

  lemma {:induction false} FreshDistinct(seen: set<string>, ps: seq<Planned>)
    ensures Distinct(Fresh(seen, ps))
  {
    if ps != [] {
      var front, p := ps[..|ps| - 1], ps[|ps| - 1];
      FreshDistinct(seen, front);
      FreshNames(seen, front);
      var kept := Fresh(seen, front);
      forall i | 0 <= i < |kept| ensures kept[i].target in NamesOf(kept) {
      }
      hide NamesOf;
    }
  }

  lemma {:induction false} FreshMembers(seen: set<string>, ps: seq<Planned>, p: Planned)
    requires p in Fresh(seen, ps)
    ensures p in ps
  {
    if ps != [] {
      var front, last := ps[..|ps| - 1], ps[|ps| - 1];
      assert ps == front + [last];
      if p in Fresh(seen, front) { FreshMembers(seen, front, p); }
    }
  }

  lemma NamesJoined(a: seq<Planned>, b: seq<Planned>)
    ensures NamesOf(a + b) == NamesOf(a) + NamesOf(b)
  {
    assert forall p :: p in a + b <==> p in a || p in b;
  }

  lemma FreshNone(seen: set<string>)
    ensures Fresh(seen, []) == []
  {
  }

  lemma {:induction false} FreshJoined(seen: set<string>, a: seq<Planned>, b: seq<Planned>)
    ensures Fresh(seen, a + b) == Fresh(seen, a) + Fresh(seen + NamesOf(a), b)
  {
    hide *;
    if b == [] {
      assert a + b == a;
      assert Fresh(seen + NamesOf(a), []) == [] by { FreshNone(seen + NamesOf(a)); }
    } else {
      var front, p := b[..|b| - 1], b[|b| - 1];
      assert a + b == (a + front) + [p] && b == front + [p];
      FreshJoined(seen, a, front);
      FreshMore(seen, a + front, p);
      FreshMore(seen + NamesOf(a), front, p);
      NamesJoined(a, front);
    }
  }

  lemma {:induction false} ExpandedWave(v: View, principals: seq<string>, waves: seq<seq<string>>, k: nat)
    requires k < |waves|
    ensures |Expanded(v, principals, waves)| == |waves|
    ensures Expanded(v, principals, waves)[k] ==
      Fresh(NamesBefore(v, principals, waves[..k]), NaiveWave(v, principals, waves[k]))
  {
    hide NaiveWave, Fresh;
    var front := waves[..|waves| - 1];
    ExpandedLength(v, principals, front);
    if k < |front| {
      ExpandedWave(v, principals, front, k);
      assert front[..k] == waves[..k];
    }
  }

  lemma {:induction false} ExpandedLength(v: View, principals: seq<string>, waves: seq<seq<string>>)
    ensures |Expanded(v, principals, waves)| == |waves|
  {
    if waves != [] { ExpandedLength(v, principals, waves[..|waves| - 1]); }
  }

  lemma {:induction false} NamesBeforeAre(v: View, principals: seq<string>, waves: seq<seq<string>>, name: string)
    ensures name in NamesBefore(v, principals, waves) <==>
      exists j :: 0 <= j < |waves| && name in NamesOf(NaiveWave(v, principals, waves[j]))
  {
    hide NaiveWave, NamesOf;
    if waves != [] { NamesBeforeAre(v, principals, waves[..|waves| - 1], name); }
  }

  /** No target is planned twice in a wave, and each is planned in the earliest
      wave that names or matches it and in no other. */
  lemma EarliestWaveOnly(v: View, principals: seq<string>, waves: seq<seq<string>>, k: nat, name: string)
    requires k < |waves|
    ensures |Expanded(v, principals, waves)| == |waves|
    ensures Distinct(Expanded(v, principals, waves)[k])
    ensures name in NamesOf(Expanded(v, principals, waves)[k]) <==>
      && name in NamesOf(NaiveWave(v, principals, waves[k]))
      && forall j | 0 <= j < k :: name !in NamesOf(NaiveWave(v, principals, waves[j]))
  {
    ExpandedWave(v, principals, waves, k);
    FreshNames(NamesBefore(v, principals, waves[..k]), NaiveWave(v, principals, waves[k]));
    FreshDistinct(NamesBefore(v, principals, waves[..k]), NaiveWave(v, principals, waves[k]));
    NamesBeforeAre(v, principals, waves[..k], name);
    hide NaiveWave, Fresh, Expanded, NamesBefore, NamesOf;
    assert forall j | 0 <= j < k :: waves[..k][j] == waves[j];
  }

  // ----- planning -----

  predicate Fails(v: View, code: Code, p: Planned) {
    match code
    case BadTarget => p.host == ""
    case TargetDenied => p.rule == ""
    case UnknownHost => !(exists k | 0 <= k < |v.policy.agents| :: v.policy.agents[k].0 == p.host)
    case AgentUnavailable => !p.offline && !Advertises(v, p.host, p.flakelet)
  }

  function FailNames(v: View, code: Code, ps: seq<Planned>): seq<string> {
    if ps == [] then [] else
    var p := ps[|ps| - 1];
    FailNames(v, code, ps[..|ps| - 1]) + if Fails(v, code, p) then [p.target] else []
  }

  function FlatPlan(waves: seq<seq<Planned>>): seq<Planned> {
    if waves == [] then [] else FlatPlan(waves[..|waves| - 1]) + waves[|waves| - 1]
  }

  const CHECKS := [BadTarget, TargetDenied, UnknownHost, AgentUnavailable]

  /** The outcome of the checks, in their order. */
  function Checked(v: View, ps: seq<Planned>, from: nat): Option<Refusal>
    requires from <= |CHECKS|
    decreases |CHECKS| - from
  {
    if from == |CHECKS| then None
    else if FailNames(v, CHECKS[from], ps) != [] then Some(Check(CHECKS[from], FailNames(v, CHECKS[from], ps)))
    else Checked(v, ps, from + 1)
  }

  /** Accepts a request with the targets of its waves, or says why not. The
      first kind of failure of any target refuses the whole request. */
  method Plan(v: View, principals: seq<string>, request: Request) returns (r: Result<seq<seq<Planned>>, Refusal>)
    ensures r == Answer(v, principals, request)
  {
    hide FailNames, Fails, Expanded, FlatPlan;
    if request.id == "" || forall k | 0 <= k < |request.waves| :: request.waves[k] == [] {
      return Err(BadRequest);
    }
    if request.options != [] {
      return Err(UnsupportedOption(request.options[0]));
    }
    var waves := Expand(v, principals, request.waves);
    if forall k | 0 <= k < |waves| :: waves[k] == [] {
      return Err(NoTargets);
    }
    var all := FlatPlan(waves);
    for k := 0 to |CHECKS|
      invariant Checked(v, all, 0) == Checked(v, all, k)
    {
      var hit := FailNames(v, CHECKS[k], all);
      if hit == [] { continue; }
      return Err(Check(CHECKS[k], hit));
    }
    return Ok(waves);
  }

  function Answer(v: View, principals: seq<string>, request: Request): Result<seq<seq<Planned>>, Refusal> {
    if request.id == "" || forall k | 0 <= k < |request.waves| :: request.waves[k] == [] then Err(BadRequest)
    else if request.options != [] then Err(UnsupportedOption(request.options[0]))
    else
      var waves := Expanded(v, principals, request.waves);
      if forall k | 0 <= k < |waves| :: waves[k] == [] then Err(NoTargets)
      else match Checked(v, FlatPlan(waves), 0)
        case Some(refusal) => Err(refusal)
        case None => Ok(waves)
  }

  // ----- accepted plans -----

  /** All waves expanded, with repetitions. */
  function NaiveAll(v: View, principals: seq<string>, waves: seq<seq<string>>): seq<Planned> {
    if waves == [] then [] else
    NaiveAll(v, principals, waves[..|waves| - 1]) + NaiveWave(v, principals, waves[|waves| - 1])
  }

  /** The plan as a whole is the first-occurrence filter of the naive expansion:
      no target appears twice in a request. */
  lemma {:induction false} PlanIsFresh(v: View, principals: seq<string>, waves: seq<seq<string>>)
    ensures FlatPlan(Expanded(v, principals, waves)) == Fresh({}, NaiveAll(v, principals, waves))
    ensures NamesOf(NaiveAll(v, principals, waves)) == NamesBefore(v, principals, waves)
    ensures Distinct(FlatPlan(Expanded(v, principals, waves)))
  {
    FreshDistinct({}, NaiveAll(v, principals, waves));
    if waves != [] {
      var front, last := waves[..|waves| - 1], waves[|waves| - 1];
      PlanIsFresh(v, principals, front);
      hide Fresh, NamesOf, NaiveWave, Distinct;
      var all, wave := NaiveAll(v, principals, front), NaiveWave(v, principals, last);
      FreshJoined({}, all, wave);
      NamesJoined(all, wave);
      assert {} + NamesOf(all) == NamesOf(all);
      var e := Expanded(v, principals, waves);
      assert e[..|e| - 1] == Expanded(v, principals, front);
    }
  }

  /** Host names have no slash and are not empty, and rules have a name. */
  ghost predicate Named(v: View) {
    && (forall k | 0 <= k < |v.policy.agents| :: v.policy.agents[k].0 != "" && '/' !in v.policy.agents[k].0)
    && (forall k | 0 <= k < |v.policy.rules| :: v.policy.rules[k].0 != "")
  }

  ghost predicate Configured(v: View, host: string) {
    exists k | 0 <= k < |v.policy.agents| :: v.policy.agents[k].0 == host
  }

  lemma {:induction false} HostsAre(v: View, principals: seq<string>, pattern: string, flakelet: string,
                                    offline: bool, n: nat, h: string)
    requires n <= |v.policy.agents| && h in Hosts(v, principals, pattern, flakelet, offline, n)
    ensures Configured(v, h) && HostMatches(v.policy, pattern, h) && RuleFor(v.policy, principals, h, flakelet).Some?
    ensures if offline then h !in v.connected else Advertises(v, h, flakelet)
  {
    hide HostMatches, RuleFor;
    if h in Hosts(v, principals, pattern, flakelet, offline, n - 1) {
      HostsAre(v, principals, pattern, flakelet, offline, n - 1, h);
    } else {
      assert v.policy.agents[n - 1].0 == h;
    }
  }

  lemma {:induction false} TaggedAre(hosts: seq<string>, offline: bool, x: (string, bool))
    requires x in Tagged(hosts, offline)
    ensures x.0 in hosts && x.1 == offline
  {
    if hosts != [] {
      var front := hosts[..|hosts| - 1];
      assert hosts == front + [hosts[|hosts| - 1]];
      if x in Tagged(front, offline) { TaggedAre(front, offline, x); }
    }
  }

  /** A planned target: named after its host and flakelet, with the name of its
      rule, and either literal or one that a pattern stands for. */
  ghost predicate Sound(v: View, principals: seq<string>, p: Planned) {
    && (p.host, p.flakelet) == PartsOf(p.target)
    && p.rule == RuleName(v, principals, p.host, p.flakelet)
    && (p.offline ==> Configured(v, p.host) && p.host !in v.connected && p.host != "" && p.rule != "")
  }

  /** What only holds of the targets a pattern stands for. */
  ghost predicate Matched(v: View, p: Planned) {
    p.host != "" && p.rule != "" && Configured(v, p.host)
  }

  lemma PartsOfMatched(h: string, f: string)
    requires h != "" && f != "" && '/' !in h && '/' !in f
    ensures PartsOf(h + "/" + f) == (h, f)
  {
    SplitsAtFirst(h, '/', f);
    assert h + "/" + f == h + ['/'] + f;
  }

  lemma RuleNameIs(v: View, principals: seq<string>, host: string, flakelet: string)
    requires Named(v) && RuleFor(v.policy, principals, host, flakelet).Some?
    ensures RuleName(v, principals, host, flakelet) != ""
  {
  }

  lemma PlannedIsSound(v: View, principals: seq<string>, t: string, h: (string, bool))
    requires Named(v) && h in HostsOf(v, principals, t)
    ensures Sound(v, principals, PlannedFor(v, principals, t, h))
    ensures IsPattern(PartsOf(t).0) ==> Matched(v, PlannedFor(v, principals, t, h))
  {
    hide RuleFor, HostMatches, SplitTarget, RuleName, Hosts, Tagged;
    var (host, flakelet) := PartsOf(t);
    if IsPattern(host) {
      var n := |v.policy.agents|;
      var live, offline := Hosts(v, principals, host, flakelet, false, n),
        Hosts(v, principals, host, flakelet, true, n);
      if h in Tagged(live, false) {
        TaggedAre(live, false, h);
        HostsAre(v, principals, host, flakelet, false, n, h.0);
      } else {
        TaggedAre(offline, true, h);
        HostsAre(v, principals, host, flakelet, true, n, h.0);
      }
      RuleNameIs(v, principals, h.0, flakelet);
      PartsAre(t);
      PartsOfMatched(h.0, flakelet);
    }
  }

  lemma PartsAre(t: string)
    ensures PartsOf(t) == ("", "") || (PartsOf(t).0 != "" && PartsOf(t).1 != "" && '/' !in PartsOf(t).1)
    ensures IsPattern(PartsOf(t).0) ==> PartsOf(t).0 != ""
  {
  }

  lemma {:induction false} NaiveIsSound(v: View, principals: seq<string>, t: string, hosts: seq<(string, bool)>,
                                        p: Planned)
    requires Named(v) && (forall h | h in hosts :: h in HostsOf(v, principals, t)) &&
      p in Naive(v, principals, t, hosts)
    ensures Sound(v, principals, p) && (IsPattern(PartsOf(t).0) ==> Matched(v, p))
  {
    hide Sound, Matched, HostsOf, Named, PlannedFor, IsPattern, PartsOf;
    if hosts != [] {
      var front, h := hosts[..|hosts| - 1], hosts[|hosts| - 1];
      assert hosts == front + [h] && h in hosts;
      if p in Naive(v, principals, t, front) {
        NaiveIsSound(v, principals, t, front, p);
      } else {
        PlannedIsSound(v, principals, t, h);
      }
    }
  }

  lemma {:induction false} WaveIsSound(v: View, principals: seq<string>, ts: seq<string>, p: Planned)
    requires Named(v) && p in NaiveWave(v, principals, ts)
    ensures Sound(v, principals, p)
  {
    hide Sound, HostsOf, Naive, Named;
    if ts != [] {
      var front, t := ts[..|ts| - 1], ts[|ts| - 1];
      if p in NaiveWave(v, principals, front) {
        WaveIsSound(v, principals, front, p);
      } else {
        NaiveIsSound(v, principals, t, HostsOf(v, principals, t), p);
      }
    }
  }

  lemma {:induction false} AllSound(v: View, principals: seq<string>, waves: seq<seq<string>>, p: Planned)
    requires Named(v) && p in NaiveAll(v, principals, waves)
    ensures Sound(v, principals, p)
  {
    hide Sound, NaiveWave, Named;
    if waves != [] {
      if p in NaiveAll(v, principals, waves[..|waves| - 1]) {
        AllSound(v, principals, waves[..|waves| - 1], p);
      } else {
        WaveIsSound(v, principals, waves[|waves| - 1], p);
      }
    }
  }

  lemma {:induction false} NoneFails(v: View, code: Code, ps: seq<Planned>, p: Planned)
    requires FailNames(v, code, ps) == [] && p in ps
    ensures !Fails(v, code, p)
  {
    hide Fails;
    if p in ps[..|ps| - 1] { NoneFails(v, code, ps[..|ps| - 1], p); }
  }

  lemma TheChecks()
    ensures CHECKS[0] == BadTarget && CHECKS[1] == TargetDenied
    ensures CHECKS[2] == UnknownHost && CHECKS[3] == AgentUnavailable
  {
  }

  lemma CheckedNone(v: View, ps: seq<Planned>)
    requires Checked(v, ps, 0).None?
    ensures forall code: Code :: FailNames(v, code, ps) == []
  {
    hide FailNames;
    TheChecks();
    assert FailNames(v, BadTarget, ps) == [] && Checked(v, ps, 1).None?;
    assert FailNames(v, TargetDenied, ps) == [] && Checked(v, ps, 2).None?;
    assert FailNames(v, UnknownHost, ps) == [] && Checked(v, ps, 3).None?;
    assert FailNames(v, AgentUnavailable, ps) == [];
    forall code: Code ensures FailNames(v, code, ps) == [] {
      match code { case BadTarget => case TargetDenied => case UnknownHost => case AgentUnavailable => }
    }
  }

  /** In an accepted plan no target appears twice, each is allowed by a rule and
      on a configured host, and each either is on a connected host that
      advertises the flakelet or was matched by a pattern on a host that is not
      connected. */
  lemma AcceptedPlan(v: View, principals: seq<string>, request: Request, waves: seq<seq<Planned>>, p: Planned)
    requires Named(v) && Answer(v, principals, request) == Ok(waves)
    ensures Distinct(FlatPlan(waves))
    ensures p in FlatPlan(waves) ==>
      && p.host != "" && Configured(v, p.host)
      && RuleFor(v.policy, principals, p.host, p.flakelet) == Some(p.rule)
      && (if p.offline then p.host !in v.connected else Advertises(v, p.host, p.flakelet))
  {
    hide *;
    AnswerIs(v, principals, request, waves);
    PlanIsFresh(v, principals, request.waves);
    CheckedNone(v, FlatPlan(waves));
    if p in FlatPlan(waves) {
      FreshMembers({}, NaiveAll(v, principals, request.waves), p);
      AllSound(v, principals, request.waves, p);
      NoneFails(v, BadTarget, FlatPlan(waves), p);
      NoneFails(v, TargetDenied, FlatPlan(waves), p);
      NoneFails(v, UnknownHost, FlatPlan(waves), p);
      NoneFails(v, AgentUnavailable, FlatPlan(waves), p);
      PassesAre(v, principals, p);
    }
  }

  lemma AnswerIs(v: View, principals: seq<string>, request: Request, waves: seq<seq<Planned>>)
    requires Answer(v, principals, request) == Ok(waves)
    ensures waves == Expanded(v, principals, request.waves) && Checked(v, FlatPlan(waves), 0).None?
  {
    hide Checked, Expanded, FlatPlan;
  }

  lemma PassesAre(v: View, principals: seq<string>, p: Planned)
    requires Sound(v, principals, p)
    requires !Fails(v, BadTarget, p) && !Fails(v, TargetDenied, p) &&
      !Fails(v, UnknownHost, p) && !Fails(v, AgentUnavailable, p)
    ensures p.host != "" && Configured(v, p.host)
    ensures RuleFor(v.policy, principals, p.host, p.flakelet) == Some(p.rule)
    ensures if p.offline then p.host !in v.connected else Advertises(v, p.host, p.flakelet)
  {
    hide RuleFor, Advertises, PartsOf;
  }

  predicate Passes(v: View, p: Planned) {
    !Fails(v, BadTarget, p) && !Fails(v, TargetDenied, p) && !Fails(v, UnknownHost, p) && !Fails(v, AgentUnavailable, p)
  }

  lemma {:induction false} SomeFails(v: View, code: Code, ps: seq<Planned>)
    requires FailNames(v, code, ps) != []
    ensures exists p :: p in ps && Fails(v, code, p)
  {
    hide Fails;
    if Fails(v, code, ps[|ps| - 1]) {
      assert ps[|ps| - 1] in ps;
    } else {
      SomeFails(v, code, ps[..|ps| - 1]);
    }
  }

  lemma CheckedIff(v: View, ps: seq<Planned>)
    ensures Checked(v, ps, 0).None? <==> forall p | p in ps :: Passes(v, p)
  {
    hide FailNames, Fails;
    EarlyChecks(v, ps);
    if Checked(v, ps, 0).None? {
      CheckedNone(v, ps);
      forall p | p in ps ensures Passes(v, p) {
        NoneFails(v, BadTarget, ps, p);
        NoneFails(v, TargetDenied, ps, p);
        NoneFails(v, UnknownHost, ps, p);
        NoneFails(v, AgentUnavailable, ps, p);
      }
    } else {
      var code := CheckedSome(v, ps);
      SomeFails(v, code, ps);
      var p :| p in ps && Fails(v, code, p);
      assert !Passes(v, p) by {
        match code { case BadTarget => case TargetDenied => case UnknownHost => case AgentUnavailable => }
      }
    }
  }

  lemma CheckedSome(v: View, ps: seq<Planned>) returns (code: Code)
    requires Checked(v, ps, 0).Some?
    ensures FailNames(v, code, ps) != []
  {
    hide FailNames;
    TheChecks();
    if FailNames(v, BadTarget, ps) != [] { return BadTarget; }
    if FailNames(v, TargetDenied, ps) != [] { return TargetDenied; }
    if FailNames(v, UnknownHost, ps) != [] { return UnknownHost; }
    assert Checked(v, ps, 0) == Checked(v, ps, 1) == Checked(v, ps, 2) == Checked(v, ps, 3);
    return AgentUnavailable;
  }

  lemma {:induction false} FlatSome(waves: seq<seq<Planned>>)
    ensures FlatPlan(waves) == [] <==> forall k | 0 <= k < |waves| :: waves[k] == []
  {
    if waves != [] {
      FlatSome(waves[..|waves| - 1]);
    }
  }

  /** A request is accepted exactly when it has an id and some target, no
      options, stands for some host at all, and each target passes each check. */
  lemma AcceptedIff(v: View, principals: seq<string>, request: Request)
    ensures Answer(v, principals, request).Ok? <==>
      && request.id != "" && request.options == [] && (exists k | 0 <= k < |request.waves| :: request.waves[k] != [])
      && var all := FlatPlan(Expanded(v, principals, request.waves));
      && all != [] && forall p | p in all :: Passes(v, p)
  {
    hide Expanded, FlatPlan, Checked, Passes;
    FlatSome(Expanded(v, principals, request.waves));
    CheckedIff(v, FlatPlan(Expanded(v, principals, request.waves)));
  }

  // ----- no probing -----

  /** The same rules and groups, whatever hosts there are. */
  ghost predicate SameRules(v: View, w: View) {
    v.policy.rules == w.policy.rules && v.policy.groups == w.policy.groups
  }

  lemma {:induction false} SameFirstRule(p: Policy, q: Policy, from: nat, principals: seq<string>, host: string,
                                         flakelet: string)
    requires p.rules == q.rules && p.groups == q.groups && from <= |p.rules|
    ensures FirstRule(p, from, principals, host, flakelet) == FirstRule(q, from, principals, host, flakelet)
    decreases |p.rules| - from
  {
    if from < |p.rules| {
      SameAllows(p, q, p.rules[from].1, principals, host, flakelet);
      SameFirstRule(p, q, from + 1, principals, host, flakelet);
      hide Allows;
    }
  }

  lemma SameAllows(p: Policy, q: Policy, r: Rule, principals: seq<string>, host: string, flakelet: string)
    requires p.groups == q.groups
    ensures Allows(p, r, principals, host, flakelet) == Allows(q, r, principals, host, flakelet)
  {
    hide Overlap;
    forall t | t in r.targets ensures TargetMatches(p, t, host, flakelet) == TargetMatches(q, t, host, flakelet) {
    }
    hide TargetMatches;
  }

  /** Whether a target of this name is refused before anything about hosts is
      looked at. */
  predicate FailsEarly(v: View, principals: seq<string>, code: Code, name: string) {
    var (host, flakelet) := PartsOf(name);
    if code.BadTarget? then host == "" else RuleName(v, principals, host, flakelet) == ""
  }

  lemma SameEarly(v: View, w: View, principals: seq<string>, code: Code, name: string)
    requires SameRules(v, w)
    ensures FailsEarly(v, principals, code, name) == FailsEarly(w, principals, code, name)
  {
    var (host, flakelet) := PartsOf(name);
    SameFirstRule(v.policy, w.policy, 0, principals, host, flakelet);
    hide FirstRule;
  }

  /** The names of a request that are refused early, as they are written. */
  function EarlyIn(v: View, principals: seq<string>, code: Code, ts: seq<string>): seq<string> {
    if ts == [] then [] else
    var t := ts[|ts| - 1];
    EarlyIn(v, principals, code, ts[..|ts| - 1])
    + if !IsPattern(PartsOf(t).0) && FailsEarly(v, principals, code, t) then [t] else []
  }

  function EarlyInAll(v: View, principals: seq<string>, code: Code, waves: seq<seq<string>>): seq<string> {
    if waves == [] then [] else
    EarlyInAll(v, principals, code, waves[..|waves| - 1]) + EarlyIn(v, principals, code, waves[|waves| - 1])
  }

  lemma {:induction false} SameEarlyIn(v: View, w: View, principals: seq<string>, code: Code, ts: seq<string>)
    requires SameRules(v, w)
    ensures EarlyIn(v, principals, code, ts) == EarlyIn(w, principals, code, ts)
  {
    hide FailsEarly, IsPattern;
    if ts != [] {
      SameEarlyIn(v, w, principals, code, ts[..|ts| - 1]);
      SameEarly(v, w, principals, code, ts[|ts| - 1]);
    }
  }

  lemma {:induction false} SameEarlyInAll(v: View, w: View, principals: seq<string>, code: Code,
                                          waves: seq<seq<string>>)
    requires SameRules(v, w)
    ensures EarlyInAll(v, principals, code, waves) == EarlyInAll(w, principals, code, waves)
  {
    hide EarlyIn;
    if waves != [] {
      SameEarlyInAll(v, w, principals, code, waves[..|waves| - 1]);
      SameEarlyIn(v, w, principals, code, waves[|waves| - 1]);
    }
  }

  lemma {:induction false} FailNamesJoined(v: View, code: Code, a: seq<Planned>, b: seq<Planned>)
    ensures FailNames(v, code, a + b) == FailNames(v, code, a) + FailNames(v, code, b)
  {
    hide Fails;
    if b == [] {
      assert a + b == a;
    } else {
      FailNamesJoined(v, code, a, b[..|b| - 1]);
      assert (a + b)[..|a + b| - 1] == a + b[..|b| - 1];
    }
  }

  lemma {:induction false} MatchedPass(v: View, code: Code, ps: seq<Planned>)
    requires (code.BadTarget? || code.TargetDenied?) && forall p | p in ps :: Matched(v, p)
    ensures FailNames(v, code, ps) == []
  {
    if ps != [] {
      assert ps[|ps| - 1] in ps && forall p | p in ps[..|ps| - 1] :: p in ps;
      MatchedPass(v, code, ps[..|ps| - 1]);
    }
  }

  /** Only targets that are spelled out are ever refused early. */
  lemma {:induction false} EarlyWave(v: View, principals: seq<string>, code: Code, ts: seq<string>)
    requires Named(v) && (code.BadTarget? || code.TargetDenied?)
    ensures FailNames(v, code, NaiveWave(v, principals, ts)) == EarlyIn(v, principals, code, ts)
  {
    if ts != [] {
      var front, t := ts[..|ts| - 1], ts[|ts| - 1];
      EarlyWave(v, principals, code, front);
      EarlyTarget(v, principals, code, t);
      FailNamesJoined(v, code, NaiveWave(v, principals, front), Naive(v, principals, t, HostsOf(v, principals, t)));
      hide FailNames, HostsOf, Naive, FailsEarly, IsPattern, Named;
    }
  }

  lemma EarlyTarget(v: View, principals: seq<string>, code: Code, t: string)
    requires Named(v) && (code.BadTarget? || code.TargetDenied?)
    ensures FailNames(v, code, Naive(v, principals, t, HostsOf(v, principals, t))) ==
      if !IsPattern(PartsOf(t).0) && FailsEarly(v, principals, code, t) then [t] else []
  {
    hide Matched, Sound, Named;
    var hosts := HostsOf(v, principals, t);
    if IsPattern(PartsOf(t).0) {
      forall p | p in Naive(v, principals, t, hosts) ensures Matched(v, p) {
        NaiveIsSound(v, principals, t, hosts, p);
      }
      MatchedPass(v, code, Naive(v, principals, t, hosts));
    } else {
      hide IsPattern, RuleName, SplitTarget;
      var p := PlannedFor(v, principals, t, hosts[0]);
      assert hosts[..0] == [] && Naive(v, principals, t, []) == [] && Naive(v, principals, t, hosts) == [] + [p];
      assert [p][..0] == [] && FailNames(v, code, []) == [];
      assert FailNames(v, code, [p]) == if Fails(v, code, p) then [p.target] else [];
    }
  }

  lemma {:induction false} EarlyAll(v: View, principals: seq<string>, code: Code, waves: seq<seq<string>>)
    requires Named(v) && (code.BadTarget? || code.TargetDenied?)
    ensures FailNames(v, code, NaiveAll(v, principals, waves)) == EarlyInAll(v, principals, code, waves)
  {
    if waves == [] {
      assert FailNames(v, code, []) == [];
    } else {
      var front := waves[..|waves| - 1];
      EarlyAll(v, principals, code, front);
      EarlyWave(v, principals, code, waves[|waves| - 1]);
      hide FailNames, NaiveWave, EarlyIn, Named;
      FailNamesJoined(v, code, NaiveAll(v, principals, front), NaiveWave(v, principals, waves[|waves| - 1]));
    }
  }

  /** The first occurrence of each name. */
  function Firsts(names: seq<string>): seq<string> {
    if names == [] then [] else
    var front, name := names[..|names| - 1], names[|names| - 1];
    Firsts(front) + if name in front then [] else [name]
  }

  /** Targets of one name fail alike, so dropping repetitions commutes with
      collecting failures. */
  lemma {:induction false} FreshFailures(v: View, principals: seq<string>, code: Code, ps: seq<Planned>)
    requires (code.BadTarget? || code.TargetDenied?) && forall p | p in ps :: Sound(v, principals, p)
    ensures FailNames(v, code, Fresh({}, ps)) == Firsts(FailNames(v, code, ps))
    ensures forall name :: name in FailNames(v, code, ps) <==>
      name in NamesOf(ps) && FailsEarly(v, principals, code, name)
  {
    hide *;
    if ps == [] {
      NothingFails(v, code);
    } else {
      var front, p := ps[..|ps| - 1], ps[|ps| - 1];
      assert ps == front + [p] && p in ps && forall x | x in front :: x in ps;
      FreshFailures(v, principals, code, front);
      FreshMore({}, front, p);
      SoundFails(v, principals, code, p);
      FailMore(v, code, Fresh({}, front), p);
      FailMore(v, code, front, p);
      FirstsMore(FailNames(v, code, front), p.target);
      assert Fresh({}, front) + [] == Fresh({}, front);
    }
  }

  lemma NothingFails(v: View, code: Code)
    ensures Fresh({}, []) == [] && FailNames(v, code, []) == [] && Firsts([]) == [] && NamesOf([]) == {}
  {
  }

  lemma SoundFails(v: View, principals: seq<string>, code: Code, p: Planned)
    requires Sound(v, principals, p) && (code.BadTarget? || code.TargetDenied?)
    ensures Fails(v, code, p) <==> FailsEarly(v, principals, code, p.target)
  {
    hide RuleName, PartsOf;
  }

  lemma FailMore(v: View, code: Code, ps: seq<Planned>, p: Planned)
    ensures FailNames(v, code, ps + [p]) == FailNames(v, code, ps) + if Fails(v, code, p) then [p.target] else []
  {
    assert (ps + [p])[..|ps|] == ps;
  }

  lemma FirstsMore(names: seq<string>, name: string)
    ensures Firsts(names + [name]) == Firsts(names) + if name in names then [] else [name]
    ensures names + [] == names && Firsts(names) + [] == Firsts(names)
  {
    assert (names + [name])[..|names|] == names;
  }

  lemma EarlyRefusals(v: View, principals: seq<string>, code: Code, waves: seq<seq<string>>)
    requires Named(v) && (code.BadTarget? || code.TargetDenied?)
    ensures FailNames(v, code, FlatPlan(Expanded(v, principals, waves))) ==
      Firsts(EarlyInAll(v, principals, code, waves))
  {
    hide FailNames, FlatPlan, Expanded, Fresh, NaiveAll, Sound, Named, Firsts, EarlyInAll,
      NamesOf, NamesBefore, Distinct;
    PlanIsFresh(v, principals, waves);
    forall p | p in NaiveAll(v, principals, waves) ensures Sound(v, principals, p) {
      AllSound(v, principals, waves, p);
    }
    FreshFailures(v, principals, code, NaiveAll(v, principals, waves));
    EarlyAll(v, principals, code, waves);
  }

  lemma {:induction false} FailsSome(v: View, code: Code, waves: seq<seq<Planned>>)
    requires FailNames(v, code, FlatPlan(waves)) != []
    ensures exists k | 0 <= k < |waves| :: waves[k] != []
  {
    hide Fails;
    if forall k | 0 <= k < |waves| :: waves[k] == [] { FlatEmpty(waves); }
  }

  lemma {:induction false} FlatEmpty(waves: seq<seq<Planned>>)
    requires forall k | 0 <= k < |waves| :: waves[k] == []
    ensures FlatPlan(waves) == []
  {
    if waves != [] { FlatEmpty(waves[..|waves| - 1]); }
  }

  /** Policy comes before existence: a request with a target that is malformed
      or not allowed is refused in the same words whatever hosts are configured
      or connected, so nobody can probe for host names. */
  lemma NoProbing(v: View, w: View, principals: seq<string>, request: Request)
    requires Named(v) && Named(w) && SameRules(v, w)
    requires var r := Answer(v, principals, request);
      r.Err? && r.error.Check? && (r.error.code.BadTarget? || r.error.code.TargetDenied?)
    ensures Answer(w, principals, request) == Answer(v, principals, request)
  {
    hide FailNames, Fails, Expanded, FlatPlan, Named, SameRules, Firsts, EarlyInAll;
    SameRefusal(v, w, principals, BadTarget, request.waves);
    SameRefusal(v, w, principals, TargetDenied, request.waves);
    var a, b := Expanded(v, principals, request.waves), Expanded(w, principals, request.waves);
    EarlyChecks(v, FlatPlan(a));
    EarlyChecks(w, FlatPlan(b));
    hide Checked;
    if FailNames(w, BadTarget, FlatPlan(b)) != [] {
      FailsSome(w, BadTarget, b);
    } else {
      FailsSome(w, TargetDenied, b);
    }
  }

  lemma SameRefusal(v: View, w: View, principals: seq<string>, code: Code, waves: seq<seq<string>>)
    requires Named(v) && Named(w) && SameRules(v, w) && (code.BadTarget? || code.TargetDenied?)
    ensures FailNames(v, code, FlatPlan(Expanded(v, principals, waves)))
         == FailNames(w, code, FlatPlan(Expanded(w, principals, waves)))
  {
    hide FailNames, FlatPlan, Expanded, Named, Firsts, EarlyInAll, SameRules;
    EarlyRefusals(v, principals, code, waves);
    EarlyRefusals(w, principals, code, waves);
    SameEarlyInAll(v, w, principals, code, waves);
  }

  /** The first two checks decide if either of them fails. */
  lemma EarlyChecks(v: View, ps: seq<Planned>)
    ensures var r := Checked(v, ps, 0);
      var bad, denied := FailNames(v, BadTarget, ps), FailNames(v, TargetDenied, ps);
      if bad != [] then r == Some(Check(BadTarget, bad))
      else if denied != [] then r == Some(Check(TargetDenied, denied))
      else r.Some? ==> r.value.Check? && !r.value.code.BadTarget? && !r.value.code.TargetDenied?
  {
    hide FailNames;
    TheChecks();
    assert Checked(v, ps, 4).None?;
    var unknown := FailNames(v, UnknownHost, ps);
    assert Checked(v, ps, 2) == if unknown != [] then Some(Check(UnknownHost, unknown)) else Checked(v, ps, 3);
    var denied := FailNames(v, TargetDenied, ps);
    assert Checked(v, ps, 1) == if denied != [] then Some(Check(TargetDenied, denied)) else Checked(v, ps, 2);
  }
}
