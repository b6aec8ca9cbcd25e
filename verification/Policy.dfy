/** Who may be which agent, and who may deploy what (src/auth/policy.rs).

    A `BTreeMap` is iterated in key order, so it is a sequence of entries with
    distinct keys here. */
module Policies {
  import opened Wrappers
  import opened Text
  import Glob

  datatype Rule = Rule(principals: seq<string>, targets: seq<string>)

  datatype Policy = Policy(agents: seq<(string, seq<string>)>,
                           groups: map<string, seq<string>>,
                           rules: seq<(string, Rule)>)

  datatype HostError = NoHost | Ambiguous(hosts: seq<string>)

  datatype ConfigError =
    | NotHostFlakelet(rule: string, target: string)
    | ManySlashes(rule: string, target: string)
    | UnknownGroup(rule: string, group: string)
    | SharedPrincipal(principal: string, other: string, host: string)

  ghost predicate DistinctKeys<V>(entries: seq<(string, V)>) {
    forall i, j | 0 <= i < j < |entries| :: entries[i].0 != entries[j].0
  }

  predicate Overlap(a: seq<string>, b: seq<string>) {
    exists x | x in a :: x in b
  }

  predicate HostMatches(p: Policy, pattern: string, host: string) {
    if "@" <= pattern then
      pattern[1..] in p.groups && exists m | m in p.groups[pattern[1..]] :: Glob.Matches(m, host)
    else Glob.Matches(pattern, host)
  }

  predicate TargetMatches(p: Policy, pattern: string, host: string, flakelet: string) {
    match SplitOnce(pattern, '/')
    case None => false
    case Some((hp, fp)) => HostMatches(p, hp, host) && Glob.Matches(fp, flakelet)
  }

  predicate Allows(p: Policy, r: Rule, principals: seq<string>, host: string, flakelet: string) {
    Overlap(r.principals, principals)
    && exists t | t in r.targets :: TargetMatches(p, t, host, flakelet)
  }

  /** The name of the first rule, in name order, that allows the target. */
  function RuleFor(p: Policy, principals: seq<string>, host: string, flakelet: string): (r: Option<string>)
    ensures r.Some? <==> exists k | 0 <= k < |p.rules| :: Allows(p, p.rules[k].1, principals, host, flakelet)
    ensures r.Some? ==> exists k | 0 <= k < |p.rules| ::
      && p.rules[k].0 == r.value && Allows(p, p.rules[k].1, principals, host, flakelet)
      && forall j | 0 <= j < k :: !Allows(p, p.rules[j].1, principals, host, flakelet)
  {
    FirstRule(p, 0, principals, host, flakelet)
  }

  function FirstRule(p: Policy, from: nat, principals: seq<string>, host: string, flakelet: string): (r: Option<string>)
    requires from <= |p.rules|
    ensures r.None? ==> forall k | from <= k < |p.rules| :: !Allows(p, p.rules[k].1, principals, host, flakelet)
    ensures r.Some? ==> exists k | from <= k < |p.rules| ::
      && p.rules[k].0 == r.value && Allows(p, p.rules[k].1, principals, host, flakelet)
      && forall j | from <= j < k :: !Allows(p, p.rules[j].1, principals, host, flakelet)
    decreases |p.rules| - from
  {
    if from == |p.rules| then None
    else if Allows(p, p.rules[from].1, principals, host, flakelet) then Some(p.rules[from].0)
    else FirstRule(p, from + 1, principals, host, flakelet)
  }

  predicate SeesHost(p: Policy, principals: seq<string>, host: string) {
    exists k | 0 <= k < |p.rules| ::
      && Overlap(p.rules[k].1.principals, principals)
      && exists t | t in p.rules[k].1.targets ::
           var halves := SplitOnce(t, '/');
           halves.Some? && HostMatches(p, halves.value.0, host)
  }

  // ----- what a rule means -----

  /** Some runs of characters in place of the stars of a pattern give the text. */
  ghost predicate StandsFor(pattern: string, s: string) {
    exists runs :: Glob.Fills(pattern, runs, s)
  }

  /** The host part of a target: a pattern for the host, or a group one of whose
      members is. */
  ghost predicate Covers(p: Policy, part: string, host: string) {
    if "@" <= part then exists g, m | part == "@" + g && g in p.groups && m in p.groups[g] :: StandsFor(m, host)
    else StandsFor(part, host)
  }

  /** A rule shares a principal with the caller and has a target, split at its
      first slash, whose parts stand for the host and for the flakelet. */
  ghost predicate Grants(p: Policy, r: Rule, principals: seq<string>, host: string, flakelet: string) {
    && (exists x :: x in r.principals && x in principals)
    && exists hp, fp | hp + "/" + fp in r.targets && '/' !in hp :: Covers(p, hp, host) && StandsFor(fp, flakelet)
  }

  lemma CoversIff(p: Policy, part: string, host: string)
    ensures HostMatches(p, part, host) <==> Covers(p, part, host)
  {
    hide Glob.Fills, Glob.Matches;
    forall m ensures Glob.Matches(m, host) <==> StandsFor(m, host) {
      Glob.MatchesIffFilled(m, host);
    }
    if "@" <= part {
      assert part == "@" + part[1..];
      assert forall g: string | part == "@" + g :: g == part[1..];
    }
  }

  lemma SplitIff(t: string, hp: string, fp: string)
    ensures SplitOnce(t, '/') == Some((hp, fp)) <==> t == hp + "/" + fp && '/' !in hp
  {
    if t == hp + "/" + fp && '/' !in hp {
      SplitsAtFirst(hp, '/', fp);
      assert hp + ['/'] + fp == t;
    }
  }

  lemma TargetIff(p: Policy, t: string, host: string, flakelet: string)
    ensures TargetMatches(p, t, host, flakelet) <==>
      exists hp, fp | t == hp + "/" + fp && '/' !in hp :: Covers(p, hp, host) && StandsFor(fp, flakelet)
  {
    hide HostMatches, Covers, Glob.Matches, StandsFor;
    forall hp, fp ensures SplitOnce(t, '/') == Some((hp, fp)) <==> t == hp + "/" + fp && '/' !in hp {
      SplitIff(t, hp, fp);
    }
    if SplitOnce(t, '/').Some? {
      var (hp, fp) := SplitOnce(t, '/').value;
      CoversIff(p, hp, host);
      StandsIff(fp, flakelet);
      assert t == hp + "/" + fp && '/' !in hp;
    }
  }

  lemma StandsIff(pattern: string, s: string)
    ensures Glob.Matches(pattern, s) <==> StandsFor(pattern, s)
  {
    Glob.MatchesIffFilled(pattern, s);
  }

  lemma GrantsIff(p: Policy, r: Rule, principals: seq<string>, host: string, flakelet: string)
    ensures Allows(p, r, principals, host, flakelet) <==> Grants(p, r, principals, host, flakelet)
  {
    hide TargetMatches, Covers, StandsFor;
    forall t ensures TargetMatches(p, t, host, flakelet) <==>
      exists hp, fp | t == hp + "/" + fp && '/' !in hp :: Covers(p, hp, host) && StandsFor(fp, flakelet)
    {
      TargetIff(p, t, host, flakelet);
    }
  }

  /** A caller is allowed a target exactly if some rule grants it, and by the name
      of the first that does. */
  lemma RuleForIff(p: Policy, principals: seq<string>, host: string, flakelet: string)
    ensures RuleFor(p, principals, host, flakelet).Some? <==>
      exists k | 0 <= k < |p.rules| :: Grants(p, p.rules[k].1, principals, host, flakelet)
    ensures RuleFor(p, principals, host, flakelet).Some? ==> exists k | 0 <= k < |p.rules| ::
      && RuleFor(p, principals, host, flakelet) == Some(p.rules[k].0)
      && Grants(p, p.rules[k].1, principals, host, flakelet)
      && forall j | 0 <= j < k :: !Grants(p, p.rules[j].1, principals, host, flakelet)
  {
    hide Allows, Grants;
    forall r ensures Allows(p, r, principals, host, flakelet) <==> Grants(p, r, principals, host, flakelet) {
      GrantsIff(p, r, principals, host, flakelet);
    }
  }

  /** A caller sees a host exactly if some rule that shares a principal with it has
      a target whose host part stands for the host. */
  lemma SeesHostIff(p: Policy, principals: seq<string>, host: string)
    ensures SeesHost(p, principals, host) <==> exists k, x, hp, fp | 0 <= k < |p.rules| ::
      && x in p.rules[k].1.principals && x in principals
      && hp + "/" + fp in p.rules[k].1.targets && '/' !in hp && Covers(p, hp, host)
  {
    hide HostMatches, Covers;
    forall hp ensures HostMatches(p, hp, host) <==> Covers(p, hp, host) {
      CoversIff(p, hp, host);
    }
    forall t, hp, fp ensures SplitOnce(t, '/') == Some((hp, fp)) <==> t == hp + "/" + fp && '/' !in hp {
      SplitIff(t, hp, fp);
    }
    if SeesHost(p, principals, host) {
      var k :|
        && 0 <= k < |p.rules| && Overlap(p.rules[k].1.principals, principals)
        && exists t | t in p.rules[k].1.targets ::
             SplitOnce(t, '/').Some? && HostMatches(p, SplitOnce(t, '/').value.0, host);
      var t :| t in p.rules[k].1.targets && SplitOnce(t, '/').Some? && HostMatches(p, SplitOnce(t, '/').value.0, host);
      var (hp, fp) := SplitOnce(t, '/').value;
      var x :| x in p.rules[k].1.principals && x in principals;
      assert hp + "/" + fp in p.rules[k].1.targets;
    }
    if k, x, hp, fp :|
      && 0 <= k < |p.rules| && x in p.rules[k].1.principals && x in principals
      && hp + "/" + fp in p.rules[k].1.targets && '/' !in hp && Covers(p, hp, host)
    {
      assert SplitOnce(hp + "/" + fp, '/') == Some((hp, fp));
      assert Overlap(p.rules[k].1.principals, principals);
    }
  }

  /** Rules only ever allow: more principals never take a target away, nobody
      gets in without one, and whoever may deploy to a host may see it. */
  lemma RulesOnlyAllow(p: Policy, some: seq<string>, more: seq<string>, host: string, flakelet: string)
    requires forall x | x in some :: x in more
    ensures RuleFor(p, some, host, flakelet).Some? ==> RuleFor(p, more, host, flakelet).Some?
    ensures RuleFor(p, [], host, flakelet).None?
    ensures RuleFor(p, some, host, flakelet).Some? ==> SeesHost(p, more, host)
  {
    if RuleFor(p, some, host, flakelet).Some? {
      var k :| 0 <= k < |p.rules| && Allows(p, p.rules[k].1, some, host, flakelet);
      assert Allows(p, p.rules[k].1, more, host, flakelet);
    }
  }

  /** The hosts whose entry lists one of the principals, in name order. */
  function Hits(agents: seq<(string, seq<string>)>, principals: seq<string>): (hosts: seq<string>)
    ensures forall h :: h in hosts <==>
      exists i | 0 <= i < |agents| :: agents[i].0 == h && Overlap(agents[i].1, principals)
  {
    if agents == [] then []
    else
      var e := agents[|agents| - 1];
      Hits(agents[..|agents| - 1], principals) + if Overlap(e.1, principals) then [e.0] else []
  }

  function HostFor(p: Policy, principals: seq<string>): Result<string, HostError> {
    var hits := Hits(p.agents, principals);
    if |hits| == 1 then Ok(hits[0])
    else if hits == [] then Err(NoHost)
    else Err(Ambiguous(hits))
  }

  predicate TargetWellFormed(p: Policy, target: string) {
    match SplitOnce(target, '/')
    case None => false
    case Some((hp, fp)) => '/' !in fp && ("@" <= hp ==> hp[1..] in p.groups)
  }

  /** A target of a rule is one host part, one slash and one flakelet part, and a
      group it names is there. */
  lemma WellFormedIff(p: Policy, target: string)
    ensures TargetWellFormed(p, target) <==> exists hp, fp | target == hp + "/" + fp ::
      '/' !in hp && '/' !in fp && (hp != "" && hp[0] == '@' ==> hp[1..] in p.groups)
  {
    forall hp, fp ensures SplitOnce(target, '/') == Some((hp, fp)) <==> target == hp + "/" + fp && '/' !in hp {
      SplitIff(target, hp, fp);
    }
    if TargetWellFormed(p, target) {
      var (hp, fp) := SplitOnce(target, '/').value;
      assert target == hp + "/" + fp && "@" <= hp <==> hp != "" && hp[0] == '@';
    }
  }

  ghost predicate TargetsWellFormed(p: Policy) {
    forall k, t | 0 <= k < |p.rules| && t in p.rules[k].1.targets :: TargetWellFormed(p, t)
  }

  /** No principal may act as two hosts. */
  ghost predicate Disjoint(agents: seq<(string, seq<string>)>) {
    forall i, j, x | 0 <= i < j < |agents| && x in agents[i].1 :: x !in agents[j].1
  }

  /** What the load-time check finds wrong with a target. */
  ghost predicate Malformed(p: Policy, target: string, e: ConfigError) {
    match e
    case NotHostFlakelet(_, t) => t == target && '/' !in target
    case ManySlashes(_, t) => t == target && exists a, b, c :: target == a + "/" + b + "/" + c
    case UnknownGroup(_, group) =>
      group !in p.groups && exists f :: target == "@" + group + "/" + f && '/' !in group && '/' !in f
    case SharedPrincipal(_, _, _) => false
  }

  lemma TwoSlashes(hp: string, fp: string) returns (b: string, c: string)
    requires '/' in fp
    ensures hp + "/" + fp == hp + "/" + b + "/" + c
  {
    var (x, y) := SplitOnce(fp, '/').value;
    b, c := x, y;
    assert fp == b + ['/'] + c;
  }

  /** What is wrong with one target of a rule, if anything. */
  method CheckTarget(p: Policy, name: string, t: string) returns (wrong: Option<ConfigError>)
    ensures wrong.None? <==> TargetWellFormed(p, t)
    ensures wrong.Some? ==> !wrong.value.SharedPrincipal? && wrong.value.rule == name && Malformed(p, t, wrong.value)
  {
    match SplitOnce(t, '/') {
      case None => return Some(NotHostFlakelet(name, t));
      case Some((hp, fp)) =>
        assert t == hp + "/" + fp;
        if '/' in fp {
          var b, c := TwoSlashes(hp, fp);
          return Some(ManySlashes(name, t));
        }
        if "@" <= hp && hp[1..] !in p.groups {
          assert hp == "@" + hp[1..];
          assert t == "@" + hp[1..] + "/" + fp;
          return Some(UnknownGroup(name, hp[1..]));
        }
        return None;
    }
  }

  /** The load-time check accepts a configuration exactly when every rule target
      is well formed and no principal is listed for two hosts. */
  method Validate(p: Policy) returns (r: Result<(), ConfigError>)
    requires DistinctKeys(p.agents)
    ensures r.Ok? <==> TargetsWellFormed(p) && Disjoint(p.agents)
    ensures r.Err? && r.error.SharedPrincipal? ==> exists i, j ::
      && 0 <= i < j < |p.agents| && r.error.principal in p.agents[i].1 && r.error.principal in p.agents[j].1
      && r.error.other == p.agents[i].0 && r.error.host == p.agents[j].0
    ensures r.Err? && !r.error.SharedPrincipal? ==> !TargetsWellFormed(p)
    ensures r.Err? && !r.error.SharedPrincipal? ==> exists k, t ::
      0 <= k < |p.rules| && t in p.rules[k].1.targets && p.rules[k].0 == r.error.rule && Malformed(p, t, r.error)
  {
    hide TargetWellFormed, Malformed;
    for k := 0 to |p.rules|
      invariant forall m, t | 0 <= m < k && t in p.rules[m].1.targets :: TargetWellFormed(p, t)
    {
      var (name, rule) := p.rules[k];
      for n := 0 to |rule.targets|
        invariant forall t | t in rule.targets[..n] :: TargetWellFormed(p, t)
      {
        var t := rule.targets[n];
        assert t in p.rules[k].1.targets && p.rules[k].0 == name;
        assert TargetsWellFormed(p) ==> TargetWellFormed(p, t);
        var wrong := CheckTarget(p, name, t);
        if wrong.Some? { return Err(wrong.value); }
      }
      assert rule.targets[..|rule.targets|] == rule.targets;
    }
    var seen: map<string, string> := map[];
    for i := 0 to |p.agents|
      invariant forall x :: x in seen <==> exists a | 0 <= a < i :: x in p.agents[a].1
      invariant forall x, a | x in seen && 0 <= a < i && x in p.agents[a].1 :: seen[x] == p.agents[a].0
    {
      var (host, ps) := p.agents[i];
      for n := 0 to |ps|
        invariant forall x :: x in seen <==> x in ps[..n] || exists a | 0 <= a < i :: x in p.agents[a].1
        invariant forall x, a | x in seen && 0 <= a < i && x in p.agents[a].1 :: seen[x] == p.agents[a].0
        invariant forall x | x in ps[..n] :: seen[x] == host
      {
        var x := ps[n];
        if x in seen && seen[x] != host {
          assert exists a | 0 <= a < i :: x in p.agents[a].1;
          return Err(SharedPrincipal(x, seen[x], host));
        }
        seen := seen[x := host];
        assert ps[..n + 1] == ps[..n] + [x];
      }
      assert ps[..|ps|] == ps;
    }
    forall i, j, x | 0 <= i < j < |p.agents| && x in p.agents[i].1
      ensures x !in p.agents[j].1
    {
      assert x in seen && seen[x] == p.agents[i].0;
    }
    return Ok(());
  }

  /** A credential may carry several principals. It stands for a host exactly
      when one entry lists some of them, and is ambiguous exactly when two do. */
  lemma HostForIff(p: Policy, principals: seq<string>)
    ensures match HostFor(p, principals)
      case Ok(h) => exists k | 0 <= k < |p.agents| ::
        && p.agents[k].0 == h && Overlap(p.agents[k].1, principals)
        && forall j | 0 <= j < |p.agents| && j != k :: !Overlap(p.agents[j].1, principals)
      case Err(NoHost) => forall k | 0 <= k < |p.agents| :: !Overlap(p.agents[k].1, principals)
      case Err(Ambiguous(hosts)) =>
        && hosts == Hits(p.agents, principals)
        && exists i, j | 0 <= i < j < |p.agents| ::
             Overlap(p.agents[i].1, principals) && Overlap(p.agents[j].1, principals)
  {
    hide Overlap;
    var hits := Hits(p.agents, principals);
    TwoHits(p.agents, principals);
    if |hits| == 1 {
      assert hits[0] in hits;
      var k :| 0 <= k < |p.agents| && p.agents[k].0 == hits[0] && Overlap(p.agents[k].1, principals);
      forall j | 0 <= j < |p.agents| && j != k ensures !Overlap(p.agents[j].1, principals) {
        var a, b := if j < k then j else k, if j < k then k else j;
        assert 0 <= a < b < |p.agents| && !(Overlap(p.agents[a].1, principals) && Overlap(p.agents[b].1, principals));
      }
    } else if hits == [] {
      forall k | 0 <= k < |p.agents| ensures !Overlap(p.agents[k].1, principals) {
        assert p.agents[k].0 !in hits;
      }
    }
  }

  lemma {:induction false} TwoHits(agents: seq<(string, seq<string>)>, principals: seq<string>)
    ensures |Hits(agents, principals)| >= 2 <==> exists i, j | 0 <= i < j < |agents| ::
      Overlap(agents[i].1, principals) && Overlap(agents[j].1, principals)
  {
    hide Overlap;
    if agents != [] {
      var front, last := agents[..|agents| - 1], agents[|agents| - 1];
      TwoHits(front, principals);
      var before := Hits(front, principals);
      if before != [] {
        assert before[0] in before;
      }
      forall k | 0 <= k < |front| && Overlap(front[k].1, principals) ensures before != [] {
        assert front[k].0 in before;
      }
      if i, j :| 0 <= i < j < |agents| && Overlap(agents[i].1, principals) && Overlap(agents[j].1, principals) {
        assert agents[i] == front[i];
      }
    }
  }

  /** What the check is for: it is the exact condition under which no single
      principal can be taken for two hosts. */
  lemma DisjointIffUnambiguous(p: Policy)
    requires DistinctKeys(p.agents)
    ensures Disjoint(p.agents) <==> forall x :: HostFor(p, [x]) != Err(Ambiguous(Hits(p.agents, [x])))
  {
    if Disjoint(p.agents) {
      forall x ensures |Hits(p.agents, [x])| <= 1 {
        AtMostOneHit(p.agents, x);
      }
    } else {
      var i, j, x :| 0 <= i < j < |p.agents| && x in p.agents[i].1 && x in p.agents[j].1;
      assert Overlap(p.agents[i].1, [x]) && Overlap(p.agents[j].1, [x]);
      var hits := Hits(p.agents, [x]);
      assert p.agents[i].0 in hits && p.agents[j].0 in hits;
    }
  }

  /** A credential that a checked configuration finds ambiguous carries different
      principals of different hosts. */
  lemma AmbiguousIsMixed(p: Policy, principals: seq<string>) returns (i: nat, j: nat, x: string, y: string)
    requires Disjoint(p.agents) && HostFor(p, principals) == Err(Ambiguous(Hits(p.agents, principals)))
    ensures i < j < |p.agents| && x in principals && y in principals && x != y
    ensures x in p.agents[i].1 && y in p.agents[j].1
  {
    HostForIff(p, principals);
    hide Hits;
    i, j :| i < j < |p.agents| && Overlap(p.agents[i].1, principals) && Overlap(p.agents[j].1, principals);
    x :| x in p.agents[i].1 && x in principals;
    y :| y in p.agents[j].1 && y in principals;
  }

  lemma {:induction false} AtMostOneHit(agents: seq<(string, seq<string>)>, x: string)
    requires Disjoint(agents)
    ensures |Hits(agents, [x])| <= 1
  {
    if agents != [] {
      var front, last := agents[..|agents| - 1], agents[|agents| - 1];
      AtMostOneHit(front, x);
      if Hits(front, [x]) != [] {
        assert Hits(front, [x])[0] in Hits(front, [x]);
      }
    }
  }
}
