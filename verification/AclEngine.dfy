/** The engine: compile into maps, collect, sort, take the first match. */
module AclEngine {
  import opened Basics
  import opened Wildcard
  import opened PortTexts
  import opened Acl

  datatype CompiledUser = CompiledUser(groups: seq<string>, rules: seq<CompiledRule>)

  datatype Compiled = Compiled(defaultPolicy: Action, users: map<string, CompiledUser>,
                               groups: map<string, seq<CompiledRule>>, groupsByLower: map<string, seq<CompiledRule>>)

  // ----- sorting -----

  /** Blocking rules first, then by descending priority; equal keys may come in any order. */
  predicate Precedes(a: CompiledRule, b: CompiledRule)
  {
    (a.action.Block? && b.action.Allow?) || (a.action == b.action && a.priority >= b.priority)
  }

  ghost predicate Sorted(rules: seq<CompiledRule>)
  {
    forall i, j :: 0 <= i < j < |rules| ==> Precedes(rules[i], rules[j])
  }

  function Inserted(r: CompiledRule, rules: seq<CompiledRule>): seq<CompiledRule>
  {
    if rules == [] then [r]
    else if Precedes(r, rules[0]) then [r] + rules
    else [rules[0]] + Inserted(r, rules[1..])
  }

  lemma {:induction false} InsertedIsAPermutation(r: CompiledRule, rules: seq<CompiledRule>)
    ensures multiset(Inserted(r, rules)) == multiset(rules) + multiset{r}
    decreases |rules|
  {
    if rules != [] {
      assert rules == [rules[0]] + rules[1..];
      if !Precedes(r, rules[0]) { InsertedIsAPermutation(r, rules[1..]); }
    }
  }

  lemma InsertedHolds(r: CompiledRule, rules: seq<CompiledRule>, k: CompiledRule)
    requires k in Inserted(r, rules)
    ensures k == r || k in rules
  {
    InsertedIsAPermutation(r, rules);
    assert k in multiset(Inserted(r, rules));
    hide Inserted, Precedes;
  }

  lemma PrependIsSorted(first: CompiledRule, rest: seq<CompiledRule>)
    requires Sorted(rest) && forall k :: k in rest ==> Precedes(first, k)
    ensures Sorted([first] + rest)
  {
    hide Precedes;
  }

  lemma PrecedesIsTotal(a: CompiledRule, b: CompiledRule, c: CompiledRule)
    ensures Precedes(a, b) || Precedes(b, a)
    ensures Precedes(a, b) && Precedes(b, c) ==> Precedes(a, c)
  {}

  lemma {:induction false} InsertedIsSorted(r: CompiledRule, rules: seq<CompiledRule>)
    requires Sorted(rules)
    ensures Sorted(Inserted(r, rules))
    decreases |rules|
  {
    hide Precedes;
    if rules != [] {
      PrecedesIsTotal(r, rules[0], r);
      if Precedes(r, rules[0]) {
        forall k | k in rules ensures Precedes(r, k) {
          PrecedesIsTotal(r, rules[0], k);
        }
        PrependIsSorted(r, rules);
      } else {
        InsertedIsSorted(r, rules[1..]);
        forall k | k in Inserted(r, rules[1..]) ensures Precedes(rules[0], k) {
          InsertedHolds(r, rules[1..], k);
        }
        PrependIsSorted(rules[0], Inserted(r, rules[1..]));
      }
    }
  }

  /** Stands for the library's sorts, stable or not: callers may rely on this contract only. */
  method SortRules(rules: seq<CompiledRule>) returns (sorted: seq<CompiledRule>)
    ensures Sorted(sorted) && multiset(sorted) == multiset(rules)
  {
    sorted := [];
    for i := 0 to |rules|
      invariant Sorted(sorted) && multiset(sorted) == multiset(rules[..i])
    {
      InsertedIsSorted(rules[i], sorted);
      InsertedIsAPermutation(rules[i], sorted);
      sorted := Inserted(rules[i], sorted);
      assert rules[..i + 1] == rules[..i] + [rules[i]];
    }
    assert rules[..|rules|] == rules;
  }

  // ----- compiling -----

  ghost predicate IsCompilation(lib: Library, rules: seq<Rule>, compiled: seq<CompiledRule>)
  {
    AllCompile(lib, rules) && multiset(compiled) == multiset(CompileAll(lib, rules))
  }

  lemma CompilationCovers(lib: Library, rules: seq<Rule>, compiled: seq<CompiledRule>)
    requires IsCompilation(lib, rules, compiled)
    ensures forall k :: k in compiled ==> exists r :: r in rules && Compiles(lib, r) && Compile(lib, r) == k
    ensures forall r :: r in rules ==> Compiles(lib, r) && Compile(lib, r) in compiled
  {
    var all := CompileAll(lib, rules);
    forall k | k in compiled ensures exists r :: r in rules && Compiles(lib, r) && Compile(lib, r) == k {
      assert k in multiset(compiled);
      assert k in all;
      var i :| 0 <= i < |all| && all[i] == k;
      assert rules[i] in rules;
    }
    forall r | r in rules ensures Compiles(lib, r) && Compile(lib, r) in compiled {
      var i :| 0 <= i < |rules| && rules[i] == r;
      assert all[i] == Compile(lib, r) && all[i] in multiset(all);
      assert all[i] in multiset(compiled);
    }
  }

  method CompileDestinations(lib: Library, texts: seq<string>) returns (r: Option<seq<Destination>>)
    ensures r.Some? <==> forall i :: 0 <= i < |texts| ==> CompileDestination(lib, texts[i]).Some?
    ensures r.Some? ==> |r.value| == |texts|
    ensures r.Some? ==> forall i :: 0 <= i < |texts| ==> CompileDestination(lib, texts[i]) == Some(r.value[i])
  {
    var out := [];
    for i := 0 to |texts|
      invariant |out| == i && forall j :: 0 <= j < i ==> CompileDestination(lib, texts[j]) == Some(out[j])
    {
      var d := CompileDestination(lib, texts[i]);
      if d.None? { return None; }
      out := out + [d.value];
    }
    return Some(out);
  }

  method CompilePorts(texts: seq<string>) returns (r: Option<seq<Ports>>)
    ensures r.Some? <==> forall i :: 0 <= i < |texts| ==> ParsePorts(texts[i]).Some?
    ensures r.Some? ==> |r.value| == |texts|
    ensures r.Some? ==> forall i :: 0 <= i < |texts| ==> ParsePorts(texts[i]) == Some(r.value[i])
  {
    var out := [];
    for i := 0 to |texts|
      invariant |out| == i && forall j :: 0 <= j < i ==> ParsePorts(texts[j]) == Some(out[j])
    {
      var p := ParsePorts(texts[i]);
      if p.None? { return None; }
      out := out + [p.value];
    }
    return Some(out);
  }

  method CompileRule(lib: Library, r: Rule) returns (k: Option<CompiledRule>)
    ensures k.Some? <==> Compiles(lib, r)
    ensures k.Some? ==> k.value == Compile(lib, r)
  {
    var destinations := CompileDestinations(lib, r.destinations);
    var ports := CompilePorts(r.ports);
    if destinations.None? || ports.None? { return None; }
    k := Some(CompiledRule(r.action, r.description, destinations.value, ports.value, r.protocols, r.priority));
    assert k.value.destinations == Compile(lib, r).destinations;
    assert k.value.ports == Compile(lib, r).ports;
  }

  /** The compiled rules of one user or group, pre-sorted. */
  method CompileRules(lib: Library, rules: seq<Rule>) returns (r: Option<seq<CompiledRule>>)
    ensures r.Some? <==> AllCompile(lib, rules)
    ensures r.Some? ==> IsCompilation(lib, rules, r.value) && Sorted(r.value)
  {
    var out := [];
    for i := 0 to |rules|
      invariant AllCompile(lib, rules[..i]) && out == CompileAll(lib, rules[..i])
    {
      var k := CompileRule(lib, rules[i]);
      if k.None? { return None; }
      out := out + [k.value];
      assert rules[..i + 1] == rules[..i] + [rules[i]];
    }
    assert rules[..|rules|] == rules;
    var sorted := SortRules(out);
    return Some(sorted);
  }

  ghost predicate UsersRepresent(lib: Library, users: map<string, CompiledUser>, source: seq<UserAcl>)
  {
    forall name ::
      var u := LastUser(source, name);
      && (name in users <==> u.Some?)
      && (name in users ==> users[name].groups == u.value.groups
                            && IsCompilation(lib, u.value.rules, users[name].rules))
  }

  ghost predicate GroupsRepresent(lib: Library, groups: map<string, seq<CompiledRule>>, source: seq<GroupAcl>)
  {
    forall name ::
      var g := LastGroup(source, name);
      && (name in groups <==> g.Some?)
      && (name in groups ==> IsCompilation(lib, g.value.rules, groups[name]))
  }

  ghost predicate LowerGroupsRepresent(lib: Library, groups: map<string, seq<CompiledRule>>, source: seq<GroupAcl>)
  {
    forall lower ::
      var g := LastGroupIgnoringCase(source, lower);
      && (lower in groups <==> g.Some?)
      && (lower in groups ==> IsCompilation(lib, g.value.rules, groups[lower]))
  }

  ghost predicate Represents(lib: Library, k: Compiled, c: Config)
  {
    && k.defaultPolicy == c.defaultPolicy
    && UsersRepresent(lib, k.users, c.users)
    && GroupsRepresent(lib, k.groups, c.groups)
    && LowerGroupsRepresent(lib, k.groupsByLower, c.groups)
  }

  lemma OneMoreUser(lib: Library, users: map<string, CompiledUser>, source: seq<UserAcl>, u: UserAcl, k: CompiledUser)
    requires UsersRepresent(lib, users, source)
    requires k.groups == u.groups && IsCompilation(lib, u.rules, k.rules)
    ensures UsersRepresent(lib, users[u.username := k], source + [u])
  {
    var all := source + [u];
    assert all[..|source|] == source;
    forall name ensures LastUser(all, name) == if name == u.username then Some(u) else LastUser(source, name) {}
    hide IsCompilation, LastUser;
  }

  lemma OneMoreGroup(lib: Library, groups: map<string, seq<CompiledRule>>, byLower: map<string, seq<CompiledRule>>,
                     source: seq<GroupAcl>, g: GroupAcl, k: seq<CompiledRule>)
    requires GroupsRepresent(lib, groups, source) && LowerGroupsRepresent(lib, byLower, source)
    requires IsCompilation(lib, g.rules, k)
    ensures GroupsRepresent(lib, groups[g.name := k], source + [g])
    ensures LowerGroupsRepresent(lib, byLower[Lower(g.name) := k], source + [g])
  {
    var all := source + [g];
    assert all[..|source|] == source;
    forall name ensures LastGroup(all, name) == if name == g.name then Some(g) else LastGroup(source, name) {}
    forall l ensures LastGroupIgnoringCase(all, l)
                     == if l == Lower(g.name) then Some(g) else LastGroupIgnoringCase(source, l) {}
    hide IsCompilation, LastGroup, LastGroupIgnoringCase;
  }

  method CompileUsers(lib: Library, source: seq<UserAcl>) returns (r: Option<map<string, CompiledUser>>)
    ensures r.Some? <==> forall i :: 0 <= i < |source| ==> AllCompile(lib, source[i].rules)
    ensures r.Some? ==> UsersRepresent(lib, r.value, source)
  {
    hide AllCompile, IsCompilation, Sorted;
    var users: map<string, CompiledUser> := map[];
    for i := 0 to |source|
      invariant UsersRepresent(lib, users, source[..i])
      invariant forall j :: 0 <= j < i ==> AllCompile(lib, source[j].rules)
    {
      var u := source[i];
      var rules := CompileRules(lib, u.rules);
      if rules.None? { return None; }
      var k := CompiledUser(u.groups, rules.value);
      OneMoreUser(lib, users, source[..i], u, k);
      assert source[..i] + [u] == source[..i + 1];
      users := users[u.username := k];
    }
    assert source[..|source|] == source;
    return Some(users);
  }

  method CompileGroups(lib: Library, source: seq<GroupAcl>)
    returns (r: Option<(map<string, seq<CompiledRule>>, map<string, seq<CompiledRule>>)>)
    ensures r.Some? <==> forall i :: 0 <= i < |source| ==> AllCompile(lib, source[i].rules)
    ensures r.Some? ==> GroupsRepresent(lib, r.value.0, source) && LowerGroupsRepresent(lib, r.value.1, source)
  {
    hide AllCompile, IsCompilation, Sorted;
    var groups: map<string, seq<CompiledRule>> := map[];
    var byLower: map<string, seq<CompiledRule>> := map[];
    for i := 0 to |source|
      invariant GroupsRepresent(lib, groups, source[..i]) && LowerGroupsRepresent(lib, byLower, source[..i])
      invariant forall j :: 0 <= j < i ==> AllCompile(lib, source[j].rules)
    {
      var g := source[i];
      var rules := CompileRules(lib, g.rules);
      if rules.None? { return None; }
      OneMoreGroup(lib, groups, byLower, source[..i], g, rules.value);
      assert source[..i] + [g] == source[..i + 1];
      groups := groups[g.name := rules.value];
      byLower := byLower[Lower(g.name) := rules.value];
    }
    assert source[..|source|] == source;
    return Some((groups, byLower));
  }

  method CompileConfig(lib: Library, c: Config) returns (r: Option<Compiled>)
    ensures r.Some? <==> ConfigCompiles(lib, c)
    ensures r.Some? ==> Represents(lib, r.value, c)
  {
    hide AllCompile, UsersRepresent, GroupsRepresent, LowerGroupsRepresent;
    var users := CompileUsers(lib, c.users);
    var groups := CompileGroups(lib, c.groups);
    if users.None? || groups.None? { return None; }
    return Some(Compiled(c.defaultPolicy, users.value, groups.value.0, groups.value.1));
  }

  // ----- deciding -----

  /** The list holds the compiled form of exactly the rules that apply. */
  ghost predicate Covers(lib: Library, rules: seq<CompiledRule>, applies: Rule -> bool)
  {
    && (forall k :: k in rules ==> exists r :: applies(r) && Compiles(lib, r) && Compile(lib, r) == k)
    && (forall r :: applies(r) ==> Compiles(lib, r) && Compile(lib, r) in rules)
  }

  /** On a sorted list the first match is a blocking rule if any matches, and of the highest priority of its kind. */
  lemma FirstMatchWins(lib: Library, sorted: seq<CompiledRule>, q: Request, i: nat, k: CompiledRule)
    requires Sorted(sorted) && i < |sorted| && CompiledMatches(lib, sorted[i], q)
    requires forall j :: 0 <= j < i ==> !CompiledMatches(lib, sorted[j], q)
    requires k in sorted && CompiledMatches(lib, k, q)
    ensures k.action.Block? ==> sorted[i].action.Block?
    ensures k.action == sorted[i].action ==> k.priority <= sorted[i].priority
  {
    var j :| 0 <= j < |sorted| && sorted[j] == k;
    if i < j { assert Precedes(sorted[i], sorted[j]); }
  }

  lemma FirstMatchIsThePolicy(lib: Library, sorted: seq<CompiledRule>, applies: Rule -> bool, q: Request, i: nat,
                              default: Action, fallback: string)
    requires RegexWorks(lib)
    requires Covers(lib, sorted, applies) && Sorted(sorted) && i < |sorted| && CompiledMatches(lib, sorted[i], q)
    requires forall j :: 0 <= j < i ==> !CompiledMatches(lib, sorted[j], q)
    ensures Verdict(applies, Taken(lib, q), default, sorted[i].action, sorted[i].description, fallback)
  {
    hide CompiledMatches, RuleTaken, Compiles, RegexWorks;
    var k := sorted[i];
    assert k in sorted;
    var r :| applies(r) && Compiles(lib, r) && Compile(lib, r) == k;
    CompiledMatchesAsTaken(lib, r, q);
    forall s | applies(s) && RuleTaken(lib, s, q)
      ensures s.action.Block? ==> k.action.Block?
      ensures s.action == k.action ==> s.priority <= k.priority
    {
      CompiledMatchesAsTaken(lib, s, q);
      FirstMatchWins(lib, sorted, q, i, Compile(lib, s));
    }
    assert IsReported(applies, Taken(lib, q), k.action, r);
    assert SomeMatch(applies, Taken(lib, q), k.action);
  }

  lemma NoMatchIsTheDefault(lib: Library, rules: seq<CompiledRule>, applies: Rule -> bool, q: Request,
                            default: Action, fallback: string)
    requires RegexWorks(lib) && Covers(lib, rules, applies)
    requires forall j :: 0 <= j < |rules| ==> !CompiledMatches(lib, rules[j], q)
    ensures Verdict(applies, Taken(lib, q), default, default, fallback, fallback)
  {
    hide CompiledMatches, RuleTaken, Compiles, RegexWorks;
    forall s | applies(s) ensures !RuleTaken(lib, s, q) {
      CompiledMatchesAsTaken(lib, s, q);
    }
  }

  /** Collected rules, in whatever order they were appended, become a verdict. */
  method Decide(lib: Library, rules: seq<CompiledRule>, ghost applies: Rule -> bool, q: Request, default: Action,
                whenEmpty: string) returns (decision: Action, reported: string)
    requires RegexWorks(lib) && Covers(lib, rules, applies)
    ensures Verdict(applies, Taken(lib, q), default, decision, reported, if rules == [] then whenEmpty else "Default policy")
  {
    hide Verdict, CompiledMatches, RegexWorks, Taken;
    if rules == [] {
      NoMatchIsTheDefault(lib, rules, applies, q, default, whenEmpty);
      return default, whenEmpty;
    }
    var sorted := SortRules(rules);
    SameCover(lib, rules, sorted, applies);
    for i := 0 to |sorted|
      invariant forall j :: 0 <= j < i ==> !CompiledMatches(lib, sorted[j], q)
    {
      if CompiledMatches(lib, sorted[i], q) {
        FirstMatchIsThePolicy(lib, sorted, applies, q, i, default, "Default policy");
        return sorted[i].action, sorted[i].description;
      }
    }
    NoMatchIsTheDefault(lib, sorted, applies, q, default, "Default policy");
    return default, "Default policy";
  }

  lemma SameCover(lib: Library, rules: seq<CompiledRule>, sorted: seq<CompiledRule>, applies: Rule -> bool)
    requires Covers(lib, rules, applies) && multiset(sorted) == multiset(rules)
    ensures Covers(lib, sorted, applies)
  {
    forall k ensures k in rules <==> k in sorted {
      assert k in rules <==> k in multiset(rules);
      assert k in sorted <==> k in multiset(sorted);
    }
  }

  lemma EmptyCover(lib: Library, rules: seq<CompiledRule>, applies: Rule -> bool)
    requires Covers(lib, rules, applies)
    ensures rules == [] <==> forall r :: !applies(r)
  {
    if rules != [] { assert rules[0] in rules; }
  }

  /** What is reported when the defaults decide. */
  ghost function Fallback(c: Config, user: string, groups: seq<string>): string
  {
    if forall r :: !Dynamic(c, user, groups)(r) then "Default policy (no matching groups)" else "Default policy"
  }

  lemma Extended(lib: Library, rules: seq<CompiledRule>, a: Rule -> bool, more: seq<CompiledRule>, source: seq<Rule>,
                 b: Rule -> bool)
    requires Covers(lib, rules, a) && IsCompilation(lib, source, more)
    requires forall r :: b(r) <==> a(r) || r in source
    ensures Covers(lib, rules + more, b)
  {
    CompilationCovers(lib, source, more);
    forall k | k in rules + more ensures exists r :: b(r) && Compiles(lib, r) && Compile(lib, r) == k {
      if k in rules {
        var r :| a(r) && Compiles(lib, r) && Compile(lib, r) == k;
        assert b(r);
      } else {
        var r :| r in source && Compiles(lib, r) && Compile(lib, r) == k;
        assert b(r);
      }
    }
  }

  lemma SameAppliesSameCover(lib: Library, rules: seq<CompiledRule>, a: Rule -> bool, b: Rule -> bool)
    requires Covers(lib, rules, a) && forall r :: a(r) <==> b(r)
    ensures Covers(lib, rules, b)
  {
    forall k | k in rules ensures exists r :: b(r) && Compiles(lib, r) && Compile(lib, r) == k {
      var r :| a(r) && Compiles(lib, r) && Compile(lib, r) == k;
      assert b(r);
    }
  }

  /** The user's own rules and those of its first n configured groups. */
  ghost function StaticUpTo(c: Config, user: string, n: nat): Rule -> bool
  {
    (r: Rule) =>
      || OwnRule(c, user, r)
      || (var u := LastUser(c.users, user);
          u.Some? && exists i :: 0 <= i < n && i < |u.value.groups| && GroupRule(c, u.value.groups[i], r))
  }

  ghost function DynamicUpTo(c: Config, user: string, groups: seq<string>, n: nat): Rule -> bool
  {
    (r: Rule) =>
      || OwnRule(c, user, r)
      || exists i :: 0 <= i < n && i < |groups| && GroupRuleIgnoringCase(c, groups[i], r)
  }

  ghost function Nobody(): Rule -> bool { (r: Rule) => false }

  class Engine {
    const lib: Library
    var config: Compiled
    ghost var source: Config

    ghost predicate Ok()
      reads this
    {
      RegexWorks(lib) && Represents(lib, config, source)
    }

    constructor (lib: Library, compiled: Compiled, ghost source: Config)
      requires RegexWorks(lib) && Represents(lib, compiled, source)
      ensures Ok() && this.lib == lib && this.source == source
    {
      this.lib := lib;
      this.config := compiled;
      this.source := source;
    }

    method OwnRules(user: string) returns (rules: seq<CompiledRule>)
      requires Ok()
      ensures Covers(lib, rules, StaticUpTo(source, user, 0))
      ensures Covers(lib, rules, DynamicUpTo(source, user, [], 0))
    {
      hide IsCompilation, Compiles;
      rules := [];
      assert Covers(lib, [], Nobody());
      var u := LastUser(source.users, user);
      if user in config.users {
        rules := config.users[user].rules;
        assert [] + rules == rules;
        Extended(lib, [], Nobody(), rules, u.value.rules, StaticUpTo(source, user, 0));
      } else {
        SameAppliesSameCover(lib, [], Nobody(), StaticUpTo(source, user, 0));
      }
      SameAppliesSameCover(lib, rules, StaticUpTo(source, user, 0), DynamicUpTo(source, user, [], 0));
    }

    /** The user's rules followed by those of each configured group. */
    method CollectRules(user: string) returns (rules: seq<CompiledRule>)
      requires Ok()
      ensures Covers(lib, rules, Static(source, user))
    {
      hide IsCompilation, Compiles, Covers, OwnRule;
      rules := OwnRules(user);
      if user in config.users {
        var groups := config.users[user].groups;
        for i := 0 to |groups|
          invariant Covers(lib, rules, StaticUpTo(source, user, i))
        {
          var before, after := StaticUpTo(source, user, i), StaticUpTo(source, user, i + 1);
          var g := LastGroup(source.groups, groups[i]);
          if groups[i] in config.groups {
            Extended(lib, rules, before, config.groups[groups[i]], g.value.rules, after);
            rules := rules + config.groups[groups[i]];
          } else {
            assert forall r :: !GroupRule(source, groups[i], r);
            SameAppliesSameCover(lib, rules, before, after);
          }
        }
        SameAppliesSameCover(lib, rules, StaticUpTo(source, user, |groups|), Static(source, user));
      } else {
        SameAppliesSameCover(lib, rules, StaticUpTo(source, user, 0), Static(source, user));
      }
    }

    /** The user's rules followed by those of each directory group that the configuration defines. */
    method CollectRulesFromGroups(user: string, groups: seq<string>) returns (rules: seq<CompiledRule>)
      requires Ok()
      ensures Covers(lib, rules, Dynamic(source, user, groups))
    {
      hide IsCompilation, Compiles, Covers, OwnRule;
      rules := OwnRules(user);
      SameAppliesSameCover(lib, rules, DynamicUpTo(source, user, [], 0), DynamicUpTo(source, user, groups, 0));
      for i := 0 to |groups|
        invariant Covers(lib, rules, DynamicUpTo(source, user, groups, i))
      {
        var before, after := DynamicUpTo(source, user, groups, i), DynamicUpTo(source, user, groups, i + 1);
        var lower := Lower(groups[i]);
        var g := LastGroupIgnoringCase(source.groups, lower);
        if lower in config.groupsByLower {
          Extended(lib, rules, before, config.groupsByLower[lower], g.value.rules, after);
          rules := rules + config.groupsByLower[lower];
        } else {
          assert forall r :: !GroupRuleIgnoringCase(source, groups[i], r);
          SameAppliesSameCover(lib, rules, before, after);
        }
      }
      SameAppliesSameCover(lib, rules, DynamicUpTo(source, user, groups, |groups|), Dynamic(source, user, groups));
    }

    /**
     * The configured policy, for every configuration and request and however ties are sorted: on what
     * the engine takes the rules for, and on what they mean if their patterns are faithful.
     */
    method Evaluate(user: string, q: Request) returns (decision: Action, reported: string)
      requires Ok()
      ensures Verdict(Static(source, user), Taken(lib, q), source.defaultPolicy, decision, reported, "Default policy")
      ensures AllFaithful(Static(source, user)) ==>
        Verdict(Static(source, user), Meant(lib, q), source.defaultPolicy, decision, reported, "Default policy")
    {
      hide Verdict, Covers, Static, UsersRepresent, GroupsRepresent, LowerGroupsRepresent, RegexWorks, Taken, Meant, AllFaithful;
      var rules := CollectRules(user);
      decision, reported := Decide(lib, rules, Static(source, user), q, config.defaultPolicy, "Default policy");
      if AllFaithful(Static(source, user)) {
        FaithfulVerdict(lib, Static(source, user), q, source.defaultPolicy, decision, reported, "Default policy");
      }
    }

    method EvaluateWithGroups(user: string, groups: seq<string>, q: Request) returns (decision: Action, reported: string)
      requires Ok()
      ensures Verdict(Dynamic(source, user, groups), Taken(lib, q), source.defaultPolicy, decision, reported,
                      Fallback(source, user, groups))
      ensures AllFaithful(Dynamic(source, user, groups)) ==>
        Verdict(Dynamic(source, user, groups), Meant(lib, q), source.defaultPolicy, decision, reported,
                Fallback(source, user, groups))
    {
      hide Verdict, Covers, Dynamic, UsersRepresent, GroupsRepresent, LowerGroupsRepresent, RegexWorks, Taken, Meant, AllFaithful;
      var rules := CollectRulesFromGroups(user, groups);
      EmptyCover(lib, rules, Dynamic(source, user, groups));
      decision, reported := Decide(lib, rules, Dynamic(source, user, groups), q, config.defaultPolicy,
                                   "Default policy (no matching groups)");
      if AllFaithful(Dynamic(source, user, groups)) {
        FaithfulVerdict(lib, Dynamic(source, user, groups), q, source.defaultPolicy, decision, reported,
                        Fallback(source, user, groups));
      }
    }

    /** A new configuration takes effect only if it validates and compiles; otherwise nothing changes. */
    method Reload(c: Config) returns (ok: bool)
      requires Ok()
      modifies this
      ensures Ok() && ok == (Valid(c) && ConfigCompiles(lib, c))
      ensures source == if ok then c else old(source)
      ensures !ok ==> config == old(config)
    {
      hide ConfigCompiles, Valid, UsersRepresent, GroupsRepresent, LowerGroupsRepresent, RegexWorks;
      var valid := Validate(c);
      if !valid { return false; }
      var compiled := CompileConfig(lib, c);
      if compiled.None? { return false; }
      config := compiled.value;
      source := c;
      return true;
    }
  }

  /** Duplicate names and dangling group references, found with a set of the names seen so far. */
  method Validate(c: Config) returns (ok: bool)
    ensures ok == Valid(c)
  {
    var users: set<string> := {};
    for i := 0 to |c.users|
      invariant users == set j | 0 <= j < i :: c.users[j].username
      invariant forall j, k :: 0 <= j < k < i ==> c.users[j].username != c.users[k].username
    {
      if c.users[i].username in users { return false; }
      users := users + {c.users[i].username};
    }
    var groups: set<string> := {};
    for i := 0 to |c.groups|
      invariant groups == set j | 0 <= j < i :: c.groups[j].name
      invariant forall j, k :: 0 <= j < k < i ==> c.groups[j].name != c.groups[k].name
    {
      if c.groups[i].name in groups { return false; }
      groups := groups + {c.groups[i].name};
    }
    for i := 0 to |c.users|
      invariant forall j, k :: 0 <= j < i && 0 <= k < |c.users[j].groups| ==> Defines(c, c.users[j].groups[k])
    {
      for m := 0 to |c.users[i].groups|
        invariant forall k :: 0 <= k < m ==> Defines(c, c.users[i].groups[k])
      {
        if c.users[i].groups[m] !in groups { return false; }
      }
    }
    return true;
  }
}
