/** Access control: the declarative policy, and the rules as they are compiled. */
module Acl {
  import opened Basics
  import opened Wildcard
  import opened PortTexts

  datatype Action = Allow | Block

  datatype Protocol = Tcp | Udp | Both

  datatype Ip = V4(bits: nat) | V6(bits: nat)

  datatype Address = IPv4(bits: nat) | IPv6(bits: nat) | Domain(name: string)

  datatype Request = Request(dest: Address, port: nat, protocol: Protocol)

  /** Parsers and matchers that come from libraries. */
  datatype Library = Library(
    parseIp: string -> Option<Ip>,
    isCidr: string -> bool,
    cidrContains: (string, Ip) -> bool,
    regexIsValid: string -> bool,
    regexIsMatch: (string, string) -> bool)

  datatype Destination = MatchAll | IpIs(ip: Ip) | InCidr(cidr: string) | DomainIs(name: string) | LikeRegex(regex: string)

  datatype Rule = Rule(action: Action, description: string, destinations: seq<string>, ports: seq<string>,
                       protocols: seq<Protocol>, priority: nat)

  datatype CompiledRule = CompiledRule(action: Action, description: string, destinations: seq<Destination>,
                                       ports: seq<Ports>, protocols: seq<Protocol>, priority: nat)

  datatype UserAcl = UserAcl(username: string, groups: seq<string>, rules: seq<Rule>)

  datatype GroupAcl = GroupAcl(name: string, rules: seq<Rule>)

  datatype Config = Config(defaultPolicy: Action, users: seq<UserAcl>, groups: seq<GroupAcl>)

  // ----- matching -----

  predicate ProtocolMatches(p: Protocol, q: Protocol) { p.Both? || q.Both? || p == q }

  function AddressIp(lib: Library, a: Address): Option<Ip>
  {
    match a
    case IPv4(bits) => Some(V4(bits))
    case IPv6(bits) => Some(V6(bits))
    case Domain(name) => lib.parseIp(name)
  }

  predicate DestinationMatches(lib: Library, d: Destination, a: Address)
  {
    match d
    case MatchAll => true
    case IpIs(ip) => AddressIp(lib, a) == Some(ip)
    case InCidr(cidr) => var ip := AddressIp(lib, a); ip.Some? && lib.cidrContains(cidr, ip.value)
    case DomainIs(name) => a.Domain? && Lower(name) == Lower(a.name)
    case LikeRegex(regex) => a.Domain? && lib.regexIsMatch(regex, Lower(a.name))
  }

  predicate CompiledMatches(lib: Library, r: CompiledRule, q: Request)
  {
    && (exists i :: 0 <= i < |r.protocols| && ProtocolMatches(r.protocols[i], q.protocol))
    && (exists i :: 0 <= i < |r.destinations| && DestinationMatches(lib, r.destinations[i], q.dest))
    && (exists i :: 0 <= i < |r.ports| && PortsMatch(r.ports[i], q.port))
  }

  // ----- compiling one rule -----

  function CompileDestination(lib: Library, s: string): Option<Destination>
  {
    if s == "*" then Some(MatchAll)
    else if '*' in s then
      if lib.regexIsValid(Regex(s)) then Some(LikeRegex(Regex(s))) else None
    else match lib.parseIp(s)
      case Some(ip) => Some(IpIs(ip))
      case None => Some(if lib.isCidr(s) then InCidr(s) else DomainIs(Lower(s)))
  }

  predicate Compiles(lib: Library, r: Rule)
  {
    && (forall i :: 0 <= i < |r.destinations| ==> CompileDestination(lib, r.destinations[i]).Some?)
    && (forall i :: 0 <= i < |r.ports| ==> ParsePorts(r.ports[i]).Some?)
  }

  function Compile(lib: Library, r: Rule): CompiledRule
    requires Compiles(lib, r)
  {
    CompiledRule(r.action, r.description,
      seq(|r.destinations|, i requires 0 <= i < |r.destinations| => CompileDestination(lib, r.destinations[i]).value),
      seq(|r.ports|, i requires 0 <= i < |r.ports| => ParsePorts(r.ports[i]).value),
      r.protocols, r.priority)
  }

  predicate AllCompile(lib: Library, rules: seq<Rule>) { forall i :: 0 <= i < |rules| ==> Compiles(lib, rules[i]) }

  function CompileAll(lib: Library, rules: seq<Rule>): seq<CompiledRule>
    requires AllCompile(lib, rules)
  {
    seq(|rules|, i requires 0 <= i < |rules| => Compile(lib, rules[i]))
  }

  predicate ConfigCompiles(lib: Library, c: Config)
  {
    && (forall i :: 0 <= i < |c.users| ==> AllCompile(lib, c.users[i].rules))
    && (forall i :: 0 <= i < |c.groups| ==> AllCompile(lib, c.groups[i].rules))
  }

  // ----- what destinations and rules mean -----

  predicate Starred(text: string) { text != "*" && '*' in text }

  /** An address is this IP: given as such, or as a name that spells it. */
  predicate IsIp(lib: Library, a: Address, ip: Ip)
  {
    || (a.IPv4? && ip == V4(a.bits))
    || (a.IPv6? && ip == V6(a.bits))
    || (a.Domain? && lib.parseIp(a.name) == Some(ip))
  }

  predicate SameLetter(c: char, d: char)
  {
    || c == d
    || ('a' <= c <= 'z' && 'A' <= d <= 'Z' && c as int - 'a' as int == d as int - 'A' as int)
    || ('A' <= c <= 'Z' && 'a' <= d <= 'z' && c as int - 'A' as int == d as int - 'a' as int)
  }

  /** Letter by letter the same, except for the case of ASCII letters. */
  predicate SameName(a: string, b: string)
  {
    |a| == |b| && forall i :: 0 <= i < |a| ==> SameLetter(a[i], b[i])
  }

  /** What a destination as written stands for: everything, a pattern's hosts, an address, a network or a name. */
  ghost predicate DestinationMeans(lib: Library, text: string, a: Address)
  {
    if text == "*" then true
    else if '*' in text then a.Domain? && Means(text, a.name)
    else match lib.parseIp(text)
      case Some(ip) => IsIp(lib, a, ip)
      case None =>
        if lib.isCidr(text) then exists ip :: IsIp(lib, a, ip) && lib.cidrContains(text, ip)
        else a.Domain? && SameName(text, a.name)
  }

  /** What the engine makes of it: the same, except that a pattern stands for what its expression matches. */
  ghost predicate DestinationTaken(lib: Library, text: string, a: Address)
  {
    if Starred(text) then a.Domain? && CodeMatches(text, a.name) else DestinationMeans(lib, text, a)
  }

  /** The ports that a text stands for, if it is a port expression. */
  predicate PortMeans(text: string, port: nat)
  {
    ParsePorts(text).Some? && StandsFor(ParsePorts(text).value, port)
  }

  /** The transports that a protocol stands for. */
  function Transports(p: Protocol): set<Protocol>
  {
    match p case Tcp => {Tcp} case Udp => {Udp} case Both => {Tcp, Udp}
  }

  predicate ProtocolMeant(r: Rule, q: Request)
  {
    exists i :: 0 <= i < |r.protocols| && !(Transports(r.protocols[i]) !! Transports(q.protocol))
  }

  predicate PortMeant(r: Rule, q: Request)
  {
    exists i :: 0 <= i < |r.ports| && PortMeans(r.ports[i], q.port)
  }

  /** A rule means a request when one of each of its lists does. */
  ghost predicate RuleMeans(lib: Library, r: Rule, q: Request)
  {
    && ProtocolMeant(r, q) && PortMeant(r, q)
    && exists i :: 0 <= i < |r.destinations| && DestinationMeans(lib, r.destinations[i], q.dest)
  }

  ghost predicate RuleTaken(lib: Library, r: Rule, q: Request)
  {
    && ProtocolMeant(r, q) && PortMeant(r, q)
    && exists i :: 0 <= i < |r.destinations| && DestinationTaken(lib, r.destinations[i], q.dest)
  }

  /** The regex library reads the expressions that the compiler writes as they are meant to be read. */
  ghost predicate RegexWorks(lib: Library)
  {
    forall pattern, text :: lib.regexIsMatch(Regex(pattern), text) <==> RegexMatches(Regex(pattern), text)
  }

  /** Compiling a destination changes nothing about what the engine takes it for. */
  lemma CompiledDestination(lib: Library, text: string, a: Address)
    requires RegexWorks(lib) && CompileDestination(lib, text).Some?
    ensures DestinationMatches(lib, CompileDestination(lib, text).value, a) <==> DestinationTaken(lib, text, a)
  {
    hide Regex, RegexMatches, Means, Lower, SameName;
    LowerIsIdempotent(text);
    if a.Domain? { LowerIgnoresCase(text, a.name); }
    forall ip ensures AddressIp(lib, a) == Some(ip) <==> IsIp(lib, a, ip) {}
  }

  /** Names are equal in lower case exactly if they are the same but for case. */
  lemma LowerIgnoresCase(a: string, b: string)
    ensures Lower(a) == Lower(b) <==> SameName(a, b)
  {
    if Lower(a) == Lower(b) {
      assert |Lower(a)| == |Lower(b)|;
      forall i | 0 <= i < |a| ensures SameLetter(a[i], b[i]) { assert Lower(a)[i] == Lower(b)[i]; }
    }
  }

  /** Protocols match exactly if they have a transport in common. */
  lemma MatchingIsMeeting(p: Protocol, q: Protocol)
    ensures ProtocolMatches(p, q) <==> !(Transports(p) !! Transports(q))
  {
    assert Tcp in Transports(p) * Transports(q) || Udp in Transports(p) * Transports(q) || Transports(p) !! Transports(q);
  }

  /** A compiled destination matches what it means, whatever the address, exactly if it has no stars, is one, or is faithful. */
  lemma CompiledDestinationIsRight(lib: Library, text: string)
    requires RegexWorks(lib) && CompileDestination(lib, text).Some?
    ensures (forall a :: DestinationMatches(lib, CompileDestination(lib, text).value, a) <==> DestinationMeans(lib, text, a))
       <==> (Starred(text) ==> Faithful(text))
  {
    hide Regex, RegexMatches, Means, CodeMatches, Faithful, CompileDestination, DestinationMatches;
    forall a ensures DestinationMatches(lib, CompileDestination(lib, text).value, a) <==> DestinationTaken(lib, text, a) {
      CompiledDestination(lib, text, a);
    }
    if Starred(text) {
      CodeIsRightExactlyOnFaithfulPatterns(text);
      if !Faithful(text) {
        var host :| CodeMatches(text, host) != Means(text, host);
        assert DestinationTaken(lib, text, Domain(host)) != DestinationMeans(lib, text, Domain(host));
      }
    }
  }

  /** A compiled rule matches exactly the requests that the engine takes the rule for. */
  lemma CompiledMatchesAsTaken(lib: Library, r: Rule, q: Request)
    requires RegexWorks(lib) && Compiles(lib, r)
    ensures CompiledMatches(lib, Compile(lib, r), q) <==> RuleTaken(lib, r, q)
  {
    hide DestinationMatches, DestinationTaken, CompileDestination, PortsMatch, RegexWorks, ParsePorts, StandsFor,
         ProtocolMatches, Transports;
    var k := Compile(lib, r);
    forall i | 0 <= i < |r.destinations|
      ensures DestinationMatches(lib, k.destinations[i], q.dest) <==> DestinationTaken(lib, r.destinations[i], q.dest)
    {
      CompiledDestination(lib, r.destinations[i], q.dest);
    }
    forall i | 0 <= i < |r.ports| ensures PortsMatch(k.ports[i], q.port) <==> PortMeans(r.ports[i], q.port) {
      MatchingIsMembership(k.ports[i], q.port);
    }
    forall i | 0 <= i < |r.protocols|
      ensures ProtocolMatches(r.protocols[i], q.protocol) <==> !(Transports(r.protocols[i]) !! Transports(q.protocol))
    {
      MatchingIsMeeting(r.protocols[i], q.protocol);
    }
  }

  ghost predicate RuleFaithful(r: Rule)
  {
    forall i :: 0 <= i < |r.destinations| && Starred(r.destinations[i]) ==> Faithful(r.destinations[i])
  }

  /** A rule whose patterns are faithful is taken for what it means. */
  lemma FaithfulRulesAreTakenAsMeant(lib: Library, r: Rule, q: Request)
    requires RuleFaithful(r)
    ensures RuleTaken(lib, r, q) <==> RuleMeans(lib, r, q)
  {
    hide Means, CodeMatches, Faithful, ProtocolMeant, PortMeant;
    forall i | 0 <= i < |r.destinations|
      ensures DestinationTaken(lib, r.destinations[i], q.dest) <==> DestinationMeans(lib, r.destinations[i], q.dest)
    {
      if Starred(r.destinations[i]) && q.dest.Domain? {
        FaithfulPatternsMeanWhatTheySay(r.destinations[i], q.dest.name);
      }
    }
  }

  /** A rule whose destinations are all patterns with an upper-case letter is never taken for anything. */
  lemma UpperCasePatternsDecideNothing(lib: Library, r: Rule, q: Request)
    requires forall i :: 0 <= i < |r.destinations| ==>
      Starred(r.destinations[i]) && StarsAreWhole(r.destinations[i]) && Lower(r.destinations[i]) != r.destinations[i]
    ensures !RuleTaken(lib, r, q)
  {
    hide Means, CodeMatches, StarsAreWhole, Lower;
    forall i | 0 <= i < |r.destinations| ensures !DestinationTaken(lib, r.destinations[i], q.dest) {
      if q.dest.Domain? { UpperCaseRulesAreDead(r.destinations[i], q.dest.name); }
    }
  }

  // ----- the rules that apply -----

  /** Later entries of the same name replace earlier ones. */
  function LastUser(users: seq<UserAcl>, name: string): Option<UserAcl>
  {
    if users == [] then None
    else if users[|users| - 1].username == name then Some(users[|users| - 1])
    else LastUser(users[..|users| - 1], name)
  }

  function LastGroup(groups: seq<GroupAcl>, name: string): Option<GroupAcl>
  {
    if groups == [] then None
    else if groups[|groups| - 1].name == name then Some(groups[|groups| - 1])
    else LastGroup(groups[..|groups| - 1], name)
  }

  function LastGroupIgnoringCase(groups: seq<GroupAcl>, lower: string): Option<GroupAcl>
  {
    if groups == [] then None
    else if Lower(groups[|groups| - 1].name) == lower then Some(groups[|groups| - 1])
    else LastGroupIgnoringCase(groups[..|groups| - 1], lower)
  }

  /** Whether a rule is the user's own. */
  ghost predicate OwnRule(c: Config, user: string, r: Rule)
  {
    var u := LastUser(c.users, user);
    u.Some? && r in u.value.rules
  }

  ghost predicate GroupRule(c: Config, group: string, r: Rule)
  {
    var g := LastGroup(c.groups, group);
    g.Some? && r in g.value.rules
  }

  ghost predicate GroupRuleIgnoringCase(c: Config, group: string, r: Rule)
  {
    var g := LastGroupIgnoringCase(c.groups, Lower(group));
    g.Some? && r in g.value.rules
  }

  /** The rules that apply to a user through the configured group memberships. */
  ghost predicate Applies(c: Config, user: string, r: Rule)
  {
    || OwnRule(c, user, r)
    || (var u := LastUser(c.users, user);
        u.Some? && exists i :: 0 <= i < |u.value.groups| && GroupRule(c, u.value.groups[i], r))
  }

  /** The rules that apply to a user whose groups come from the directory. */
  ghost predicate AppliesWith(c: Config, user: string, groups: seq<string>, r: Rule)
  {
    || OwnRule(c, user, r)
    || exists i :: 0 <= i < |groups| && GroupRuleIgnoringCase(c, groups[i], r)
  }

  // ----- the policy -----

  ghost function Meant(lib: Library, q: Request): Rule -> bool { (r: Rule) => RuleMeans(lib, r, q) }

  ghost function Taken(lib: Library, q: Request): Rule -> bool { (r: Rule) => RuleTaken(lib, r, q) }

  ghost predicate SomeMatch(applies: Rule -> bool, matches: Rule -> bool, action: Action)
  {
    exists r :: applies(r) && r.action == action && matches(r)
  }

  /** Any blocking rule wins, then any allowing rule, then the default. */
  ghost function Policy(applies: Rule -> bool, matches: Rule -> bool, default: Action): Action
  {
    if SomeMatch(applies, matches, Block) then Block
    else if SomeMatch(applies, matches, Allow) then Allow
    else default
  }

  /** The rule a decision is blamed on: it applies, matches, decided so, and none such has a higher priority. */
  ghost predicate IsReported(applies: Rule -> bool, matches: Rule -> bool, action: Action, r: Rule)
  {
    && applies(r) && r.action == action && matches(r)
    && forall s :: applies(s) && s.action == action && matches(s) ==> s.priority <= r.priority
  }

  /** A decision and the text reported with it are the policy's. */
  ghost predicate Verdict(applies: Rule -> bool, matches: Rule -> bool, default: Action, decision: Action,
                          reported: string, fallback: string)
  {
    && decision == Policy(applies, matches, default)
    && (if SomeMatch(applies, matches, Block) || SomeMatch(applies, matches, Allow)
        then exists r :: IsReported(applies, matches, decision, r) && reported == r.description
        else reported == fallback)
  }

  ghost function Static(c: Config, user: string): Rule -> bool { (r: Rule) => Applies(c, user, r) }

  ghost function Dynamic(c: Config, user: string, groups: seq<string>): Rule -> bool
  {
    (r: Rule) => AppliesWith(c, user, groups, r)
  }

  /** Only which of the applicable rules match is of any consequence. */
  lemma SameVerdict(applies: Rule -> bool, m1: Rule -> bool, m2: Rule -> bool, default: Action, decision: Action,
                    reported: string, fallback: string)
    requires forall r :: applies(r) ==> (m1(r) <==> m2(r))
    requires Verdict(applies, m1, default, decision, reported, fallback)
    ensures Verdict(applies, m2, default, decision, reported, fallback)
  {
    assert forall a :: SomeMatch(applies, m1, a) <==> SomeMatch(applies, m2, a);
    if SomeMatch(applies, m1, Block) || SomeMatch(applies, m1, Allow) {
      var r :| IsReported(applies, m1, decision, r) && reported == r.description;
      assert IsReported(applies, m2, decision, r);
    }
  }

  ghost predicate AllFaithful(applies: Rule -> bool) { forall r :: applies(r) ==> RuleFaithful(r) }

  /** If the patterns of the rules that apply are faithful, the verdict is the one that is meant. */
  lemma FaithfulVerdict(lib: Library, applies: Rule -> bool, q: Request, default: Action, decision: Action,
                        reported: string, fallback: string)
    requires AllFaithful(applies) && Verdict(applies, Taken(lib, q), default, decision, reported, fallback)
    ensures Verdict(applies, Meant(lib, q), default, decision, reported, fallback)
  {
    hide Verdict, RuleTaken, RuleMeans, RuleFaithful;
    forall r | applies(r) ensures Taken(lib, q)(r) <==> Meant(lib, q)(r) {
      FaithfulRulesAreTakenAsMeant(lib, r, q);
    }
    SameVerdict(applies, Taken(lib, q), Meant(lib, q), default, decision, reported, fallback);
  }

  ghost function Without(applies: Rule -> bool, rule: Rule): Rule -> bool { (r: Rule) => applies(r) && r != rule }

  /** So such a rule may as well not be there: a blocking one blocks nothing. */
  lemma UpperCaseRuleMayGo(lib: Library, applies: Rule -> bool, rule: Rule, q: Request, default: Action)
    requires forall i :: 0 <= i < |rule.destinations| ==>
      var d := rule.destinations[i];
      Starred(d) && StarsAreWhole(d) && Lower(d) != d
    ensures Policy(applies, Taken(lib, q), default) == Policy(Without(applies, rule), Taken(lib, q), default)
  {
    UpperCasePatternsDecideNothing(lib, rule, q);
    hide RuleTaken, StarsAreWhole, Lower;
    forall a ensures SomeMatch(applies, Taken(lib, q), a) <==> SomeMatch(Without(applies, rule), Taken(lib, q), a) {
      forall r | applies(r) && r.action == a && Taken(lib, q)(r) ensures Without(applies, rule)(r) {}
    }
  }

  /** A rule for one destination, whatever the port and protocol. */
  function OneDestination(action: Action, text: string, port: string): Rule { Rule(action, "", [text], [port], [Both], 1) }

  ghost function Only(rule: Rule): Rule -> bool { (r: Rule) => r == rule }

  /** Otherwise a policy of a single rule goes wrong: a pattern that is not faithful blocks the wrong hosts. */
  lemma UnfaithfulRuleGoesWrong(lib: Library, text: string, port: string, q: Request) returns (host: string)
    requires Starred(text) && !Faithful(text) && PortMeans(port, q.port)
    ensures var block := OneDestination(Block, text, port);
      var request := q.(dest := Domain(host));
      Policy(Only(block), Taken(lib, request), Allow) != Policy(Only(block), Meant(lib, request), Allow)
  {
    hide CodeMatches, Means, Faithful, PortMeans;
    CodeIsRightExactlyOnFaithfulPatterns(text);
    host :| CodeMatches(text, host) != Means(text, host);
    var block, request := OneDestination(Block, text, port), q.(dest := Domain(host));
    OneDestinationMatches(lib, block, request);
    assert SomeMatch(Only(block), Taken(lib, request), Block) <==> Taken(lib, request)(block);
    assert SomeMatch(Only(block), Meant(lib, request), Block) <==> Meant(lib, request)(block);
  }

  lemma OneDestinationMatches(lib: Library, r: Rule, q: Request)
    requires r.protocols == [Both] && |r.ports| == 1 && PortMeans(r.ports[0], q.port) && |r.destinations| == 1
    ensures RuleTaken(lib, r, q) <==> DestinationTaken(lib, r.destinations[0], q.dest)
    ensures RuleMeans(lib, r, q) <==> DestinationMeans(lib, r.destinations[0], q.dest)
  {
    hide DestinationTaken, DestinationMeans, PortMeans;
    assert q.protocol in Transports(r.protocols[0]) * Transports(q.protocol) || Tcp in Transports(r.protocols[0]) * Transports(q.protocol);
    assert PortMeans(r.ports[0], q.port);
  }

  // ----- groups -----

  /** The defined groups among these names, ignoring case. */
  ghost predicate Names(c: Config, groups: seq<string>, lower: string)
  {
    LastGroupIgnoringCase(c.groups, lower).Some? && exists i :: 0 <= i < |groups| && Lower(groups[i]) == lower
  }

  lemma DynamicOnlyThroughNames(c: Config, user: string, groups: seq<string>, others: seq<string>, r: Rule)
    requires forall lower :: Names(c, groups, lower) ==> Names(c, others, lower)
    requires AppliesWith(c, user, groups, r)
    ensures AppliesWith(c, user, others, r)
  {
    if !OwnRule(c, user, r) {
      var i :| 0 <= i < |groups| && GroupRuleIgnoringCase(c, groups[i], r);
      assert Names(c, groups, Lower(groups[i]));
      var j :| 0 <= j < |others| && Lower(others[j]) == Lower(groups[i]);
      assert GroupRuleIgnoringCase(c, others[j], r);
    }
  }

  lemma SamePolicy(a: Rule -> bool, b: Rule -> bool, matches: Rule -> bool, default: Action)
    requires forall r :: a(r) <==> b(r)
    ensures Policy(a, matches, default) == Policy(b, matches, default)
  {
    assert SomeMatch(a, matches, Block) <==> SomeMatch(b, matches, Block);
    assert SomeMatch(a, matches, Allow) <==> SomeMatch(b, matches, Allow);
  }

  /**
   * Only which configured groups are named, ignoring case, matters: reordering, repeating or re-casing
   * the directory's groups, or adding groups the configuration does not define, changes no decision.
   */
  lemma OnlyDefinedNamesMatter(c: Config, user: string, groups: seq<string>, others: seq<string>,
                               matches: Rule -> bool)
    requires forall lower :: Names(c, groups, lower) <==> Names(c, others, lower)
    ensures Policy(Dynamic(c, user, groups), matches, c.defaultPolicy)
         == Policy(Dynamic(c, user, others), matches, c.defaultPolicy)
  {
    forall r ensures Dynamic(c, user, groups)(r) <==> Dynamic(c, user, others)(r) {
      if AppliesWith(c, user, groups, r) { DynamicOnlyThroughNames(c, user, groups, others, r); }
      if AppliesWith(c, user, others, r) { DynamicOnlyThroughNames(c, user, others, groups, r); }
    }
    SamePolicy(Dynamic(c, user, groups), Dynamic(c, user, others), matches, c.defaultPolicy);
  }

  /** What `validate` demands. */
  ghost predicate Valid(c: Config)
  {
    && (forall i, j :: 0 <= i < j < |c.users| ==> c.users[i].username != c.users[j].username)
    && (forall i, j :: 0 <= i < j < |c.groups| ==> c.groups[i].name != c.groups[j].name)
    && (forall i, k :: 0 <= i < |c.users| && 0 <= k < |c.users[i].groups| ==> Defines(c, c.users[i].groups[k]))
  }

  ghost predicate Defines(c: Config, group: string)
  {
    exists j :: 0 <= j < |c.groups| && c.groups[j].name == group
  }

  // ----- when the two evaluations agree -----

  /** The groups configured for a user; none if the user is not configured. */
  function GroupsOf(c: Config, user: string): seq<string>
  {
    if LastUser(c.users, user).Some? then LastUser(c.users, user).value.groups else []
  }

  /** A group that the user's configured groups lead to by name. */
  ghost predicate Reached(c: Config, user: string, name: string)
  {
    name in GroupsOf(c, user) && LastGroup(c.groups, name).Some?
  }

  /** One that they lead to ignoring case. */
  ghost predicate ReachedIgnoringCase(c: Config, user: string, name: string)
  {
    exists i :: 0 <= i < |GroupsOf(c, user)| && IsFound(c.groups, GroupsOf(c, user)[i], name)
  }

  predicate IsFound(groups: seq<GroupAcl>, group: string, name: string)
  {
    var g := LastGroupIgnoringCase(groups, Lower(group));
    g.Some? && g.value.name == name
  }

  /** What can be checked of a configuration: both ways of looking its groups up lead to the same ones. */
  ghost predicate LookupsLeadToTheSame(c: Config, user: string)
  {
    forall name :: Reached(c, user, name) <==> ReachedIgnoringCase(c, user, name)
  }

  lemma {:induction false} LastIgnoringCaseIsLast(groups: seq<GroupAcl>, lower: string)
    requires LastGroupIgnoringCase(groups, lower).Some?
    ensures var g := LastGroupIgnoringCase(groups, lower).value;
      Lower(g.name) == lower && LastGroup(groups, g.name) == Some(g)
    decreases |groups|
  {
    if Lower(groups[|groups| - 1].name) != lower { LastIgnoringCaseIsLast(groups[..|groups| - 1], lower); }
  }

  /** If so, deciding from the configured groups and from a directory that reports them is the same. */
  lemma EvaluationsAgree(c: Config, user: string, matches: Rule -> bool)
    requires LookupsLeadToTheSame(c, user)
    ensures Policy(Static(c, user), matches, c.defaultPolicy)
         == Policy(Dynamic(c, user, GroupsOf(c, user)), matches, c.defaultPolicy)
  {
    var groups := GroupsOf(c, user);
    hide LastGroup, LastGroupIgnoringCase, Lower, LastUser;
    forall r ensures Static(c, user)(r) <==> Dynamic(c, user, groups)(r) {
      forall i | 0 <= i < |groups| && GroupRule(c, groups[i], r) ensures AppliesWith(c, user, groups, r) {
        assert Reached(c, user, groups[i]);
        var j :| 0 <= j < |groups| && IsFound(c.groups, groups[j], groups[i]);
        LastIgnoringCaseIsLast(c.groups, Lower(groups[j]));
        assert GroupRuleIgnoringCase(c, groups[j], r);
      }
      forall i | 0 <= i < |groups| && GroupRuleIgnoringCase(c, groups[i], r) ensures Applies(c, user, r) {
        var g := LastGroupIgnoringCase(c.groups, Lower(groups[i])).value;
        LastIgnoringCaseIsLast(c.groups, Lower(groups[i]));
        assert IsFound(c.groups, groups[i], g.name);
        assert Reached(c, user, g.name);
        var j :| 0 <= j < |groups| && groups[j] == g.name;
        assert GroupRule(c, groups[j], r);
      }
      assert Applies(c, user, r) ==> AppliesWith(c, user, groups, r);
    }
    SamePolicy(Static(c, user), Dynamic(c, user, groups), matches, c.defaultPolicy);
  }

  /** The same users, memberships and group names, with this rule for the groups of one name and no other rule. */
  function MarkedUsers(users: seq<UserAcl>): seq<UserAcl>
  {
    seq(|users|, i requires 0 <= i < |users| => users[i].(rules := []))
  }

  function MarkedGroups(groups: seq<GroupAcl>, name: string, mark: Rule): seq<GroupAcl>
  {
    seq(|groups|, i requires 0 <= i < |groups| => MarkedGroup(groups[i], name, mark))
  }

  function MarkedGroup(g: GroupAcl, name: string, mark: Rule): GroupAcl
  {
    g.(rules := if g.name == name then [mark] else [])
  }

  function Marked(c: Config, name: string, mark: Rule): Config
  {
    Config(Allow, MarkedUsers(c.users), MarkedGroups(c.groups, name, mark))
  }

  lemma {:induction false} MarkedUser(users: seq<UserAcl>, user: string)
    ensures LastUser(MarkedUsers(users), user)
         == if LastUser(users, user).Some? then Some(LastUser(users, user).value.(rules := [])) else None
    decreases |users|
  {
    if users != [] {
      var n := |users| - 1;
      assert MarkedUsers(users)[..n] == MarkedUsers(users[..n]);
      MarkedUser(users[..n], user);
    }
  }

  lemma {:induction false} MarkedLookups(groups: seq<GroupAcl>, name: string, mark: Rule, group: string)
    ensures LastGroup(MarkedGroups(groups, name, mark), group)
         == if LastGroup(groups, group).Some? then Some(MarkedGroup(LastGroup(groups, group).value, name, mark)) else None
    ensures LastGroupIgnoringCase(MarkedGroups(groups, name, mark), group)
         == if LastGroupIgnoringCase(groups, group).Some?
            then Some(MarkedGroup(LastGroupIgnoringCase(groups, group).value, name, mark)) else None
    decreases |groups|
  {
    if groups != [] {
      var n := |groups| - 1;
      assert MarkedGroups(groups, name, mark)[..n] == MarkedGroups(groups[..n], name, mark);
      MarkedLookups(groups[..n], name, mark, group);
    }
  }

  lemma {:induction false} LastGroupHasTheName(groups: seq<GroupAcl>, name: string)
    requires LastGroup(groups, name).Some?
    ensures LastGroup(groups, name).value.name == name
    decreases |groups|
  {
    if groups[|groups| - 1].name != name { LastGroupHasTheName(groups[..|groups| - 1], name); }
  }

  /** In the marked configuration the marked rule applies exactly if its group is reached. */
  lemma MarkApplies(c: Config, user: string, name: string, mark: Rule, r: Rule)
    ensures Applies(Marked(c, name, mark), user, r) <==> r == mark && Reached(c, user, name)
    ensures AppliesWith(Marked(c, name, mark), user, GroupsOf(c, user), r)
       <==> r == mark && ReachedIgnoringCase(c, user, name)
  {
    var m := Marked(c, name, mark);
    var groups := GroupsOf(c, user);
    MarkedUser(c.users, user);
    assert !OwnRule(m, user, r);
    hide LastUser;
    forall g ensures GroupRule(m, g, r) <==> r == mark && g == name && LastGroup(c.groups, g).Some? {
      MarkedLookups(c.groups, name, mark, g);
      if LastGroup(c.groups, g).Some? { LastGroupHasTheName(c.groups, g); }
    }
    forall g ensures GroupRuleIgnoringCase(m, g, r) <==> r == mark && IsFound(c.groups, g, name) {
      MarkedLookups(c.groups, name, mark, Lower(g));
    }
    hide GroupRule, GroupRuleIgnoringCase, IsFound, LastGroup;
  }

  /** If not, there are rules for these very users and groups on which the two evaluations decide differently. */
  lemma EvaluationsDisagree(c: Config, user: string, mark: Rule, matches: Rule -> bool) returns (name: string)
    requires !LookupsLeadToTheSame(c, user) && mark.action.Block? && matches(mark)
    ensures var m := Marked(c, name, mark);
      && GroupsOf(m, user) == GroupsOf(c, user)
      && Policy(Static(m, user), matches, m.defaultPolicy)
         != Policy(Dynamic(m, user, GroupsOf(c, user)), matches, m.defaultPolicy)
  {
    name :| Reached(c, user, name) != ReachedIgnoringCase(c, user, name);
    var m := Marked(c, name, mark);
    MarkedUser(c.users, user);
    forall r
      ensures Static(m, user)(r) <==> r == mark && Reached(c, user, name)
      ensures Dynamic(m, user, GroupsOf(c, user))(r) <==> r == mark && ReachedIgnoringCase(c, user, name)
    {
      MarkApplies(c, user, name, mark, r);
    }
    hide Reached, ReachedIgnoringCase, Static, Dynamic, GroupsOf;
    assert SomeMatch(Static(m, user), matches, Block) <==> Static(m, user)(mark);
    assert SomeMatch(Dynamic(m, user, GroupsOf(c, user)), matches, Block) <==> Dynamic(m, user, GroupsOf(c, user))(mark);
  }

  lemma {:induction false} LastUserIsAUser(users: seq<UserAcl>, name: string)
    requires LastUser(users, name).Some?
    ensures exists i :: 0 <= i < |users| && users[i] == LastUser(users, name).value
    decreases |users|
  {
    if users[|users| - 1].username != name {
      LastUserIsAUser(users[..|users| - 1], name);
      var i :| 0 <= i < |users| - 1 && users[..|users| - 1][i] == LastUser(users, name).value;
      assert users[i] == LastUser(users, name).value;
    }
  }

  lemma {:induction false} DefinedIsFound(groups: seq<GroupAcl>, j: nat)
    requires j < |groups|
    ensures LastGroup(groups, groups[j].name).Some? && LastGroupIgnoringCase(groups, Lower(groups[j].name)).Some?
    decreases |groups|
  {
    if j < |groups| - 1 { DefinedIsFound(groups[..|groups| - 1], j); }
  }

  /** In a valid configuration: each of the user's groups is the last one with its lower-case name. */
  lemma ValidLookups(c: Config, user: string)
    requires Valid(c)
    ensures LookupsLeadToTheSame(c, user)
       <==> forall i :: 0 <= i < |GroupsOf(c, user)| ==> IsFound(c.groups, GroupsOf(c, user)[i], GroupsOf(c, user)[i])
  {
    var groups := GroupsOf(c, user);
    forall i | 0 <= i < |groups| ensures LastGroup(c.groups, groups[i]).Some? && Reached(c, user, groups[i]) {
      LastUserIsAUser(c.users, user);
      assert Defines(c, groups[i]);
      var j :| 0 <= j < |c.groups| && c.groups[j].name == groups[i];
      DefinedIsFound(c.groups, j);
    }
    hide LastGroup, LastUser, Lower, Valid, GroupsOf;
    forall i, j | 0 <= i < |groups| && 0 <= j < |groups| && IsFound(c.groups, groups[j], groups[i])
      ensures IsFound(c.groups, groups[i], groups[i])
    {
      LastIgnoringCaseIsLast(c.groups, Lower(groups[j]));
    }
    hide IsFound;
    if LookupsLeadToTheSame(c, user) {
      forall i | 0 <= i < |groups| ensures IsFound(c.groups, groups[i], groups[i]) {
        assert ReachedIgnoringCase(c, user, groups[i]);
        var j :| 0 <= j < |groups| && IsFound(c.groups, groups[j], groups[i]);
      }
    }
    if forall i :: 0 <= i < |groups| ==> IsFound(c.groups, groups[i], groups[i]) {
      forall name ensures Reached(c, user, name) <==> ReachedIgnoringCase(c, user, name) {
        if ReachedIgnoringCase(c, user, name) {
          var i :| 0 <= i < |groups| && IsFound(c.groups, groups[i], name);
          FoundOnce(c.groups, groups[i], name, groups[i]);
        }
      }
    }
  }

  lemma FoundOnce(groups: seq<GroupAcl>, group: string, a: string, b: string)
    requires IsFound(groups, group, a) && IsFound(groups, group, b)
    ensures a == b
  {}

  /** In particular if no two groups have the same name ignoring case. */
  lemma DistinctNamesSuffice(c: Config, user: string)
    requires Valid(c) && forall i, j :: 0 <= i < j < |c.groups| ==> Lower(c.groups[i].name) != Lower(c.groups[j].name)
    ensures LookupsLeadToTheSame(c, user)
  {
    var groups := GroupsOf(c, user);
    forall i | 0 <= i < |groups| ensures IsFound(c.groups, groups[i], groups[i]) {
      LastUserIsAUser(c.users, user);
      assert Defines(c, groups[i]);
      var j :| 0 <= j < |c.groups| && c.groups[j].name == groups[i];
      DefinedIsFound(c.groups, j);
      FoundIsAGroup(c.groups, Lower(groups[i]));
      LastIgnoringCaseIsLast(c.groups, Lower(groups[i]));
    }
    hide Valid;
    ValidLookups(c, user);
  }

  lemma {:induction false} FoundIsAGroup(groups: seq<GroupAcl>, lower: string)
    requires LastGroupIgnoringCase(groups, lower).Some?
    ensures exists i :: 0 <= i < |groups| && groups[i] == LastGroupIgnoringCase(groups, lower).value
    decreases |groups|
  {
    var n := |groups| - 1;
    if Lower(groups[n].name) != lower {
      FoundIsAGroup(groups[..n], lower);
      var i :| 0 <= i < n && groups[..n][i] == LastGroupIgnoringCase(groups, lower).value;
      assert groups[i] == LastGroupIgnoringCase(groups, lower).value;
    }
  }
}
