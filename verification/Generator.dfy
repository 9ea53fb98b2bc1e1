/** What internal/generator/singbox.go emits: the outbounds that are kept, the route rules, the routing
    lists' rule-sets and rules, and the DNS block. Each loop is proved against a function of the profile;
    GeneratorRefs says what holds of the whole config. */
module Generator {
  import opened Wrappers
  import opened Hybrid

  datatype Options = Options(hybrid: bool, tun: bool, ruleSetDetour: string, carriesVPNDNS: bool,
                             policies: map<string, nat>)

  /** An outbound, or an endpoint of the core; members is empty unless it is a group. */
  datatype Outbound = Outbound(tag: string, members: seq<string>)

  datatype RuleSet =
    | Remote(tag: string, detour: string)
    | Inline(tag: string, names: seq<string>, prefixes: seq<string>)

  /** target is None for the action reject; every entry of ruleSets has to match, by any of its tags. */
  datatype RouteRule = RouteRule(target: Option<string>, inline: bool, ruleSets: seq<seq<string>>)

  datatype DnsServerOut = DnsServerOut(tag: string, vpn: bool, detour: Option<string>, endpoint: Option<string>,
                                       resolver: Option<string>)

  /** server is None for the action reject. */
  datatype DnsRuleOut = DnsRuleOut(server: Option<string>, inline: bool, ruleSets: seq<seq<string>>)

  datatype DnsBlock = DnsBlock(servers: seq<DnsServerOut>, rules: seq<DnsRuleOut>, final: Option<string>)

  datatype Config = Config(outbounds: seq<Outbound>, sets: seq<RuleSet>, rules: seq<RouteRule>, final: string,
                           dns: Option<DnsBlock>)

  const BLOCK_ALL := RouteRule(None, true, [])

  // ---- Outbounds ----------------------------------------------------------------------------------

  predicate KeepsEndpoint(hybrid: bool, reach: set<string>, e: Endpoint) {
    e.enabled && (hybrid && (e.engine == AmneziaWG || e.engine.External?) ==> e.id in reach)
  }

  predicate KeepsGroup(p: Profile, hybrid: bool, reach: set<string>, g: Group) {
    hybrid && KernelEgress(p, g.id) ==> g.id in reach
  }

  function EndpointOutbounds(hybrid: bool, reach: set<string>, es: seq<Endpoint>): (out: seq<Outbound>)
    ensures forall o | o in out :: exists e | e in es :: KeepsEndpoint(hybrid, reach, e) && o == Outbound(e.id, [])
    ensures forall e | e in es && KeepsEndpoint(hybrid, reach, e) :: Outbound(e.id, []) in out
  {
    if es == [] then []
    else
      var before, last := EndpointOutbounds(hybrid, reach, es[..|es| - 1]), es[|es| - 1];
      assert forall e | e in es :: e in es[..|es| - 1] || e == last;
      assert last in es;
      before + (if KeepsEndpoint(hybrid, reach, last) then [Outbound(last.id, [])] else [])
  }

  function GroupOutbounds(p: Profile, hybrid: bool, reach: set<string>, gs: seq<Group>): (out: seq<Outbound>)
    ensures forall o | o in out ::
              exists g | g in gs :: KeepsGroup(p, hybrid, reach, g) && o == Outbound(g.id, g.members)
    ensures forall g | g in gs && KeepsGroup(p, hybrid, reach, g) :: Outbound(g.id, g.members) in out
  {
    if gs == [] then []
    else
      var before, last := GroupOutbounds(p, hybrid, reach, gs[..|gs| - 1]), gs[|gs| - 1];
      assert forall g | g in gs :: g in gs[..|gs| - 1] || g == last;
      assert last in gs;
      before + (if KeepsGroup(p, hybrid, reach, last) then [Outbound(last.id, last.members)] else [])
  }

  predicate UsesPolicy(rl: RoutingList) { rl.enabled && IsPolicy(rl.outbound) }

  /** One tag per access policy an enabled list points at, in order of first use. */
  function PolicyTags(ls: seq<RoutingList>): (tags: seq<string>)
    ensures forall t :: t in tags <==> exists rl | rl in ls :: UsesPolicy(rl) && rl.outbound == t
    ensures forall i, j | 0 <= i < j < |tags| :: tags[i] != tags[j]
  {
    if ls == [] then []
    else
      var before, last := PolicyTags(ls[..|ls| - 1]), ls[|ls| - 1];
      assert forall rl :: rl in ls <==> rl in ls[..|ls| - 1] || rl == last by { assert ls == ls[..|ls| - 1] + [last]; }
      before + (if UsesPolicy(last) && last.outbound !in before then [last.outbound] else [])
  }

  function Plain(tags: seq<string>): (out: seq<Outbound>)
    ensures |out| == |tags| && forall i | 0 <= i < |tags| :: out[i] == Outbound(tags[i], [])
  {
    if tags == [] then [] else Plain(tags[..|tags| - 1]) + [Outbound(tags[|tags| - 1], [])]
  }

  predicate HasMark(opts: Options, tag: string) {
    IsPolicy(tag) && tag[|POLICY|..] in opts.policies && opts.policies[tag[|POLICY|..]] != 0
  }

  predicate PoliciesKnown(p: Profile, opts: Options) {
    forall t | t in PolicyTags(p.lists) :: HasMark(opts, t)
  }

  function Outbounds(p: Profile, hybrid: bool, reach: set<string>): seq<Outbound> {
    [Outbound(DIRECT, [])] + EndpointOutbounds(hybrid, reach, p.endpoints) +
    GroupOutbounds(p, hybrid, reach, p.groups) + Plain(PolicyTags(p.lists))
  }

  /** ndmPolicyOutbounds: a policy without a mark refuses the whole config. */
  method PolicyOutbounds(p: Profile, opts: Options) returns (out: Option<seq<Outbound>>)
    ensures out.Some? <==> PoliciesKnown(p, opts)
    ensures out.Some? ==> out.value == Plain(PolicyTags(p.lists))
  {
    hide HasMark, IsPolicy;
    var tags: seq<string> := [];
    for i := 0 to |p.lists|
      invariant tags == PolicyTags(p.lists[..i])
    {
      assert p.lists[..i + 1][..i] == p.lists[..i];
      if p.lists[i].enabled && IsPolicy(p.lists[i].outbound) && p.lists[i].outbound !in tags {
        tags := tags + [p.lists[i].outbound];
      }
    }
    assert p.lists[..|p.lists|] == p.lists;
    var os: seq<Outbound> := [];
    for i := 0 to |tags|
      invariant os == Plain(tags[..i])
      invariant forall t | t in tags[..i] :: HasMark(opts, t)
    {
      assert tags[..i + 1][..i] == tags[..i];
      if !HasMark(opts, tags[i]) { return None; }
      os := os + [Outbound(tags[i], [])];
    }
    assert tags[..|tags|] == tags;
    out := Some(os);
  }

  method KeptEndpoints(p: Profile, hybrid: bool, reach: set<string>) returns (out: seq<Outbound>)
    ensures out == EndpointOutbounds(hybrid, reach, p.endpoints)
  {
    out := [];
    for i := 0 to |p.endpoints|
      invariant out == EndpointOutbounds(hybrid, reach, p.endpoints[..i])
    {
      assert p.endpoints[..i + 1][..i] == p.endpoints[..i];
      var e := p.endpoints[i];
      if !e.enabled { continue; }
      if e.engine == AmneziaWG || e.engine.External? {
        if !(hybrid && e.id !in reach) { out := out + [Outbound(e.id, [])]; }
        continue;
      }
      out := out + [Outbound(e.id, [])];
    }
    assert p.endpoints[..|p.endpoints|] == p.endpoints;
  }

  method KeptGroups(p: Profile, hybrid: bool, reach: set<string>) returns (out: seq<Outbound>)
    ensures out == GroupOutbounds(p, hybrid, reach, p.groups)
  {
    hide KernelEgress;
    out := [];
    for i := 0 to |p.groups|
      invariant out == GroupOutbounds(p, hybrid, reach, p.groups[..i])
    {
      assert p.groups[..i + 1][..i] == p.groups[..i];
      var g := p.groups[i];
      if hybrid && KernelEgress(p, g.id) && g.id !in reach { continue; }
      out := out + [Outbound(g.id, g.members)];
    }
    assert p.groups[..|p.groups|] == p.groups;
  }

  // ---- Rules and their geo sets -------------------------------------------------------------------

  predicate HasNonBlank(vals: seq<string>) { exists v | v in vals :: Trim(v) != "" }

  /** The tags of a geosite or geoip matcher: blank names name no set. */
  function GeoTags(prefix: string, names: seq<string>): seq<string> {
    if names == [] then []
    else
      var last := Trim(names[|names| - 1]);
      GeoTags(prefix, names[..|names| - 1]) + (if last != "" then [prefix + last] else [])
  }

  const GEOSITE := "geosite-"
  const GEOIP := "geoip-"

  /** The remote sets added for `tags`, downloaded directly. */
  function NewSets(tags: seq<string>, seen: set<string>): (sets: seq<RuleSet>)
    ensures forall s | s in sets :: s.tag in tags && s.tag !in seen && s == Remote(s.tag, DIRECT)
    ensures forall t | t in tags && t !in seen :: Remote(t, DIRECT) in sets
    ensures forall i, j | 0 <= i < j < |sets| :: sets[i].tag != sets[j].tag
  {
    if tags == [] then []
    else
      var before, last := tags[..|tags| - 1], tags[|tags| - 1];
      assert forall t :: t in tags <==> t in before || t == last by { assert tags == before + [last]; }
      var sets := NewSets(before, seen);
      assert forall i | 0 <= i < |sets| :: sets[i] in sets && sets[i].tag in before;
      sets + (if last in seen || last in before then [] else [Remote(last, DIRECT)])
  }

  function TagSet(tags: seq<string>): set<string> { set t | t in tags }

  lemma {:induction false} NewSetsAppend(tags: seq<string>, more: seq<string>, seen: set<string>)
    ensures NewSets(tags + more, seen) == NewSets(tags, seen) + NewSets(more, seen + TagSet(tags))
  {
    if more == [] {
      assert tags + more == tags;
    } else {
      var init := more[..|more| - 1];
      assert (tags + more)[..|tags + more| - 1] == tags + init;
      NewSetsAppend(tags, init, seen);
    }
  }

  lemma NoGeoTags(prefix: string)
    ensures GeoTags(prefix, []) == []
  {
  }

  lemma NewSetsOne(tags: seq<string>, tag: string, seen: set<string>)
    ensures NewSets(tags + [tag], seen) ==
            NewSets(tags, seen) + (if tag in seen + TagSet(tags) then [] else [Remote(tag, DIRECT)])
    ensures seen + TagSet(tags + [tag]) == seen + TagSet(tags) + {tag}
  {
  }

  lemma NothingNew(seen: set<string>)
    ensures NewSets([], seen) == [] && seen + TagSet([]) == seen
  {
  }

  lemma GeoTagsNext(prefix: string, names: seq<string>, i: nat)
    requires i < |names|
    ensures GeoTags(prefix, names[..i + 1]) ==
            GeoTags(prefix, names[..i]) + (if Trim(names[i]) != "" then [prefix + Trim(names[i])] else [])
  {
    assert names[..i + 1][..i] == names[..i];
    hide Trim;
  }

  /** The geo loops share one accumulator: a set whose tag has been seen is not added again. */
  method AddGeoTags(prefix: string, names: seq<string>, sets: seq<RuleSet>, seen: set<string>)
      returns (tags: seq<string>, sets': seq<RuleSet>, seen': set<string>)
    ensures tags == GeoTags(prefix, names)
    ensures sets' == sets + NewSets(tags, seen)
    ensures seen' == seen + TagSet(tags)
  {
    hide NewSets, TagSet, Trim, GeoTags;
    tags, sets', seen' := [], sets, seen;
    NoGeoTags(prefix);
    NothingNew(seen);
    for i := 0 to |names|
      invariant tags == GeoTags(prefix, names[..i])
      invariant sets' == sets + NewSets(tags, seen)
      invariant seen' == seen + TagSet(tags)
    {
      GeoTagsNext(prefix, names, i);
      var g := Trim(names[i]);
      if g != "" {
        var tag := prefix + g;
        NewSetsOne(tags, tag, seen);
        if tag !in seen' {
          assert sets' + [Remote(tag, DIRECT)] == sets + (NewSets(tags, seen) + [Remote(tag, DIRECT)]);
          seen' := seen' + {tag};
          sets' := sets' + [Remote(tag, DIRECT)];
        } else {
          assert seen' + {tag} == seen' && NewSets(tags, seen) + [] == NewSets(tags, seen);
        }
        tags := tags + [tag];
      }
    }
    assert names[..|names|] == names;
  }

  /** ruleMatch leaves no matcher out unless it is blank or the kernel's alone. */
  predicate InlineMatch(r: Rule) {
    HasNonBlank(r.domainSuffix) || HasNonBlank(r.domain) || HasNonBlank(r.ipCIDR) || r.port != [] ||
    HasNonBlank(r.sourceIPCIDR) || r.sourcePort != []
  }

  predicate DropsRule(p: Profile, hybrid: bool, r: Rule) {
    r.disabled || r.isDefault || (hybrid && KernelEgress(p, r.outbound) && IpOnlyKernelRule(r))
  }

  function AndSets(a: seq<string>, b: seq<string>): seq<seq<string>> {
    (if a != [] then [a] else []) + (if b != [] then [b] else [])
  }

  function Target(outbound: string): Option<string> {
    if IsBlock(outbound) then None else Some(Canonical(outbound))
  }

  function RuleTags(p: Profile, hybrid: bool, r: Rule): seq<string> {
    if DropsRule(p, hybrid, r) then [] else GeoTags(GEOSITE, r.geoSite) + GeoTags(GEOIP, r.geoIP)
  }

  function EmitRule(p: Profile, hybrid: bool, r: Rule): Option<RouteRule> {
    var gs, gi := GeoTags(GEOSITE, r.geoSite), GeoTags(GEOIP, r.geoIP);
    if DropsRule(p, hybrid, r) || (!InlineMatch(r) && gs == [] && gi == []) then None
    else Some(RouteRule(Target(r.outbound), InlineMatch(r), AndSets(gs, gi)))
  }

  function EmitRules(p: Profile, hybrid: bool, rs: seq<Rule>): (out: seq<RouteRule>)
    ensures forall o | o in out :: exists r | r in rs :: EmitRule(p, hybrid, r) == Some(o)
  {
    if rs == [] then []
    else
      var before, last := EmitRules(p, hybrid, rs[..|rs| - 1]), rs[|rs| - 1];
      assert last in rs;
      match EmitRule(p, hybrid, last)
      case None => before
      case Some(o) => before + [o]
  }

  function AllRuleTags(p: Profile, hybrid: bool, rs: seq<Rule>): (tags: seq<string>)
    ensures forall r, t | r in rs && t in RuleTags(p, hybrid, r) :: t in tags
    ensures forall t | t in tags :: exists r | r in rs :: t in RuleTags(p, hybrid, r)
  {
    if rs == [] then []
    else
      var before, last := rs[..|rs| - 1], rs[|rs| - 1];
      assert forall r | r in rs :: r in before || r == last;
      assert last in rs;
      AllRuleTags(p, hybrid, before) + RuleTags(p, hybrid, last)
  }

  function FinalOf(rs: seq<Rule>): (final: string)
    ensures final == DIRECT ||
            exists r | r in rs :: !r.disabled && r.isDefault && !IsBlock(r.outbound) && final == Canonical(r.outbound)
  {
    if rs == [] then DIRECT
    else
      var last := rs[|rs| - 1];
      assert last in rs;
      if !last.disabled && last.isDefault && !IsBlock(last.outbound) then Canonical(last.outbound)
      else FinalOf(rs[..|rs| - 1])
  }

  predicate BlocksByDefault(rs: seq<Rule>) {
    exists r | r in rs :: !r.disabled && r.isDefault && IsBlock(r.outbound)
  }

  lemma RulesNext(p: Profile, hybrid: bool, rs: seq<Rule>, i: nat)
    requires i < |rs|
    ensures var r := rs[i];
            && EmitRules(p, hybrid, rs[..i + 1]) == EmitRules(p, hybrid, rs[..i]) +
               (match EmitRule(p, hybrid, r) case None => [] case Some(o) => [o])
            && FinalOf(rs[..i + 1]) == (if !r.disabled && r.isDefault && !IsBlock(r.outbound) then Canonical(r.outbound)
                                        else FinalOf(rs[..i]))
            && AllRuleTags(p, hybrid, rs[..i + 1]) == AllRuleTags(p, hybrid, rs[..i]) + RuleTags(p, hybrid, r)
  {
    assert rs[..i + 1][..i] == rs[..i];
    hide EmitRule, RuleTags, Canonical, IsBlock;
  }

  lemma NoRules(p: Profile, hybrid: bool)
    ensures EmitRules(p, hybrid, []) == [] && FinalOf([]) == DIRECT && AllRuleTags(p, hybrid, []) == []
    ensures NewSets([], {}) == [] && TagSet([]) == {} && !BlocksByDefault([])
  {
  }

  method RouteFrom(p: Profile, hybrid: bool)
      returns (rules: seq<RouteRule>, final: string, sets: seq<RuleSet>, blockDefault: bool)
    ensures rules == EmitRules(p, hybrid, p.rules)
    ensures final == FinalOf(p.rules)
    ensures sets == NewSets(AllRuleTags(p, hybrid, p.rules), {})
    ensures blockDefault == BlocksByDefault(p.rules)
  {
    hide NewSets, TagSet, BlocksByDefault, EmitRule, EmitRules, RuleTags, AllRuleTags, FinalOf, Canonical, IsBlock;
    rules, final, sets, blockDefault := [], DIRECT, [], false;
    var seen: set<string> := {};
    NoRules(p, hybrid);
    for i := 0 to |p.rules|
      invariant rules == EmitRules(p, hybrid, p.rules[..i])
      invariant final == FinalOf(p.rules[..i])
      invariant sets == NewSets(AllRuleTags(p, hybrid, p.rules[..i]), {})
      invariant seen == TagSet(AllRuleTags(p, hybrid, p.rules[..i]))
      invariant blockDefault == BlocksByDefault(p.rules[..i])
    {
      var r := p.rules[i];
      assert p.rules[..i + 1] == p.rules[..i] + [r];
      RulesNext(p, hybrid, p.rules, i);
      AddedFromNone(AllRuleTags(p, hybrid, p.rules[..i]), RuleTags(p, hybrid, r));
      BlocksFurther(p.rules[..i], r);
      if !r.disabled && r.isDefault {
        if IsBlock(r.outbound) { blockDefault := true; } else { final := Canonical(r.outbound); }
      }
      var rule;
      rule, sets, seen := OneRule(p, hybrid, r, sets, seen);
      if rule.Some? { rules := rules + [rule.value]; }
    }
    assert p.rules[..|p.rules|] == p.rules;
  }

  /** The rest of routeFrom's loop, which emits a rule only when it is neither disabled nor the default. */
  method OneRule(p: Profile, hybrid: bool, r: Rule, sets0: seq<RuleSet>, seen0: set<string>)
      returns (rule: Option<RouteRule>, sets: seq<RuleSet>, seen: set<string>)
    ensures rule == EmitRule(p, hybrid, r)
    ensures sets == sets0 + NewSets(RuleTags(p, hybrid, r), seen0)
    ensures seen == seen0 + TagSet(RuleTags(p, hybrid, r))
  {
    hide NewSets, TagSet, KernelEgress, InlineMatch, Canonical, IsBlock, GeoTags, IpOnlyKernelRule;
    rule, sets, seen := None, sets0, seen0;
    NothingNew(seen0);
    if r.disabled || r.isDefault { return; }
    if hybrid && KernelEgress(p, r.outbound) && IpOnlyKernelRule(r) { return; }
    var gs, gi;
    gs, sets, seen := AddGeoTags(GEOSITE, r.geoSite, sets, seen);
    gi, sets, seen := AddGeoTags(GEOIP, r.geoIP, sets, seen);
    AddedInTurn(sets0, gs, gi, seen0);
    if !InlineMatch(r) && gs == [] && gi == [] { return; }
    var refs := if gs != [] && gi != [] then [gs, gi] else if gs != [] then [gs] else if gi != [] then [gi] else [];
    assert refs == AndSets(gs, gi);
    rule := Some(RouteRule(if IsBlock(r.outbound) then None else Some(Canonical(r.outbound)), InlineMatch(r), refs));
  }

  lemma AddedInTurn(sets0: seq<RuleSet>, a: seq<string>, b: seq<string>, seen: set<string>)
    ensures sets0 + NewSets(a, seen) + NewSets(b, seen + TagSet(a)) == sets0 + NewSets(a + b, seen)
    ensures seen + TagSet(a) + TagSet(b) == seen + TagSet(a + b)
  {
    hide NewSets, TagSet;
    NewSetsAppend(a, b, seen);
    TagSetAppend(a, b);
  }

  lemma AddedFromNone(a: seq<string>, b: seq<string>)
    ensures NewSets(a, {}) + NewSets(b, TagSet(a)) == NewSets(a + b, {})
    ensures TagSet(a) + TagSet(b) == TagSet(a + b)
  {
    hide NewSets, TagSet;
    NewSetsAppend(a, b, {});
    TagSetAppend(a, b);
    assert {} + TagSet(a) == TagSet(a);
  }

  lemma TagSetAppend(a: seq<string>, b: seq<string>)
    ensures TagSet(a + b) == TagSet(a) + TagSet(b)
  {
  }

  lemma BlocksFurther(before: seq<Rule>, r: Rule)
    ensures BlocksByDefault(before + [r]) <==>
            BlocksByDefault(before) || (!r.disabled && r.isDefault && IsBlock(r.outbound))
  {
  }

  // ---- Routing lists ------------------------------------------------------------------------------

  predicate EmitsRemote(rl: RoutingList) { rl.source != "" && rl.loadable }

  predicate NoSourceScope(rl: RoutingList) { rl.scopeMode == Only && rl.scopeIPs == [] }

  predicate KernelRoutedList(p: Profile, hybrid: bool, rl: RoutingList) {
    hybrid && KernelEgress(p, rl.outbound) && PureIPs(rl)
  }

  predicate SkipsList(p: Profile, hybrid: bool, rl: RoutingList) {
    !rl.enabled || NoSourceScope(rl) || KernelRoutedList(p, hybrid, rl)
  }

  /** The fetched addresses are left to the kernel when the list stays for its names only. */
  predicate LeavesFeed(p: Profile, hybrid: bool, rl: RoutingList) {
    hybrid && KernelEgress(p, rl.outbound) && rl.source == "" && rl.cidrCache != [] &&
    (rl.scopeMode == Unscoped || rl.scopeMode == All)
  }

  function InlineEntries(p: Profile, hybrid: bool, rl: RoutingList): seq<Entry> {
    if LeavesFeed(p, hybrid, rl) then rl.manual + rl.domainCache else Entries(rl)
  }

  predicate Matches(es: seq<Entry>) { Names(es) != [] || Prefixes(es) != [] }

  function RemoteTag(rl: RoutingList): string { "rs-" + rl.id }
  function InlineTag(rl: RoutingList): string { "rsm-" + rl.id }

  function Detour(rl: RoutingList, ruleSetDetour: string): string {
    if rl.downloadVia != "" then Canonical(rl.downloadVia)
    else if ruleSetDetour != "" then Canonical(ruleSetDetour)
    else DIRECT
  }

  function ListSets(p: Profile, opts: Options, rl: RoutingList): seq<RuleSet> {
    if SkipsList(p, opts.hybrid, rl) then []
    else
      var es := InlineEntries(p, opts.hybrid, rl);
      (if EmitsRemote(rl) then [Remote(RemoteTag(rl), Detour(rl, opts.ruleSetDetour))] else []) +
      (if Matches(es) then [Inline(InlineTag(rl), Names(es), Prefixes(es))] else [])
  }

  function TagsOf(sets: seq<RuleSet>): (tags: seq<string>)
    ensures |tags| == |sets| && forall i | 0 <= i < |sets| :: tags[i] == sets[i].tag
  {
    seq(|sets|, i requires 0 <= i < |sets| => sets[i].tag)
  }

  function EmitList(p: Profile, opts: Options, rl: RoutingList): Option<RouteRule> {
    var sets := ListSets(p, opts, rl);
    if sets == [] then None
    else Some(RouteRule(Target(rl.outbound), rl.scopeMode == Only, [TagsOf(sets)]))
  }

  function AllListSets(p: Profile, opts: Options, ls: seq<RoutingList>): (sets: seq<RuleSet>)
    ensures forall s :: s in sets <==> exists rl | rl in ls :: s in ListSets(p, opts, rl)
  {
    if ls == [] then []
    else
      var before, last := ls[..|ls| - 1], ls[|ls| - 1];
      assert forall rl :: rl in ls <==> rl in before || rl == last by { assert ls == before + [last]; }
      AllListSets(p, opts, before) + ListSets(p, opts, last)
  }

  /** The rules of the lists that reject, or of those that do not, in list order. */
  function ListRules(p: Profile, opts: Options, ls: seq<RoutingList>, rejecting: bool): (out: seq<RouteRule>)
    ensures forall o | o in out ::
              o.target.None? == rejecting && exists rl | rl in ls :: EmitList(p, opts, rl) == Some(o)
  {
    if ls == [] then []
    else
      var before, last := ListRules(p, opts, ls[..|ls| - 1], rejecting), ls[|ls| - 1];
      assert last in ls;
      var o := EmitList(p, opts, last);
      before + (if o.Some? && o.value.target.None? == rejecting then [o.value] else [])
  }

  lemma OneListMore(p: Profile, opts: Options, ls: seq<RoutingList>, i: nat)
    requires i < |ls|
    ensures AllListSets(p, opts, ls[..i + 1]) == AllListSets(p, opts, ls[..i]) + ListSets(p, opts, ls[i])
    ensures forall rejecting ::
              ListRules(p, opts, ls[..i + 1], rejecting) ==
              ListRules(p, opts, ls[..i], rejecting) +
              (var o := EmitList(p, opts, ls[i]);
               if o.Some? && o.value.target.None? == rejecting then [o.value] else [])
  {
    hide ListSets, EmitList;
    assert ls[..i + 1][..i] == ls[..i];
  }

  lemma NoLists(p: Profile, opts: Options)
    ensures AllListSets(p, opts, []) == [] && ListRules(p, opts, [], true) == [] && ListRules(p, opts, [], false) == []
  {
  }

  method RoutingFrom(p: Profile, opts: Options) returns (sets: seq<RuleSet>, rules: seq<RouteRule>)
    ensures sets == AllListSets(p, opts, p.lists)
    ensures rules == ListRules(p, opts, p.lists, true) + ListRules(p, opts, p.lists, false)
  {
    hide AllListSets, ListRules, ListSets, EmitList;
    sets := [];
    var rejects: seq<RouteRule>, routes: seq<RouteRule> := [], [];
    NoLists(p, opts);
    for i := 0 to |p.lists|
      invariant sets == AllListSets(p, opts, p.lists[..i])
      invariant rejects == ListRules(p, opts, p.lists[..i], true)
      invariant routes == ListRules(p, opts, p.lists[..i], false)
    {
      OneListMore(p, opts, p.lists, i);
      var mine, rule := OneList(p, opts, p.lists[i]);
      sets := sets + mine;
      if rule.Some? {
        if rule.value.target.None? { rejects := rejects + [rule.value]; } else { routes := routes + [rule.value]; }
      }
    }
    assert p.lists[..|p.lists|] == p.lists;
    rules := rejects + routes;
  }

  /** The body of routingFrom's loop. */
  method OneList(p: Profile, opts: Options, rl: RoutingList) returns (sets: seq<RuleSet>, rule: Option<RouteRule>)
    ensures sets == ListSets(p, opts, rl) && rule == EmitList(p, opts, rl)
  {
    hide KernelEgress, Names, Prefixes, Canonical, IsBlock;
    sets, rule := [], None;
    if !rl.enabled { return; }
    if rl.scopeMode == Only && rl.scopeIPs == [] { return; }
    if opts.hybrid && KernelEgress(p, rl.outbound) && rl.source == "" {
      var domains, ips := SplitDomainsIPs(Entries(rl));
      if domains == [] && ips != [] { return; }
    }
    var tags: seq<string> := [];
    if rl.source != "" && rl.loadable {
      var tag := RemoteTag(rl);
      var detour := if rl.downloadVia != "" then Canonical(rl.downloadVia)
                    else if opts.ruleSetDetour != "" then Canonical(opts.ruleSetDetour) else DIRECT;
      sets, tags := sets + [Remote(tag, detour)], tags + [tag];
    }
    var domains, ips := SplitDomainsIPs(Entries(rl));
    if opts.hybrid && KernelEgress(p, rl.outbound) && rl.source == "" && rl.cidrCache != [] &&
       (rl.scopeMode == Unscoped || rl.scopeMode == All) {
      domains, ips := SplitDomainsIPs(rl.manual + rl.domainCache);
    }
    if domains != [] || ips != [] {
      var tag := InlineTag(rl);
      sets, tags := sets + [Inline(tag, domains, ips)], tags + [tag];
    }
    assert sets == ListSets(p, opts, rl);
    assert tags == TagsOf(sets);
    if tags == [] { return; }
    var target := if IsBlock(rl.outbound) then None else Some(Canonical(rl.outbound));
    rule := Some(RouteRule(target, rl.scopeMode == Only, [tags]));
  }

  // ---- DNS ----------------------------------------------------------------------------------------

  predicate DropsServer(opts: Options, s: DnsServer) {
    !s.enabled || (s.kind == FakeIP && !opts.tun) || (s.kind.VPN? && !opts.carriesVPNDNS)
  }

  function EmitServer(s: DnsServer): DnsServerOut {
    match s.kind
    case Local => DnsServerOut(s.tag, false, None, None, None)
    case FakeIP => DnsServerOut(s.tag, false, None, None, None)
    case VPN(_) => DnsServerOut(s.tag, true, None, Some(Trim(s.endpoint)), None)
    case Network =>
      var d := Canonical(Trim(s.detour));
      DnsServerOut(s.tag, false, if d != "" && d != DIRECT then Some(d) else None, None,
                   if Trim(s.domainResolver) != "" then Some(s.domainResolver) else None)
  }

  function EmitServers(opts: Options, ss: seq<DnsServer>): (out: seq<DnsServerOut>)
    ensures forall o | o in out :: exists s | s in ss :: !DropsServer(opts, s) && o == EmitServer(s)
    ensures forall s | s in ss && !DropsServer(opts, s) :: EmitServer(s) in out
  {
    if ss == [] then []
    else
      var before, last := EmitServers(opts, ss[..|ss| - 1]), ss[|ss| - 1];
      assert forall s | s in ss :: s in ss[..|ss| - 1] || s == last;
      assert last in ss;
      before + (if DropsServer(opts, last) then [] else [EmitServer(last)])
  }

  function DroppedTags(opts: Options, ss: seq<DnsServer>): (tags: set<string>)
    ensures forall t :: t in tags <==> exists s | s in ss :: DropsServer(opts, s) && s.tag == t
  {
    if ss == [] then {}
    else
      var before, last := ss[..|ss| - 1], ss[|ss| - 1];
      assert forall s :: s in ss <==> s in before || s == last by { assert ss == before + [last]; }
      DroppedTags(opts, before) + (if DropsServer(opts, last) then {last.tag} else {})
  }

  method DnsServersFrom(opts: Options, ss: seq<DnsServer>) returns (servers: seq<DnsServerOut>, dropped: set<string>)
    ensures servers == EmitServers(opts, ss) && dropped == DroppedTags(opts, ss)
  {
    hide Trim, Canonical;
    servers, dropped := [], {};
    for i := 0 to |ss|
      invariant servers == EmitServers(opts, ss[..i]) && dropped == DroppedTags(opts, ss[..i])
    {
      assert ss[..i + 1][..i] == ss[..i];
      var s := ss[i];
      if !s.enabled || (s.kind == FakeIP && !opts.tun) || (s.kind.VPN? && !opts.carriesVPNDNS) {
        dropped := dropped + {s.tag};
        continue;
      }
      servers := servers + [EmitServer(s)];
    }
    assert ss[..|ss|] == ss;
  }

  /** dnsListTags of the list itself. */
  function TagsForDns(p: Profile, hybrid: bool, rl: RoutingList): seq<string> {
    if NoSourceScope(rl) then []
    else
      (if EmitsRemote(rl) then [RemoteTag(rl)] else []) +
      (if Matches(Entries(rl)) && !KernelRoutedList(p, hybrid, rl) then [InlineTag(rl)] else [])
  }

  function DnsTags(p: Profile, hybrid: bool, ls: seq<RoutingList>, id: string): seq<string> {
    if ls == [] then []
    else if ls[0].id == id && ls[0].enabled then TagsForDns(p, hybrid, ls[0])
    else DnsTags(p, hybrid, ls[1..], id)
  }

  method DnsListTags(p: Profile, id: string, hybrid: bool) returns (tags: seq<string>)
    ensures tags == DnsTags(p, hybrid, p.lists, id)
  {
    hide KernelEgress, Names, Prefixes;
    tags := [];
    for i := 0 to |p.lists|
      invariant tags == [] && DnsTags(p, hybrid, p.lists, id) == DnsTags(p, hybrid, p.lists[i..], id)
    {
      var rl := p.lists[i];
      assert p.lists[i..][0] == rl && p.lists[i..][1..] == p.lists[i + 1..];
      if rl.id != id || !rl.enabled { continue; }
      if rl.scopeMode == Only && rl.scopeIPs == [] { return; }
      if rl.source != "" && rl.loadable { tags := tags + [RemoteTag(rl)]; }
      var dom, ips := SplitDomainsIPs(Entries(rl));
      if dom != [] || ips != [] {
        var kernelRouted := hybrid && rl.source == "" && dom == [] && ips != [] && KernelEgress(p, rl.outbound);
        if !kernelRouted { tags := tags + [InlineTag(rl)]; }
      }
      assert tags == TagsForDns(p, hybrid, rl);
      return;
    }
    assert p.lists[|p.lists|..] == [];
  }

  function RuleListTags(p: Profile, hybrid: bool, ids: seq<string>): (tags: seq<string>)
    ensures forall t | t in tags :: exists id | id in ids :: t in DnsTags(p, hybrid, p.lists, id)
    ensures forall id, t | id in ids && t in DnsTags(p, hybrid, p.lists, id) :: t in tags
  {
    if ids == [] then []
    else
      var before, last := ids[..|ids| - 1], ids[|ids| - 1];
      assert forall id :: id in ids <==> id in before || id == last by { assert ids == before + [last]; }
      assert last in ids;
      RuleListTags(p, hybrid, before) + DnsTags(p, hybrid, p.lists, last)
  }

  predicate InlineDnsMatch(r: DnsRule) {
    HasNonBlank(r.domainSuffix) || HasNonBlank(r.domain) || HasNonBlank(r.queryType)
  }

  predicate DropsDnsRule(p: Profile, hybrid: bool, dropped: set<string>, r: DnsRule) {
    r.disabled || (r.server != REJECT && r.server in dropped) ||
    (r.ruleSets != [] && RuleListTags(p, hybrid, r.ruleSets) == [])
  }

  function DnsGeoTags(p: Profile, hybrid: bool, dropped: set<string>, r: DnsRule): seq<string> {
    if DropsDnsRule(p, hybrid, dropped, r) then [] else GeoTags(GEOSITE, r.geoSite)
  }

  function EmitDnsRule(p: Profile, hybrid: bool, dropped: set<string>, r: DnsRule): Option<DnsRuleOut> {
    var sets := AndSets(RuleListTags(p, hybrid, r.ruleSets), GeoTags(GEOSITE, r.geoSite));
    if DropsDnsRule(p, hybrid, dropped, r) || (!InlineDnsMatch(r) && sets == []) then None
    else Some(DnsRuleOut(if r.server == REJECT then None else Some(r.server), InlineDnsMatch(r), sets))
  }

  function EmitDnsRules(p: Profile, hybrid: bool, dropped: set<string>, rs: seq<DnsRule>): (out: seq<DnsRuleOut>)
    ensures forall o | o in out :: exists r | r in rs :: EmitDnsRule(p, hybrid, dropped, r) == Some(o)
    ensures forall r | r in rs && EmitDnsRule(p, hybrid, dropped, r).Some? ::
              EmitDnsRule(p, hybrid, dropped, r).value in out
  {
    if rs == [] then []
    else
      var before, last := EmitDnsRules(p, hybrid, dropped, rs[..|rs| - 1]), rs[|rs| - 1];
      assert forall r | r in rs :: r in rs[..|rs| - 1] || r == last;
      assert last in rs;
      match EmitDnsRule(p, hybrid, dropped, last)
      case None => before
      case Some(o) => before + [o]
  }

  function AllDnsGeoTags(p: Profile, hybrid: bool, dropped: set<string>, rs: seq<DnsRule>): (tags: seq<string>)
    ensures forall r, t | r in rs && t in DnsGeoTags(p, hybrid, dropped, r) :: t in tags
    ensures forall t | t in tags :: exists r | r in rs :: t in DnsGeoTags(p, hybrid, dropped, r)
  {
    if rs == [] then []
    else
      var before, last := rs[..|rs| - 1], rs[|rs| - 1];
      assert forall r | r in rs :: r in before || r == last;
      assert last in rs;
      AllDnsGeoTags(p, hybrid, dropped, before) + DnsGeoTags(p, hybrid, dropped, last)
  }

  method DnsRulesFrom(p: Profile, hybrid: bool, dropped: set<string>, rs: seq<DnsRule>, seen0: set<string>)
      returns (rules: seq<DnsRuleOut>, extra: seq<RuleSet>)
    ensures rules == EmitDnsRules(p, hybrid, dropped, rs)
    ensures extra == NewSets(AllDnsGeoTags(p, hybrid, dropped, rs), seen0)
  {
    hide NewSets, TagSet, EmitDnsRule, DnsGeoTags;
    rules, extra := [], [];
    var seen := seen0;
    NothingNew(seen0);
    for i := 0 to |rs|
      invariant rules == EmitDnsRules(p, hybrid, dropped, rs[..i])
      invariant extra == NewSets(AllDnsGeoTags(p, hybrid, dropped, rs[..i]), seen0)
      invariant seen == seen0 + TagSet(AllDnsGeoTags(p, hybrid, dropped, rs[..i]))
    {
      var r := rs[i];
      ghost var before := AllDnsGeoTags(p, hybrid, dropped, rs[..i]);
      assert rs[..i + 1][..i] == rs[..i];
      NewSetsAppend(before, DnsGeoTags(p, hybrid, dropped, r), seen0);
      TagSetAppend(before, DnsGeoTags(p, hybrid, dropped, r));
      var rule;
      rule, extra, seen := OneDnsRule(p, hybrid, dropped, r, extra, seen);
      if rule.Some? { rules := rules + [rule.value]; }
    }
    assert rs[..|rs|] == rs;
  }

  /** The body of dnsFrom's loop over its rules. */
  method OneDnsRule(p: Profile, hybrid: bool, dropped: set<string>, r: DnsRule, extra0: seq<RuleSet>,
                    seen0: set<string>)
      returns (rule: Option<DnsRuleOut>, extra: seq<RuleSet>, seen: set<string>)
    ensures rule == EmitDnsRule(p, hybrid, dropped, r)
    ensures extra == extra0 + NewSets(DnsGeoTags(p, hybrid, dropped, r), seen0)
    ensures seen == seen0 + TagSet(DnsGeoTags(p, hybrid, dropped, r))
  {
    hide NewSets, TagSet, GeoTags, InlineDnsMatch, RuleListTags;
    rule, extra, seen := None, extra0, seen0;
    NothingNew(seen0);
    if r.disabled { return; }
    if r.server != REJECT && r.server in dropped { return; }
    var listTags := ListTagsOf(p, hybrid, r.ruleSets);
    if r.ruleSets != [] && listTags == [] { return; }
    var geoTags;
    geoTags, extra, seen := AddGeoTags(GEOSITE, r.geoSite, extra, seen);
    var sets := if listTags != [] && geoTags != [] then [listTags, geoTags]
                else if listTags != [] then [listTags] else if geoTags != [] then [geoTags] else [];
    assert sets == AndSets(listTags, geoTags);
    if !InlineDnsMatch(r) && sets == [] { return; }
    rule := Some(DnsRuleOut(if r.server == REJECT then None else Some(r.server), InlineDnsMatch(r), sets));
  }

  method ListTagsOf(p: Profile, hybrid: bool, ids: seq<string>) returns (tags: seq<string>)
    ensures tags == RuleListTags(p, hybrid, ids)
  {
    hide DnsTags;
    tags := [];
    for i := 0 to |ids|
      invariant tags == RuleListTags(p, hybrid, ids[..i])
    {
      assert ids[..i + 1][..i] == ids[..i];
      var more := DnsListTags(p, ids[i], hybrid);
      tags := tags + more;
    }
    assert ids[..|ids|] == ids;
  }

  function FirstNotVPN(ss: seq<DnsServerOut>): (tag: Option<string>)
    ensures tag.Some? ==> exists s | s in ss :: s.tag == tag.value && !s.vpn
  {
    if ss == [] then None else if !ss[0].vpn then Some(ss[0].tag) else FirstNotVPN(ss[1..])
  }

  function DnsFinal(final: string, dropped: set<string>, servers: seq<DnsServerOut>): Option<string> {
    if final != "" && final !in dropped then Some(final)
    else if servers != [] && servers[0].vpn then FirstNotVPN(servers)
    else None
  }

  function DnsOut(p: Profile, opts: Options, d: DnsSettings): DnsBlock {
    var servers, dropped := EmitServers(opts, d.servers), DroppedTags(opts, d.servers);
    DnsBlock(servers, EmitDnsRules(p, opts.hybrid, dropped, d.rules), DnsFinal(d.final, dropped, servers))
  }

  function DnsSets(p: Profile, opts: Options, d: DnsSettings, seen: set<string>): seq<RuleSet> {
    NewSets(AllDnsGeoTags(p, opts.hybrid, DroppedTags(opts, d.servers), d.rules), seen)
  }

  method DnsFrom(p: Profile, opts: Options, d: DnsSettings, seen: set<string>)
      returns (block: DnsBlock, extra: seq<RuleSet>)
    ensures block == DnsOut(p, opts, d) && extra == DnsSets(p, opts, d, seen)
  {
    hide EmitServers, DroppedTags, EmitDnsRules, AllDnsGeoTags, NewSets;
    var servers, dropped := DnsServersFrom(opts, d.servers);
    var rules;
    rules, extra := DnsRulesFrom(p, opts.hybrid, dropped, d.rules, seen);
    var final: Option<string> := None;
    if d.final != "" && d.final !in dropped { final := Some(d.final); }
    if final.None? && servers != [] && servers[0].vpn {
      var i := 0;
      while i < |servers| && servers[i].vpn
        invariant i <= |servers| && FirstNotVPN(servers) == FirstNotVPN(servers[i..])
      {
        i := i + 1;
      }
      if i < |servers| { final := Some(servers[i].tag); }
    }
    block := DnsBlock(servers, rules, final);
  }

  // ---- Generate -----------------------------------------------------------------------------------

  function RouteSets(p: Profile, opts: Options): seq<RuleSet> {
    NewSets(AllRuleTags(p, opts.hybrid, p.rules), {}) + AllListSets(p, opts, p.lists)
  }

  function RouteRules(p: Profile, opts: Options): seq<RouteRule> {
    EmitRules(p, opts.hybrid, p.rules) + ListRules(p, opts, p.lists, true) + ListRules(p, opts, p.lists, false) +
    (if BlocksByDefault(p.rules) then [BLOCK_ALL] else [])
  }

  predicate HasDns(p: Profile) { p.dns.Some? && p.dns.value.enabled }

  ghost function Generated(p: Profile, opts: Options): Config {
    var sets := RouteSets(p, opts);
    Config(Outbounds(p, opts.hybrid, Reach(p)),
           if HasDns(p) then sets + DnsSets(p, opts, p.dns.value, set s | s in sets :: s.tag) else sets,
           RouteRules(p, opts), FinalOf(p.rules),
           if HasDns(p) then Some(DnsOut(p, opts, p.dns.value)) else None)
  }

  /** The outbounds part of Generate. */
  method OutboundsFrom(p: Profile, opts: Options) returns (out: Option<seq<Outbound>>)
    ensures out.Some? <==> PoliciesKnown(p, opts)
    ensures out.Some? ==> out.value == Outbounds(p, opts.hybrid, Reach(p))
  {
    hide EndpointOutbounds, GroupOutbounds, Plain, PolicyTags, PoliciesKnown;
    var reachable: set<string> := {};
    if opts.hybrid { reachable := HybridReachable(p); } else { EverythingKept(p, reachable, Reach(p)); }
    var endpoints := KeptEndpoints(p, opts.hybrid, reachable);
    var groups := KeptGroups(p, opts.hybrid, reachable);
    var policies := PolicyOutbounds(p, opts);
    if policies.None? { return None; }
    out := Some([Outbound(DIRECT, [])] + endpoints + groups + policies.value);
  }

  /** The route part: user rules, then list rules, then the catch-all. */
  method RouteParts(p: Profile, opts: Options) returns (sets: seq<RuleSet>, rules: seq<RouteRule>, final: string)
    ensures sets == RouteSets(p, opts) && rules == RouteRules(p, opts) && final == FinalOf(p.rules)
  {
    hide EmitRules, ListRules, AllListSets, NewSets, FinalOf, BlocksByDefault, AllRuleTags;
    var userRules, geoSets, blockDefault;
    userRules, final, geoSets, blockDefault := RouteFrom(p, opts.hybrid);
    var listSets, listRules := RoutingFrom(p, opts);
    sets := geoSets + listSets;
    rules := userRules + listRules;
    if blockDefault { rules := rules + [BLOCK_ALL]; }
  }

  method Generate(p: Profile, opts: Options) returns (config: Option<Config>)
    ensures config.Some? <==> Valid(p) && PoliciesKnown(p, opts)
    ensures config.Some? ==> config.value == Generated(p, opts)
  {
    hide Valid, PoliciesKnown, Outbounds, RouteSets, RouteRules, FinalOf, DnsOut, DnsSets;
    if !Valid(p) { return None; }
    var outbounds := OutboundsFrom(p, opts);
    if outbounds.None? { return None; }
    var sets, rules, final := RouteParts(p, opts);
    var dns: Option<DnsBlock> := None;
    if p.dns.Some? && p.dns.value.enabled {
      var seen := set s | s in sets :: s.tag;
      var block, extra := DnsFrom(p, opts, p.dns.value, seen);
      dns := Some(block);
      sets := sets + extra;
    }
    config := Some(Config(outbounds.value, sets, rules, final, dns));
  }

  /** Outside hybrid mode reachability decides nothing. */
  lemma EverythingKept(p: Profile, a: set<string>, b: set<string>)
    ensures Outbounds(p, false, a) == Outbounds(p, false, b)
  {
    EndpointsKept(a, b, p.endpoints);
    GroupsKept(p, a, b, p.groups);
  }

  lemma {:induction false} EndpointsKept(a: set<string>, b: set<string>, es: seq<Endpoint>)
    ensures EndpointOutbounds(false, a, es) == EndpointOutbounds(false, b, es)
  {
    if es != [] { EndpointsKept(a, b, es[..|es| - 1]); }
  }

  lemma {:induction false} GroupsKept(p: Profile, a: set<string>, b: set<string>, gs: seq<Group>)
    ensures GroupOutbounds(p, false, a, gs) == GroupOutbounds(p, false, b, gs)
  {
    if gs != [] { GroupsKept(p, a, b, gs[..|gs| - 1]); }
  }
}
