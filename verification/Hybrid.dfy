/** The split between the kernel plane and the proxy core in internal/generator/singbox.go: the profile as
    the generator reads it, the checks of internal/model that a generated profile has passed, and
    hybridReachable, which decides what may be left out of the core's config. */
module Hybrid {
  import opened Wrappers

  // ---- The profile --------------------------------------------------------------------------------

  datatype Protocol = OpenVPN | OpenConnect | OtherProtocol

  /** Plugin is every engine reached through a local SOCKS port. */
  datatype Engine = SingBox | AmneziaWG | External(iface: string) | Plugin

  datatype Endpoint = Endpoint(id: string, enabled: bool, engine: Engine, protocol: Protocol)

  datatype Group = Group(id: string, members: seq<string>)

  datatype Rule = Rule(disabled: bool, isDefault: bool, outbound: string,
                       domain: seq<string>, domainSuffix: seq<string>, geoSite: seq<string>, geoIP: seq<string>,
                       ipCIDR: seq<string>, port: seq<int>, sourceIPCIDR: seq<string>, sourceMAC: seq<string>,
                       sourceIface: seq<string>, sourcePort: seq<int>)

  /** A line of a routing list as the address parsers read it: blank or comment, a name, an IP or prefix. */
  datatype Entry = Skipped | Name(name: string) | Prefix(cidr: string)

  datatype ScopeMode = Unscoped | All | Only | Except

  /** loadable says that the core can load the source's format; scopeIPs are the addresses of the list's
      scope groups. */
  datatype RoutingList = RoutingList(id: string, enabled: bool, outbound: string, source: string, loadable: bool,
                                     manual: seq<Entry>, cidrCache: seq<Entry>, domainCache: seq<Entry>,
                                     downloadVia: string, scopeMode: ScopeMode, scopeIPs: seq<string>)

  /** Network is every type with an address: https, tls, quic, h3, udp, tcp. */
  datatype ServerType = Network | Local | FakeIP | VPN(protocol: Protocol)

  datatype DnsServer = DnsServer(tag: string, enabled: bool, kind: ServerType, detour: string, endpoint: string,
                                 domainResolver: string)

  datatype DnsRule = DnsRule(disabled: bool, server: string, ruleSets: seq<string>, geoSite: seq<string>,
                             domain: seq<string>, domainSuffix: seq<string>, queryType: seq<string>)

  datatype DnsSettings = DnsSettings(enabled: bool, servers: seq<DnsServer>, rules: seq<DnsRule>, final: string)

  datatype Profile = Profile(endpoints: seq<Endpoint>, groups: seq<Group>, rules: seq<Rule>,
                             lists: seq<RoutingList>, dns: Option<DnsSettings>)

  // ---- Tags ---------------------------------------------------------------------------------------

  const DIRECT := "direct"
  const BLOCK := "block"
  const REJECT := "reject"
  const POLICY := "ndm-policy:"

  /** Lower case where it decides whether a tag is a builtin: ASCII, and the Kelvin sign, which folds to k. */
  function LowerChar(c: char): char {
    if 'A' <= c <= 'Z' then c - 'A' + 'a' else if c == '\U{212A}' then 'k' else c
  }

  function Lower(s: string): (r: string) ensures |r| == |s| { seq(|s|, i requires 0 <= i < |s| => LowerChar(s[i])) }

  predicate IsSpace(c: char) {
    c == ' ' || '\U{9}' <= c <= '\U{D}' || c == '\U{85}' || c == '\U{A0}'
  }

  function Trim(s: string): string {
    if s == [] then s
    else if IsSpace(s[0]) then Trim(s[1..])
    else if IsSpace(s[|s| - 1]) then Trim(s[..|s| - 1])
    else s
  }

  predicate IsBuiltin(tag: string) { Lower(tag) == DIRECT || Lower(tag) == BLOCK }

  predicate IsBlock(tag: string) { Lower(tag) == BLOCK }

  function Canonical(tag: string): string {
    if Lower(tag) == DIRECT then DIRECT else if Lower(tag) == BLOCK then BLOCK else tag
  }

  predicate IsPolicy(tag: string) { POLICY <= tag }

  // ---- What Validate has checked ------------------------------------------------------------------

  predicate Usable(p: Profile, tag: string) {
    (exists e | e in p.endpoints :: e.id == tag && e.enabled) || exists g | g in p.groups :: g.id == tag
  }

  predicate Resolves(p: Profile, tag: string) { IsBuiltin(tag) || Usable(p, tag) }

  predicate UniqueIds(p: Profile) {
    (forall i, j | 0 <= i < j < |p.endpoints| :: p.endpoints[i].id != p.endpoints[j].id) &&
    (forall i, j | 0 <= i < j < |p.groups| :: p.groups[i].id != p.groups[j].id) &&
    (forall i, j | 0 <= i < j < |p.lists| :: p.lists[i].id != p.lists[j].id) &&
    (forall e, g | e in p.endpoints && g in p.groups :: e.id != g.id) &&
    (forall e | e in p.endpoints :: e.id != "" && !IsBuiltin(e.id)) &&
    (forall g | g in p.groups :: g.id != "" && !IsBuiltin(g.id))
  }

  predicate ValidRule(p: Profile, r: Rule) { !r.disabled ==> !IsPolicy(r.outbound) && Resolves(p, r.outbound) }

  predicate ValidList(p: Profile, rl: RoutingList) {
    (IsPolicy(rl.outbound) || Resolves(p, rl.outbound)) &&
    (rl.downloadVia != "" ==> !IsPolicy(rl.downloadVia) && Resolves(p, rl.downloadVia))
  }

  predicate DefinedServer(d: DnsSettings, tag: string) {
    exists s | s in d.servers :: s.tag == tag && s.enabled
  }

  predicate ValidServer(p: Profile, d: DnsSettings, s: DnsServer) {
    Trim(s.tag) != "" &&
    (s.kind == Network && s.detour != "" ==> s.detour != BLOCK && Resolves(p, s.detour)) &&
    (s.kind == Network && s.enabled && Trim(s.domainResolver) != "" ==>
       exists b | b in d.servers :: b.tag == Trim(s.domainResolver) && b.enabled && b.kind == Network) &&
    (s.kind.VPN? && s.enabled ==>
       exists e | e in p.endpoints :: e.id == Trim(s.endpoint) && e.enabled && e.engine == SingBox &&
         e.protocol == s.kind.protocol)
  }

  predicate ValidDns(p: Profile, d: DnsSettings) {
    (forall i, j | 0 <= i < j < |d.servers| :: d.servers[i].tag != d.servers[j].tag) &&
    (forall s | s in d.servers :: ValidServer(p, d, s)) &&
    (d.final != "" ==> exists s | s in d.servers :: s.tag == d.final && s.enabled && !s.kind.VPN?) &&
    (forall r | r in d.rules :: !r.disabled ==> r.server == REJECT || DefinedServer(d, r.server))
  }

  /** The part of Validate that the references of a generated config rest on. Group cycles are refused
      too; nothing here needs that. */
  predicate Valid(p: Profile) {
    UniqueIds(p) &&
    (forall e | e in p.endpoints :: e.engine.External? ==> e.engine.iface != "") &&
    (forall g | g in p.groups :: forall m | m in g.members :: m == DIRECT || Usable(p, m)) &&
    (forall r | r in p.rules :: ValidRule(p, r)) &&
    (forall rl | rl in p.lists :: ValidList(p, rl)) &&
    (p.dns.Some? ==> ValidDns(p, p.dns.value))
  }

  lemma UniqueWhenValid(p: Profile)
    requires Valid(p)
    ensures UniqueIds(p)
  {
  }

  // ---- Which egress is the kernel's ---------------------------------------------------------------

  function EndpointByID(es: seq<Endpoint>, id: string): Option<Endpoint> {
    if es == [] then None else if es[0].id == id then Some(es[0]) else EndpointByID(es[1..], id)
  }

  function GroupByID(gs: seq<Group>, id: string): Option<Group> {
    if gs == [] then None else if gs[0].id == id then Some(gs[0]) else GroupByID(gs[1..], id)
  }

  /** pbr.KernelIface(e) != "": a derived interface name is never empty. */
  predicate KernelEndpoint(e: Endpoint) {
    e.engine == AmneziaWG || (e.engine.External? && e.engine.iface != "")
  }

  predicate KernelMember(p: Profile, m: string) {
    EndpointByID(p.endpoints, m).Some? && KernelEndpoint(EndpointByID(p.endpoints, m).value)
  }

  predicate KernelEgress(p: Profile, tag: string) {
    if tag == DIRECT || tag == BLOCK || tag == "" then false
    else if IsPolicy(tag) then true
    else if EndpointByID(p.endpoints, tag).Some? then KernelMember(p, tag)
    else
      GroupByID(p.groups, tag).Some? &&
      exists m | m in GroupByID(p.groups, tag).value.members :: KernelMember(p, m)
  }

  predicate IpOnlyKernelRule(r: Rule) {
    r.ipCIDR != [] && r.domain == [] && r.domainSuffix == [] && r.geoSite == [] && r.geoIP == [] && r.port == [] &&
    r.sourceIPCIDR == [] && r.sourceMAC == [] && r.sourceIface == [] && r.sourcePort == []
  }

  function Names(es: seq<Entry>): seq<string> {
    if es == [] then []
    else Names(es[..|es| - 1]) + (if es[|es| - 1].Name? then [es[|es| - 1].name] else [])
  }

  function Prefixes(es: seq<Entry>): seq<string> {
    if es == [] then []
    else Prefixes(es[..|es| - 1]) + (if es[|es| - 1].Prefix? then [es[|es| - 1].cidr] else [])
  }

  method SplitDomainsIPs(es: seq<Entry>) returns (domains: seq<string>, ips: seq<string>)
    ensures domains == Names(es) && ips == Prefixes(es)
  {
    domains, ips := [], [];
    for i := 0 to |es|
      invariant domains == Names(es[..i]) && ips == Prefixes(es[..i])
    {
      assert es[..i + 1][..i] == es[..i];
      match es[i] {
        case Skipped =>
        case Name(n) => domains := domains + [n];
        case Prefix(c) => ips := ips + [c];
      }
    }
    assert es[..|es|] == es;
  }

  function Entries(rl: RoutingList): seq<Entry> { rl.manual + rl.cidrCache + rl.domainCache }

  /** A list that is nothing but addresses, all of them fetched or typed here. */
  predicate PureIPs(rl: RoutingList) {
    rl.source == "" && Names(Entries(rl)) == [] && Prefixes(Entries(rl)) != []
  }

  // ---- Reachability -------------------------------------------------------------------------------

  function AsRoot(tag: string): set<string> {
    if Canonical(tag) == DIRECT || Canonical(tag) == BLOCK || Canonical(tag) == "" then {} else {tag}
  }

  predicate KeepsRuleRef(p: Profile, r: Rule) {
    !r.disabled && (r.isDefault || !KernelEgress(p, r.outbound) || !IpOnlyKernelRule(r))
  }

  predicate KeepsListRef(p: Profile, rl: RoutingList) {
    rl.enabled && !(KernelEgress(p, rl.outbound) && PureIPs(rl))
  }

  predicate KeepsDetour(s: DnsServer) { s.enabled && s.detour != "" && s.kind == Network }

  function RuleRoots(p: Profile, rs: seq<Rule>): (roots: set<string>)
    ensures forall r | r in rs && KeepsRuleRef(p, r) :: AsRoot(r.outbound) <= roots
  {
    if rs == [] then {}
    else
      var before, last := RuleRoots(p, rs[..|rs| - 1]), rs[|rs| - 1];
      assert forall r | r in rs :: r in rs[..|rs| - 1] || r == last;
      before + (if KeepsRuleRef(p, last) then AsRoot(last.outbound) else {})
  }

  function ListRoots(p: Profile, ls: seq<RoutingList>): (roots: set<string>)
    ensures forall rl | rl in ls && KeepsListRef(p, rl) :: AsRoot(rl.outbound) + AsRoot(rl.downloadVia) <= roots
  {
    if ls == [] then {}
    else
      var before, last := ListRoots(p, ls[..|ls| - 1]), ls[|ls| - 1];
      assert forall rl | rl in ls :: rl in ls[..|ls| - 1] || rl == last;
      before + (if KeepsListRef(p, last) then AsRoot(last.outbound) + AsRoot(last.downloadVia) else {})
  }

  function DetourRoots(ss: seq<DnsServer>): (roots: set<string>)
    ensures forall s | s in ss && KeepsDetour(s) :: AsRoot(s.detour) <= roots
  {
    if ss == [] then {}
    else
      var before, last := DetourRoots(ss[..|ss| - 1]), ss[|ss| - 1];
      assert forall s | s in ss :: s in ss[..|ss| - 1] || s == last;
      before + (if KeepsDetour(last) then AsRoot(last.detour) else {})
  }

  function Roots(p: Profile): set<string> {
    RuleRoots(p, p.rules) + ListRoots(p, p.lists) + (if p.dns.Some? then DetourRoots(p.dns.value.servers) else {})
  }

  ghost predicate MembersIn(p: Profile, tag: string, s: set<string>) {
    GroupByID(p.groups, tag).Some? ==> forall m | m in GroupByID(p.groups, tag).value.members :: m in s
  }

  ghost predicate Closed(p: Profile, s: set<string>) { forall t | t in s :: MembersIn(p, t, s) }

  ghost function MemberTags(gs: seq<Group>): set<string> { set g, m | g in gs && m in g.members :: m }

  ghost function Universe(p: Profile): set<string> { Roots(p) + MemberTags(p.groups) }

  /** The least set with the roots in it that holds the members of every group in it. */
  ghost function Reach(p: Profile): set<string> {
    set t | t in Universe(p) && forall s: set<string> | Roots(p) <= s && Closed(p, s) :: t in s
  }

  lemma GroupFound(gs: seq<Group>, id: string)
    ensures GroupByID(gs, id).Some? ==> GroupByID(gs, id).value in gs && GroupByID(gs, id).value.id == id
  {
  }

  lemma UniverseIsClosed(p: Profile)
    ensures Closed(p, Universe(p))
  {
    forall t | t in Universe(p) ensures MembersIn(p, t, Universe(p)) { GroupFound(p.groups, t); }
  }

  lemma ReachIsLeast(p: Profile, r: set<string>)
    requires Roots(p) <= r <= Universe(p) && Closed(p, r)
    requires Forced(p, Roots(p), r)
    ensures r == Reach(p)
  {
  }

  lemma ReachIsClosed(p: Profile)
    ensures Roots(p) <= Reach(p) && Closed(p, Reach(p))
  {
    UniverseIsClosed(p);
    forall t | t in Reach(p) ensures MembersIn(p, t, Reach(p)) {
      if GroupByID(p.groups, t).Some? {
        forall m | m in GroupByID(p.groups, t).value.members ensures m in Reach(p) {
          assert MembersIn(p, t, Universe(p));
          forall s: set<string> | Roots(p) <= s && Closed(p, s) ensures m in s { assert MembersIn(p, t, s); }
        }
      }
    }
  }

  /** Every closed set with `from` in it has r in it. */
  ghost predicate Forced(p: Profile, from: set<string>, r: set<string>) {
    forall s: set<string> | from <= s && Closed(p, s) :: r <= s
  }

  /** Every tag of r outside `open` has its members in r. */
  ghost predicate Done(p: Profile, open: set<string>, r: set<string>) {
    forall t | t in r - open :: MembersIn(p, t, r)
  }

  lemma ForcedFurther(p: Profile, from: set<string>, r: set<string>, member: string, r2: set<string>)
    requires Forced(p, from, r) && Forced(p, r + {member}, r2)
    requires forall s: set<string> | from <= s && Closed(p, s) :: member in s
    ensures Forced(p, from, r2)
  {
  }

  lemma MemberForced(p: Profile, tag: string, from: set<string>, member: string)
    requires tag in from && GroupByID(p.groups, tag).Some? && member in GroupByID(p.groups, tag).value.members
    ensures forall s: set<string> | from <= s && Closed(p, s) :: member in s
  {
  }

  lemma DoneFurther(p: Profile, open: set<string>, r: set<string>, r2: set<string>)
    requires r <= r2 && Done(p, open, r) && Done(p, r, r2)
    ensures Done(p, open, r2)
  {
    forall t | t in r2 - open ensures MembersIn(p, t, r2) {
      if t in r { assert MembersIn(p, t, r); }
    }
  }

  lemma WalkBegins(p: Profile, r: set<string>)
    ensures Done(p, r, r) && Forced(p, r, r)
  {
  }

  lemma DoneWith(p: Profile, tag: string, open: set<string>, r: set<string>)
    requires Done(p, open + {tag}, r) && MembersIn(p, tag, r)
    ensures Done(p, open, r)
  {
  }

  /** visit: a depth-first walk that marks a tag before it looks at its members. */
  method Visit(p: Profile, tag: string, reach: set<string>, ghost u: set<string>) returns (r: set<string>)
    requires tag in u && reach <= u && Closed(p, u)
    ensures reach <= r <= u && tag in r
    ensures Done(p, reach, r)
    ensures Forced(p, reach + {tag}, r)
    decreases |u - reach|
  {
    if tag in reach { return reach; }
    r := reach + {tag};
    var g := GroupByID(p.groups, tag);
    if g.None? { return; }
    var members := g.value.members;
    assert MembersIn(p, tag, u);
    hide Closed, Done, Forced, GroupByID;
    ghost var open := reach + {tag};
    WalkBegins(p, r);
    for i := 0 to |members|
      invariant open <= r <= u
      invariant forall m | m in members[..i] :: m in r
      invariant Done(p, open, r)
      invariant Forced(p, open, r)
    {
      ghost var before := r;
      LessLeft(u, reach, tag, r);
      assert members[i] in members && members[..i + 1] == members[..i] + [members[i]];
      r := Visit(p, members[i], r, u);
      WalkFurther(p, tag, open, before, members[i], r);
    }
    assert members[..|members|] == members;
    DoneWith(p, tag, reach, r);
  }

  lemma WalkFurther(p: Profile, tag: string, open: set<string>, r: set<string>, member: string, r2: set<string>)
    requires tag in open && GroupByID(p.groups, tag).Some? && member in GroupByID(p.groups, tag).value.members
    requires r <= r2 && Done(p, open, r) && Done(p, r, r2) && Forced(p, open, r) && Forced(p, r + {member}, r2)
    ensures Done(p, open, r2) && Forced(p, open, r2)
  {
    MemberForced(p, tag, open, member);
    hide GroupByID, Closed, Done, Forced;
    ForcedFurther(p, open, r, member, r2);
    DoneFurther(p, open, r, r2);
  }

  lemma LessLeft(u: set<string>, reach: set<string>, tag: string, r: set<string>)
    requires tag in u && tag !in reach && reach + {tag} <= r
    ensures |u - r| < |u - reach|
  {
    assert tag in u - reach && tag !in u - r;
    SmallerSet(u - r, u - reach);
  }

  lemma SmallerSet(a: set<string>, b: set<string>)
    requires a < b
    ensures |a| < |b|
  {
    var x :| x in b && x !in a;
    assert a <= b - {x};
    SubsetSize(a, b - {x});
  }

  lemma SubsetSize(a: set<string>, b: set<string>)
    requires a <= b
    ensures |a| <= |b|
    decreases |a|
  {
    if a != {} {
      var x :| x in a;
      SubsetSize(a - {x}, b - {x});
    }
  }

  method CollectRoots(p: Profile) returns (roots: set<string>)
    ensures roots == Roots(p)
  {
    hide RuleRoots, ListRoots, DetourRoots;
    var ofRules := CollectRuleRoots(p);
    var ofLists := CollectListRoots(p);
    roots := ofRules + ofLists;
    if p.dns.Some? {
      var ofServers := CollectDetourRoots(p.dns.value.servers);
      roots := roots + ofServers;
    }
  }

  method CollectRuleRoots(p: Profile) returns (roots: set<string>)
    ensures roots == RuleRoots(p, p.rules)
  {
    hide KernelEgress, IpOnlyKernelRule, AsRoot;
    roots := {};
    for i := 0 to |p.rules|
      invariant roots == RuleRoots(p, p.rules[..i])
    {
      assert p.rules[..i + 1][..i] == p.rules[..i];
      var r := p.rules[i];
      if r.disabled { continue; }
      if !r.isDefault && KernelEgress(p, r.outbound) && IpOnlyKernelRule(r) { continue; }
      roots := roots + AsRoot(r.outbound);
    }
    assert p.rules[..|p.rules|] == p.rules;
  }

  method CollectListRoots(p: Profile) returns (roots: set<string>)
    ensures roots == ListRoots(p, p.lists)
  {
    hide KernelEgress, Names, Prefixes, AsRoot;
    roots := {};
    for i := 0 to |p.lists|
      invariant roots == ListRoots(p, p.lists[..i])
    {
      assert p.lists[..i + 1][..i] == p.lists[..i];
      var rl := p.lists[i];
      if !rl.enabled { continue; }
      if KernelEgress(p, rl.outbound) && rl.source == "" {
        var domains, ips := SplitDomainsIPs(Entries(rl));
        if domains == [] && ips != [] { continue; }
      }
      roots := roots + (AsRoot(rl.outbound) + AsRoot(rl.downloadVia));
    }
    assert p.lists[..|p.lists|] == p.lists;
  }

  method CollectDetourRoots(servers: seq<DnsServer>) returns (roots: set<string>)
    ensures roots == DetourRoots(servers)
  {
    hide AsRoot;
    roots := {};
    for i := 0 to |servers|
      invariant roots == DetourRoots(servers[..i])
    {
      assert servers[..i + 1][..i] == servers[..i];
      var s := servers[i];
      if s.enabled && s.detour != "" && s.kind == Network { roots := roots + AsRoot(s.detour); }
    }
    assert servers[..|servers|] == servers;
  }

  method HybridReachable(p: Profile) returns (reach: set<string>)
    ensures reach == Reach(p)
  {
    var roots := CollectRoots(p);
    UniverseIsClosed(p);
    reach := {};
    var todo := roots;
    while todo != {}
      invariant todo <= roots && roots - todo <= reach <= Universe(p)
      invariant Closed(p, reach)
      invariant Forced(p, Roots(p), reach)
      decreases todo
    {
      var tag :| tag in todo;
      ghost var before := reach;
      reach := Visit(p, tag, reach, Universe(p));
      todo := todo - {tag};
      assert Done(p, {}, before);
      DoneFurther(p, {}, before, reach);
      ForcedFurther(p, Roots(p), before, tag, reach);
    }
    ReachIsLeast(p, reach);
  }
}
