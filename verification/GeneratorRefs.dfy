/** What a generated config refers to is in it. Every kind of reference the core resolves at start is taken
    in turn; where a valid profile can still leave one dangling, the theorem says exactly when. */
module GeneratorRefs {
  import opened Wrappers
  import opened Hybrid
  import opened Generator

  // ---- Outbounds that are there -------------------------------------------------------------------

  predicate Emitted(outs: seq<Outbound>, tag: string) { exists o | o in outs :: o.tag == tag }

  predicate PolicyInUse(p: Profile, tag: string) { exists rl | rl in p.lists :: UsesPolicy(rl) && rl.outbound == tag }

  ghost predicate KeptEndpoint(p: Profile, hybrid: bool, tag: string) {
    exists e | e in p.endpoints :: e.id == tag && KeepsEndpoint(hybrid, Reach(p), e)
  }

  ghost predicate KeptGroup(p: Profile, hybrid: bool, tag: string) {
    exists g | g in p.groups :: g.id == tag && KeepsGroup(p, hybrid, Reach(p), g)
  }

  ghost predicate Kept(p: Profile, hybrid: bool, tag: string) {
    tag == DIRECT || KeptEndpoint(p, hybrid, tag) || KeptGroup(p, hybrid, tag) || PolicyInUse(p, tag)
  }

  lemma PlainEmits(tags: seq<string>, tag: string)
    ensures Emitted(Plain(tags), tag) <==> tag in tags
  {
  }

  lemma EmittedIsKept(p: Profile, hybrid: bool, tag: string)
    ensures Emitted(Outbounds(p, hybrid, Reach(p)), tag) <==> Kept(p, hybrid, tag)
  {
    var es, gs := EndpointOutbounds(hybrid, Reach(p), p.endpoints), GroupOutbounds(p, hybrid, Reach(p), p.groups);
    var ps := Plain(PolicyTags(p.lists));
    var all := Outbounds(p, hybrid, Reach(p));
    PlainEmits(PolicyTags(p.lists), tag);
    hide KeepsEndpoint, KeepsGroup, Reach, EndpointOutbounds, GroupOutbounds, Plain, PolicyTags;
    assert all == [Outbound(DIRECT, [])] + es + gs + ps;
    assert Emitted(all, tag) <==> tag == DIRECT || Emitted(es, tag) || Emitted(gs, tag) || Emitted(ps, tag) by {
      assert Outbound(DIRECT, []) in all;
      assert forall o :: o in all <==> o == Outbound(DIRECT, []) || o in es || o in gs || o in ps;
    }
    assert Emitted(es, tag) <==> KeptEndpoint(p, hybrid, tag);
    assert Emitted(gs, tag) <==> KeptGroup(p, hybrid, tag);
  }

  lemma UsableIsKept(p: Profile, hybrid: bool, tag: string)
    requires Usable(p, tag) && (hybrid ==> tag in Reach(p))
    ensures Kept(p, hybrid, tag)
  {
  }

  /** A reference that is counted among the roots and has passed Validate is kept, unless it is a block. */
  lemma RootedRefIsKept(p: Profile, hybrid: bool, tag: string)
    requires UniqueIds(p) && Resolves(p, tag) && !IsBlock(tag)
    requires hybrid ==> AsRoot(tag) <= Roots(p)
    ensures Kept(p, hybrid, Canonical(tag))
  {
  }

  lemma BlockIsNotKept(p: Profile, hybrid: bool)
    requires UniqueIds(p)
    ensures !Kept(p, hybrid, BLOCK)
  {
  }

  lemma PolicyIsCanonical(tag: string)
    requires IsPolicy(tag)
    ensures Canonical(tag) == tag && !IsBlock(tag)
  {
  }

  // ---- Route rules and final ----------------------------------------------------------------------

  ghost predicate RulesResolve(c: Config) {
    forall r | r in c.rules :: r.target.Some? ==> Emitted(c.outbounds, r.target.value)
  }

  lemma RuleTargetKept(p: Profile, hybrid: bool, r: Rule)
    requires Valid(p) && r in p.rules
    requires EmitRule(p, hybrid, r).Some? && EmitRule(p, hybrid, r).value.target.Some?
    ensures Kept(p, hybrid, EmitRule(p, hybrid, r).value.target.value)
  {
    hide KernelEgress, IpOnlyKernelRule, Canonical, InlineMatch, IsBlock, RuleRoots, ListRoots, DetourRoots,
         UniqueIds, Resolves, Kept;
    assert ValidRule(p, r);
    if hybrid { assert KeepsRuleRef(p, r); }
    RootedRefIsKept(p, hybrid, r.outbound);
  }

  lemma FinalKept(p: Profile, hybrid: bool)
    requires Valid(p)
    ensures Kept(p, hybrid, FinalOf(p.rules))
  {
    hide KernelEgress, IpOnlyKernelRule, Canonical, IsBlock, RuleRoots, ListRoots, DetourRoots, UniqueIds, Resolves;
    if FinalOf(p.rules) != DIRECT {
      var r :| r in p.rules && !r.disabled && r.isDefault && !IsBlock(r.outbound) &&
               FinalOf(p.rules) == Canonical(r.outbound);
      assert ValidRule(p, r);
      assert KeepsRuleRef(p, r);
      RootedRefIsKept(p, hybrid, r.outbound);
    }
  }

  lemma ListTargetKept(p: Profile, opts: Options, rl: RoutingList)
    requires Valid(p) && rl in p.lists
    requires EmitList(p, opts, rl).Some? && EmitList(p, opts, rl).value.target.Some?
    ensures Kept(p, opts.hybrid, EmitList(p, opts, rl).value.target.value)
  {
    hide KernelEgress, PureIPs, Canonical, IsBlock, RuleRoots, ListRoots, DetourRoots, UniqueIds, Resolves,
         InlineEntries;
    assert ValidList(p, rl);
    if IsPolicy(rl.outbound) {
      PolicyIsCanonical(rl.outbound);
      assert UsesPolicy(rl);
      assert PolicyInUse(p, rl.outbound);
    } else {
      if opts.hybrid { assert KeepsListRef(p, rl); }
      RootedRefIsKept(p, opts.hybrid, rl.outbound);
    }
  }

  /** No emitted route rule, and not the final, names an outbound that was left out. */
  lemma RoutesResolve(p: Profile, opts: Options)
    requires Valid(p)
    ensures RulesResolve(Generated(p, opts))
    ensures Emitted(Generated(p, opts).outbounds, Generated(p, opts).final)
  {
    var c := Generated(p, opts);
    hide Valid, Outbounds, Kept, EmitRule, EmitList, FinalOf, Emitted;
    forall r | r in c.rules && r.target.Some? ensures Emitted(c.outbounds, r.target.value) {
      if r in EmitRules(p, opts.hybrid, p.rules) {
        var u :| u in p.rules && EmitRule(p, opts.hybrid, u) == Some(r);
        RuleTargetKept(p, opts.hybrid, u);
      } else if r in ListRules(p, opts, p.lists, false) {
        var rl :| rl in p.lists && EmitList(p, opts, rl) == Some(r);
        ListTargetKept(p, opts, rl);
      }
      EmittedIsKept(p, opts.hybrid, r.target.value);
    }
    FinalKept(p, opts.hybrid);
    EmittedIsKept(p, opts.hybrid, c.final);
  }

  // ---- Group members ------------------------------------------------------------------------------

  ghost predicate MembersResolve(c: Config) {
    forall o, m | o in c.outbounds && m in o.members :: Emitted(c.outbounds, m)
  }

  /** Nothing that survives refers to a group that bears a kernel endpoint, yet a group kept for lack of one
      of its own lists it as a member. */
  ghost predicate NestsGoneGroup(p: Profile, g: Group, h: Group) {
    g in p.groups && h in p.groups && h.id in g.members &&
    !KernelEgress(p, g.id) && g.id !in Reach(p) &&
    KernelEgress(p, h.id) && h.id !in Reach(p) && !PolicyInUse(p, h.id)
  }

  lemma {:induction false} FoundGroup(gs: seq<Group>, g: Group)
    requires g in gs && forall i, j | 0 <= i < j < |gs| :: gs[i].id != gs[j].id
    ensures GroupByID(gs, g.id) == Some(g)
  {
    if gs[0] != g {
      var k :| 0 <= k < |gs| && gs[k] == g;
      assert gs[0].id != gs[k].id;
      FoundGroup(gs[1..], g);
    }
  }

  lemma {:induction false} FoundEndpoint(es: seq<Endpoint>, e: Endpoint)
    requires e in es && forall i, j | 0 <= i < j < |es| :: es[i].id != es[j].id
    ensures EndpointByID(es, e.id) == Some(e)
  {
    if es[0] != e {
      var k :| 0 <= k < |es| && es[k] == e;
      assert es[0].id != es[k].id;
      FoundEndpoint(es[1..], e);
    }
  }

  lemma {:induction false} NoEndpoint(es: seq<Endpoint>, id: string)
    requires forall e | e in es :: e.id != id
    ensures EndpointByID(es, id).None?
  {
    if es != [] { NoEndpoint(es[1..], id); }
  }

  /** A group that is not kernel-bearing has only members of the core's own. */
  lemma PlainGroupMember(p: Profile, g: Group, e: Endpoint)
    requires Valid(p) && g in p.groups && e in p.endpoints && e.id in g.members && !KernelEgress(p, g.id)
    ensures !e.engine.AmneziaWG? && !e.engine.External?
  {
    assert forall x | x in p.endpoints :: x.engine.External? ==> x.engine.iface != "";
    UniqueWhenValid(p);
    GroupEgress(p, g);
    EndpointMember(p, e);
    hide Valid, UniqueIds, KernelEgress, KernelMember;
  }

  lemma NamedPlainly(id: string)
    requires !IsBuiltin(id)
    ensures id != DIRECT && id != BLOCK
  {
    assert Lower(DIRECT) == DIRECT && Lower(BLOCK) == BLOCK;
  }

  lemma GroupEgress(p: Profile, g: Group)
    requires UniqueIds(p) && g in p.groups
    ensures KernelEgress(p, g.id) <==> IsPolicy(g.id) || exists m | m in g.members :: KernelMember(p, m)
  {
    NamedPlainly(g.id);
    FoundGroup(p.groups, g);
    NoEndpoint(p.endpoints, g.id);
    hide Lower, KernelMember, EndpointByID, GroupByID;
  }

  lemma EndpointMember(p: Profile, e: Endpoint)
    requires UniqueIds(p) && e in p.endpoints
    ensures KernelMember(p, e.id) <==> KernelEndpoint(e)
  {
    FoundEndpoint(p.endpoints, e);
  }

  lemma MemberKept(p: Profile, hybrid: bool, g: Group, m: string)
    requires Valid(p) && g in p.groups && KeepsGroup(p, hybrid, Reach(p), g) && m in g.members
    requires hybrid ==> forall h | h in p.groups && h.id == m :: !NestsGoneGroup(p, g, h)
    ensures Kept(p, hybrid, m)
  {
    if m == DIRECT { return; }
    assert Usable(p, m);
    if !hybrid {
      UsableIsKept(p, hybrid, m);
    } else if g.id in Reach(p) {
      ReachIsClosed(p);
      FoundGroup(p.groups, g);
      assert MembersIn(p, g.id, Reach(p));
      UsableIsKept(p, hybrid, m);
    } else if e :| e in p.endpoints && e.id == m && e.enabled {
      PlainGroupMember(p, g, e);
      assert KeepsEndpoint(hybrid, Reach(p), e);
    } else {
      var h :| h in p.groups && h.id == m;
      if !PolicyInUse(p, m) { assert KeepsGroup(p, hybrid, Reach(p), h); }
    }
  }

  lemma GoneGroupIsNotKept(p: Profile, g: Group, h: Group)
    requires Valid(p) && NestsGoneGroup(p, g, h)
    ensures !Kept(p, true, h.id)
  {
  }

  lemma GroupIsOutbound(p: Profile, hybrid: bool, o: Outbound, m: string)
    requires o in Outbounds(p, hybrid, Reach(p)) && m in o.members
    ensures exists g | g in p.groups :: KeepsGroup(p, hybrid, Reach(p), g) && o == Outbound(g.id, g.members)
  {
  }

  lemma KeptGroupIsOutbound(p: Profile, hybrid: bool, g: Group)
    requires g in p.groups && KeepsGroup(p, hybrid, Reach(p), g)
    ensures Outbound(g.id, g.members) in Outbounds(p, hybrid, Reach(p))
  {
  }

  /** Every emitted group's members are emitted, except in hybrid mode when an unreferenced group lists an
      unreferenced kernel-bearing one. */
  lemma MembersResolveUnlessNested(p: Profile, opts: Options)
    requires Valid(p)
    ensures MembersResolve(Generated(p, opts)) <==> !opts.hybrid || forall g, h :: !NestsGoneGroup(p, g, h)
  {
    var c, hybrid := Generated(p, opts), opts.hybrid;
    hide Valid, Outbounds, Kept, Emitted, Reach, KernelEgress;
    if !hybrid || forall g, h :: !NestsGoneGroup(p, g, h) {
      forall o, m | o in c.outbounds && m in o.members ensures Emitted(c.outbounds, m) {
        GroupIsOutbound(p, hybrid, o, m);
        var g :| g in p.groups && KeepsGroup(p, hybrid, Reach(p), g) && o == Outbound(g.id, g.members);
        MemberKept(p, hybrid, g, m);
        EmittedIsKept(p, hybrid, m);
      }
    } else {
      var g, h :| NestsGoneGroup(p, g, h);
      GoneGroupIsNotKept(p, g, h);
      EmittedIsKept(p, hybrid, h.id);
      KeptGroupIsOutbound(p, hybrid, g);
      assert h.id in Outbound(g.id, g.members).members;
    }
  }

  // ---- Download detours ---------------------------------------------------------------------------

  ghost predicate DownloadsResolve(c: Config) {
    forall s | s in c.sets :: s.Remote? ==> Emitted(c.outbounds, s.detour)
  }

  predicate Downloads(p: Profile, hybrid: bool, rl: RoutingList) {
    rl in p.lists && !SkipsList(p, hybrid, rl) && EmitsRemote(rl)
  }

  /** A list's own download outbound must not be a block; the profile-wide one must be kept without it. */
  ghost predicate DownloadKept(p: Profile, opts: Options, rl: RoutingList) {
    if rl.downloadVia != "" then !IsBlock(rl.downloadVia)
    else opts.ruleSetDetour == "" || Kept(p, opts.hybrid, Canonical(opts.ruleSetDetour))
  }

  lemma DetourKept(p: Profile, opts: Options, rl: RoutingList)
    requires Valid(p) && Downloads(p, opts.hybrid, rl)
    ensures Kept(p, opts.hybrid, Detour(rl, opts.ruleSetDetour)) <==> DownloadKept(p, opts, rl)
  {
    hide KernelEgress, PureIPs, IsBuiltin, RuleRoots, ListRoots, DetourRoots, UniqueIds, Resolves, Reach, Kept;
    assert ValidList(p, rl);
    if rl.downloadVia != "" {
      if IsBlock(rl.downloadVia) {
        assert Canonical(rl.downloadVia) == BLOCK;
        BlockIsNotKept(p, opts.hybrid);
      } else {
        if opts.hybrid { assert KeepsListRef(p, rl); }
        RootedRefIsKept(p, opts.hybrid, rl.downloadVia);
      }
    } else {
      DirectIsKept(p, opts.hybrid);
    }
  }

  lemma DirectIsKept(p: Profile, hybrid: bool)
    ensures Kept(p, hybrid, DIRECT)
  {
  }

  lemma RemoteSets(p: Profile, opts: Options, s: RuleSet)
    requires s in Generated(p, opts).sets && s.Remote? && s.detour != DIRECT
    ensures exists rl :: Downloads(p, opts.hybrid, rl) && s.detour == Detour(rl, opts.ruleSetDetour)
  {
    hide Outbounds, RouteRules, FinalOf, DnsOut, Detour, SkipsList, AllRuleTags, AllDnsGeoTags, DroppedTags,
         InlineEntries, Matches;
    assert s in AllListSets(p, opts, p.lists);
    var rl :| rl in p.lists && s in ListSets(p, opts, rl);
    assert Downloads(p, opts.hybrid, rl);
  }

  lemma ListSetIsThere(p: Profile, opts: Options, rl: RoutingList)
    requires Downloads(p, opts.hybrid, rl)
    ensures Remote(RemoteTag(rl), Detour(rl, opts.ruleSetDetour)) in Generated(p, opts).sets
  {
  }

  lemma DownloadsResolveWhenKept(p: Profile, opts: Options)
    requires Valid(p)
    ensures DownloadsResolve(Generated(p, opts)) <==>
            forall rl | Downloads(p, opts.hybrid, rl) :: DownloadKept(p, opts, rl)
  {
    var c, hybrid := Generated(p, opts), opts.hybrid;
    hide Valid, Outbounds, Kept, Emitted, Reach, RouteSets, DnsSets, RouteRules, DnsOut, FinalOf, Downloads,
         DownloadKept, Detour;
    if DownloadsResolve(c) {
      forall rl | Downloads(p, hybrid, rl) ensures DownloadKept(p, opts, rl) {
        ListSetIsThere(p, opts, rl);
        EmittedIsKept(p, hybrid, Detour(rl, opts.ruleSetDetour));
        DetourKept(p, opts, rl);
      }
    }
    if forall rl | Downloads(p, hybrid, rl) :: DownloadKept(p, opts, rl) {
      forall s | s in c.sets && s.Remote? ensures Emitted(c.outbounds, s.detour) {
        DirectIsKept(p, hybrid);
        if s.detour != DIRECT {
          RemoteSets(p, opts, s);
          var rl :| Downloads(p, hybrid, rl) && s.detour == Detour(rl, opts.ruleSetDetour);
          DetourKept(p, opts, rl);
        }
        EmittedIsKept(p, hybrid, s.detour);
      }
    }
  }

  // ---- DNS detours and VPN resolvers --------------------------------------------------------------

  ghost predicate DnsDetoursResolve(c: Config) {
    c.dns.Some? ==> forall s | s in c.dns.value.servers :: s.detour.Some? ==> Emitted(c.outbounds, s.detour.value)
  }

  ghost predicate VpnServersResolve(c: Config) {
    c.dns.Some? ==> forall s | s in c.dns.value.servers :: s.endpoint.Some? ==> Emitted(c.outbounds, s.endpoint.value)
  }

  predicate Asks(p: Profile, opts: Options, s: DnsServer) {
    HasDns(p) && s in p.dns.value.servers && !DropsServer(opts, s) && s.kind == Network
  }

  /** The detour is emitted trimmed and in canonical case, and checked and seeded as it was written. */
  ghost predicate DnsDetourKept(p: Profile, opts: Options, s: DnsServer) {
    var d := Trim(s.detour);
    !IsBlock(d) && (d == s.detour || d == "" || Kept(p, opts.hybrid, Canonical(d)))
  }

  lemma EmittedDetourKept(p: Profile, opts: Options, s: DnsServer)
    requires Valid(p) && Asks(p, opts, s)
    ensures (EmitServer(s).detour.Some? ==> Kept(p, opts.hybrid, EmitServer(s).detour.value)) <==>
            DnsDetourKept(p, opts, s)
  {
    var d := Trim(s.detour);
    assert ValidServer(p, p.dns.value, s) && KeepsDetour(s) == (s.detour != "");
    UniqueWhenValid(p);
    DirectIsKept(p, opts.hybrid);
    BlockIsNotKept(p, opts.hybrid);
    assert s.detour != "" ==> AsRoot(s.detour) <= Roots(p);
    hide Valid, UniqueIds, Roots, AsRoot, Reach, Resolves, Kept, Trim, DropsServer, Lower;
    if d == s.detour && d != "" && !IsBlock(d) { RootedRefIsKept(p, opts.hybrid, d); }
  }

  lemma VpnEndpointKept(p: Profile, opts: Options, s: DnsServer)
    requires Valid(p) && HasDns(p) && s in p.dns.value.servers && !DropsServer(opts, s) && s.kind.VPN?
    ensures Kept(p, opts.hybrid, Trim(s.endpoint))
  {
  }

  lemma DnsOfConfig(p: Profile, opts: Options)
    ensures var c := Generated(p, opts);
            c.outbounds == Outbounds(p, opts.hybrid, Reach(p)) && c.dns.Some? == HasDns(p) &&
            (HasDns(p) ==> c.dns.value.servers == EmitServers(opts, p.dns.value.servers))
  {
    hide Outbounds, Reach, RouteSets, DnsSets, RouteRules, FinalOf, EmitDnsRules, DnsFinal, EmitServers;
  }

  lemma VpnServersAreKept(p: Profile, opts: Options)
    requires Valid(p)
    ensures VpnServersResolve(Generated(p, opts))
  {
    DnsOfConfig(p, opts);
    hide Valid, Outbounds, Kept, Emitted, Reach, Generated, DropsServer;
    var c := Generated(p, opts);
    if HasDns(p) {
      forall o | o in c.dns.value.servers && o.endpoint.Some? ensures Emitted(c.outbounds, o.endpoint.value) {
        var s :| s in p.dns.value.servers && !DropsServer(opts, s) && o == EmitServer(s);
        VpnEndpointKept(p, opts, s);
        EmittedIsKept(p, opts.hybrid, o.endpoint.value);
      }
    }
  }

  lemma DetourOfServer(p: Profile, opts: Options, s: DnsServer)
    requires Valid(p) && Asks(p, opts, s)
    ensures var d := EmitServer(s).detour;
            (d.Some? ==> Emitted(Outbounds(p, opts.hybrid, Reach(p)), d.value)) <==> DnsDetourKept(p, opts, s)
  {
    EmittedDetourKept(p, opts, s);
    hide Valid, Outbounds, Kept, Emitted, Reach, Asks, EmitServer, DnsDetourKept;
    if EmitServer(s).detour.Some? { EmittedIsKept(p, opts.hybrid, EmitServer(s).detour.value); }
  }

  lemma OnlyAskedDetours(s: DnsServer)
    ensures EmitServer(s).detour.Some? ==> s.kind == Network
  {
  }

  lemma DnsDetoursResolveWhenKept(p: Profile, opts: Options)
    requires Valid(p)
    ensures VpnServersResolve(Generated(p, opts))
    ensures DnsDetoursResolve(Generated(p, opts)) <==> forall s | Asks(p, opts, s) :: DnsDetourKept(p, opts, s)
  {
    VpnServersAreKept(p, opts);
    DnsOfConfig(p, opts);
    hide Valid, Outbounds, Kept, Emitted, Reach, Generated, VpnServersResolve, DnsDetourKept, DropsServer, EmitServer;
    var c := Generated(p, opts);
    if HasDns(p) {
      if DnsDetoursResolve(c) {
        forall s | Asks(p, opts, s) ensures DnsDetourKept(p, opts, s) {
          assert EmitServer(s) in c.dns.value.servers;
          DetourOfServer(p, opts, s);
        }
      }
      if forall s | Asks(p, opts, s) :: DnsDetourKept(p, opts, s) {
        forall o | o in c.dns.value.servers && o.detour.Some? ensures Emitted(c.outbounds, o.detour.value) {
          var s :| s in p.dns.value.servers && !DropsServer(opts, s) && o == EmitServer(s);
          OnlyAskedDetours(s);
          DetourOfServer(p, opts, s);
        }
      }
    }
  }

  // ---- The whole config ---------------------------------------------------------------------------

  ghost predicate NothingDangles(c: Config) {
    RulesResolve(c) && Emitted(c.outbounds, c.final) && MembersResolve(c) && DownloadsResolve(c) &&
    DnsDetoursResolve(c) && VpnServersResolve(c)
  }

  ghost predicate Whole(p: Profile, opts: Options) {
    (opts.hybrid ==> forall g, h :: !NestsGoneGroup(p, g, h)) &&
    (forall rl | Downloads(p, opts.hybrid, rl) :: DownloadKept(p, opts, rl)) &&
    (forall s | Asks(p, opts, s) :: DnsDetourKept(p, opts, s))
  }

  /** A valid profile's config dangles nowhere exactly when no group hides a gone one, no list downloads
      through a block or a default that is not kept, and no DNS detour changes meaning when trimmed. */
  lemma NothingDanglesIff(p: Profile, opts: Options)
    requires Valid(p)
    ensures NothingDangles(Generated(p, opts)) <==> Whole(p, opts)
  {
    hide Valid, Generated, RulesResolve, MembersResolve, DownloadsResolve, DnsDetoursResolve, VpnServersResolve,
         Emitted,
         NestsGoneGroup, Downloads, DownloadKept, Asks, DnsDetourKept;
    RoutesResolve(p, opts);
    MembersResolveUnlessNested(p, opts);
    DownloadsResolveWhenKept(p, opts);
    DnsDetoursResolveWhenKept(p, opts);
  }

  predicate Flat(p: Profile) {
    forall g, h | g in p.groups && h in p.groups :: h.id !in g.members
  }

  /** Flat groups, a download default that is unset, direct or referenced, and plainly written builtins. */
  lemma FlatProfileIsWhole(p: Profile, opts: Options)
    requires Valid(p) && Flat(p)
    requires opts.ruleSetDetour == "" || Lower(opts.ruleSetDetour) == DIRECT ||
             (Usable(p, opts.ruleSetDetour) && (opts.hybrid ==> opts.ruleSetDetour in Reach(p)))
    requires forall rl | rl in p.lists :: !IsBlock(rl.downloadVia)
    requires p.dns.Some? ==> forall s | s in p.dns.value.servers :: Trim(s.detour) == s.detour && !IsBlock(s.detour)
    ensures NothingDangles(Generated(p, opts))
  {
    hide NothingDangles, Generated, Reach, KernelEgress, DropsServer, SkipsList, Trim;
    DirectIsKept(p, opts.hybrid);
    if opts.ruleSetDetour != "" && Lower(opts.ruleSetDetour) != DIRECT {
      UsableIsKept(p, opts.hybrid, opts.ruleSetDetour);
      UsableIsNotBuiltin(p, opts.ruleSetDetour);
    }
    NothingDanglesIff(p, opts);
  }

  lemma UsableIsNotBuiltin(p: Profile, tag: string)
    requires Valid(p) && Usable(p, tag)
    ensures Canonical(tag) == tag
  {
  }

  // ---- What a caller can check beforehand ---------------------------------------------------------

  /** Ids without surrounding space, none of which reads as an access policy. */
  predicate PlainIds(p: Profile) {
    (forall e | e in p.endpoints :: Trim(e.id) == e.id && !IsPolicy(e.id)) &&
    (forall g | g in p.groups :: Trim(g.id) == g.id && !IsPolicy(g.id))
  }

  /** The download default is unset, direct, a policy in use, or something usable that hybrid mode does not take
      for the kernel's or finds referenced. */
  ghost predicate DefaultGuard(p: Profile, opts: Options) {
    var tag := opts.ruleSetDetour;
    tag == "" || Lower(tag) == DIRECT || PolicyInUse(p, tag) ||
    (Usable(p, tag) && (opts.hybrid ==> !KernelEgress(p, tag) || tag in Reach(p)))
  }

  ghost predicate DownloadGuard(p: Profile, opts: Options, rl: RoutingList) {
    if rl.downloadVia != "" then !IsBlock(rl.downloadVia) else DefaultGuard(p, opts)
  }

  predicate DnsGuard(s: DnsServer) {
    !IsBlock(Trim(s.detour)) && (Trim(s.detour) == s.detour || Trim(s.detour) == "")
  }

  ghost predicate Guarded(p: Profile, opts: Options) {
    (opts.hybrid ==> forall g, h :: !NestsGoneGroup(p, g, h)) &&
    (forall rl | Downloads(p, opts.hybrid, rl) :: DownloadGuard(p, opts, rl)) &&
    (forall s | Asks(p, opts, s) :: DnsGuard(s))
  }

  lemma DefaultGuardKeeps(p: Profile, opts: Options)
    requires Valid(p) && DefaultGuard(p, opts) && opts.ruleSetDetour != ""
    ensures Kept(p, opts.hybrid, Canonical(opts.ruleSetDetour))
  {
    var tag := opts.ruleSetDetour;
    if Lower(tag) == DIRECT {
    } else if PolicyInUse(p, tag) {
      PolicyIsCanonical(tag);
    } else {
      UsableIsNotBuiltin(p, tag);
      if opts.hybrid && tag !in Reach(p) { PlainUsableIsKept(p, tag); } else { UsableIsKept(p, opts.hybrid, tag); }
    }
  }

  lemma PlainUsableIsKept(p: Profile, tag: string)
    requires Valid(p) && Usable(p, tag) && !KernelEgress(p, tag)
    ensures Kept(p, true, tag)
  {
    UsableIsNotBuiltin(p, tag);
    assert Lower(DIRECT) == DIRECT && Lower(BLOCK) == BLOCK;
    hide Reach;
    if e :| e in p.endpoints && e.id == tag && e.enabled {
      FoundEndpoint(p.endpoints, e);
      assert KeepsEndpoint(true, Reach(p), e);
    } else {
      var g :| g in p.groups && g.id == tag;
      assert KeepsGroup(p, true, Reach(p), g);
    }
  }

  lemma KeptNeedsDefaultGuard(p: Profile, opts: Options)
    requires Valid(p) && PlainIds(p) && Kept(p, opts.hybrid, Canonical(opts.ruleSetDetour))
    ensures DefaultGuard(p, opts)
  {
    var tag, hybrid := opts.ruleSetDetour, opts.hybrid;
    hide Reach, Trim;
    if IsBlock(tag) {
      BlockIsNotKept(p, hybrid);
    } else if Lower(tag) != DIRECT && !PolicyInUse(p, tag) {
      assert tag != DIRECT by { assert Lower(DIRECT) == DIRECT; }
      if KeptEndpoint(p, hybrid, tag) {
        var e :| e in p.endpoints && e.id == tag && KeepsEndpoint(hybrid, Reach(p), e);
        FoundEndpoint(p.endpoints, e);
      } else {
        var g :| g in p.groups && g.id == tag && KeepsGroup(p, hybrid, Reach(p), g);
      }
    }
  }

  lemma BuiltinIsTrimmed(tag: string)
    requires IsBuiltin(tag)
    ensures Trim(tag) == tag
  {
    assert Lower(tag)[0] == LowerChar(tag[0]) && Lower(tag)[|tag| - 1] == LowerChar(tag[|tag| - 1]);
  }

  /** With plain ids a checked detour is written trimmed. */
  lemma KeptNeedsDnsGuard(p: Profile, opts: Options, s: DnsServer)
    requires Valid(p) && PlainIds(p) && Asks(p, opts, s) && DnsDetourKept(p, opts, s)
    ensures DnsGuard(s)
  {
    assert ValidServer(p, p.dns.value, s);
    hide UniqueIds, ValidRule, ValidList, Kept, Trim;
    if s.detour != "" && IsBuiltin(s.detour) { BuiltinIsTrimmed(s.detour); }
    if s.detour == "" { NothingToTrim(); }
  }

  lemma NothingToTrim()
    ensures Trim("") == ""
  {
  }

  lemma UnsetIsGuarded(p: Profile, opts: Options)
    requires opts.ruleSetDetour == ""
    ensures DefaultGuard(p, opts)
  {
  }

  lemma GuardKeepsDetour(p: Profile, opts: Options, s: DnsServer)
    requires DnsGuard(s)
    ensures DnsDetourKept(p, opts, s)
  {
  }

  /** The three guards are enough for any valid profile; and when ids are written plainly they are needed. */
  lemma GuardsDecide(p: Profile, opts: Options)
    requires Valid(p)
    ensures Guarded(p, opts) ==> NothingDangles(Generated(p, opts))
    ensures PlainIds(p) ==> (NothingDangles(Generated(p, opts)) <==> Guarded(p, opts))
  {
    hide Valid, NothingDangles, Generated, NestsGoneGroup, Downloads, Asks, DefaultGuard, Kept, DnsGuard, DnsDetourKept,
         PlainIds;
    NothingDanglesIff(p, opts);
    if Guarded(p, opts) {
      forall rl | Downloads(p, opts.hybrid, rl) ensures DownloadKept(p, opts, rl) {
        if rl.downloadVia == "" && opts.ruleSetDetour != "" { DefaultGuardKeeps(p, opts); }
      }
      forall s | Asks(p, opts, s) ensures DnsDetourKept(p, opts, s) { GuardKeepsDetour(p, opts, s); }
    }
    if PlainIds(p) && Whole(p, opts) {
      forall rl | Downloads(p, opts.hybrid, rl) ensures DownloadGuard(p, opts, rl) {
        if rl.downloadVia == "" {
          if opts.ruleSetDetour == "" { UnsetIsGuarded(p, opts); } else { KeptNeedsDefaultGuard(p, opts); }
        }
      }
      forall s | Asks(p, opts, s) ensures DnsGuard(s) { KeptNeedsDnsGuard(p, opts, s); }
    }
  }
}
