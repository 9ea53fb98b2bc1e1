/** The rule-sets and DNS servers a generated config refers to: which of them are in it, and that no two
    rule-sets share a tag. */
module GeneratorDns {
  import opened Wrappers
  import opened Hybrid
  import opened Generator

  predicate HasSet(sets: seq<RuleSet>, tag: string) { exists s | s in sets :: s.tag == tag }

  // ---- Lists, as the two emitters read them -------------------------------------------------------

  lemma {:induction false} EntriesAppend(a: seq<Entry>, b: seq<Entry>)
    ensures Names(a + b) == Names(a) + Names(b) && Prefixes(a + b) == Prefixes(a) + Prefixes(b)
  {
    if b == [] {
      assert a + b == a;
    } else {
      assert (a + b)[..|a + b| - 1] == a + b[..|b| - 1];
      EntriesAppend(a, b[..|b| - 1]);
    }
  }

  /** The core keeps the list for a name that only the address feed brought, and then leaves the feed out. */
  predicate FeedOnlyNames(p: Profile, hybrid: bool, rl: RoutingList) {
    LeavesFeed(p, hybrid, rl) && Names(rl.cidrCache) != [] && !Matches(rl.manual + rl.domainCache)
  }

  /** What a DNS rule calls a list's sets is what routingFrom called them, but for that one case. */
  lemma DnsTagsAreTheListsOwn(p: Profile, opts: Options, rl: RoutingList)
    requires rl.enabled
    ensures TagsForDns(p, opts.hybrid, rl) == TagsOf(ListSets(p, opts, rl)) <==> !FeedOnlyNames(p, opts.hybrid, rl)
  {
    hide KernelEgress, Names, Prefixes, Canonical;
    EntriesAppend(rl.manual + rl.cidrCache, rl.domainCache);
    EntriesAppend(rl.manual, rl.cidrCache);
    EntriesAppend(rl.manual, rl.domainCache);
    var sets := ListSets(p, opts, rl);
    if FeedOnlyNames(p, opts.hybrid, rl) {
      assert sets == [];
      assert TagsForDns(p, opts.hybrid, rl) == [InlineTag(rl)];
    } else if !SkipsList(p, opts.hybrid, rl) {
      assert Matches(Entries(rl)) <==> Matches(InlineEntries(p, opts.hybrid, rl));
    }
  }

  lemma {:induction false} DnsTagsOfList(p: Profile, hybrid: bool, ls: seq<RoutingList>, rl: RoutingList)
    requires rl in ls && rl.enabled && forall i, j | 0 <= i < j < |ls| :: ls[i].id != ls[j].id
    ensures DnsTags(p, hybrid, ls, rl.id) == TagsForDns(p, hybrid, rl)
  {
    if ls[0] != rl {
      var k :| 0 <= k < |ls| && ls[k] == rl;
      assert ls[0].id != ls[k].id;
      DnsTagsOfList(p, hybrid, ls[1..], rl);
    }
  }

  lemma {:induction false} DnsTagsNameAList(p: Profile, hybrid: bool, ls: seq<RoutingList>, id: string, t: string)
    requires t in DnsTags(p, hybrid, ls, id)
    ensures exists rl | rl in ls :: rl.id == id && rl.enabled && t in TagsForDns(p, hybrid, rl)
  {
    hide TagsForDns;
    if ls[0].id == id && ls[0].enabled {
      assert ls[0] in ls;
    } else {
      DnsTagsNameAList(p, hybrid, ls[1..], id, t);
      var rl :| rl in ls[1..] && rl.id == id && rl.enabled && t in TagsForDns(p, hybrid, rl);
      assert rl in ls;
    }
  }

  // ---- Every rule-set a rule names is there -------------------------------------------------------

  predicate RouteSetsResolve(c: Config) {
    forall r, ts, t | r in c.rules && ts in r.ruleSets && t in ts :: HasSet(c.sets, t)
  }

  predicate DnsSetsResolve(c: Config) {
    c.dns.Some? ==> forall r, ts, t | r in c.dns.value.rules && ts in r.ruleSets && t in ts :: HasSet(c.sets, t)
  }

  lemma ListTagIsThere(p: Profile, opts: Options, rl: RoutingList, t: string)
    requires rl in p.lists && t in TagsOf(ListSets(p, opts, rl))
    ensures HasSet(RouteSets(p, opts), t)
  {
  }

  lemma GeoTagIsThere(p: Profile, opts: Options, r: Rule, t: string)
    requires r in p.rules && t in RuleTags(p, opts.hybrid, r)
    ensures HasSet(RouteSets(p, opts), t)
  {
    hide AllListSets, RuleTags;
    assert t in AllRuleTags(p, opts.hybrid, p.rules);
    assert Remote(t, DIRECT) in RouteSets(p, opts);
  }

  lemma RouteSetsStay(p: Profile, opts: Options, t: string)
    requires HasSet(RouteSets(p, opts), t)
    ensures HasSet(Generated(p, opts).sets, t)
  {
    hide RouteSets, DnsSets, Outbounds, RouteRules, DnsOut, FinalOf;
  }

  /** Every rule-set an emitted route rule names is emitted. */
  lemma RouteRulesNameEmittedSets(p: Profile, opts: Options)
    ensures RouteSetsResolve(Generated(p, opts))
  {
    var c := Generated(p, opts);
    hide Outbounds, RouteSets, DnsSets, DnsOut, FinalOf, EmitRule, EmitList, HasSet, BlocksByDefault;
    forall r, ts, t | r in c.rules && ts in r.ruleSets && t in ts ensures HasSet(c.sets, t) {
      if r in EmitRules(p, opts.hybrid, p.rules) {
        var u :| u in p.rules && EmitRule(p, opts.hybrid, u) == Some(r);
        RuleNamesItsTags(p, opts.hybrid, u, r, ts, t);
        GeoTagIsThere(p, opts, u, t);
      } else if r in ListRules(p, opts, p.lists, true) || r in ListRules(p, opts, p.lists, false) {
        var rl :| rl in p.lists && EmitList(p, opts, rl) == Some(r);
        ListNamesItsTags(p, opts, rl, r, ts);
        ListTagIsThere(p, opts, rl, t);
      }
      RouteSetsStay(p, opts, t);
    }
  }

  lemma RuleNamesItsTags(p: Profile, hybrid: bool, u: Rule, r: RouteRule, ts: seq<string>, t: string)
    requires EmitRule(p, hybrid, u) == Some(r) && ts in r.ruleSets && t in ts
    ensures t in RuleTags(p, hybrid, u)
  {
    hide GeoTags, DropsRule, Target, InlineMatch;
  }

  lemma ListNamesItsTags(p: Profile, opts: Options, rl: RoutingList, r: RouteRule, ts: seq<string>)
    requires EmitList(p, opts, rl) == Some(r) && ts in r.ruleSets
    ensures ts == TagsOf(ListSets(p, opts, rl))
  {
    hide ListSets, TagsOf, Target;
  }

  /** r is emitted unless its lists yield nothing, and rl is one of the lists it names. */
  predicate NamesList(p: Profile, opts: Options, r: DnsRule, rl: RoutingList) {
    HasDns(p) && r in p.dns.value.rules && rl in p.lists && rl.enabled && rl.id in r.ruleSets &&
    !r.disabled && (r.server == REJECT || r.server !in DroppedTags(opts, p.dns.value.servers))
  }

  lemma DnsGeoTagIsThere(p: Profile, opts: Options, r: DnsRule, t: string)
    requires HasDns(p) && r in p.dns.value.rules
    requires t in DnsGeoTags(p, opts.hybrid, DroppedTags(opts, p.dns.value.servers), r)
    ensures HasSet(Generated(p, opts).sets, t)
  {
    hide RouteSets, Outbounds, RouteRules, DnsOut, FinalOf, DnsGeoTags, DroppedTags;
    var sets := RouteSets(p, opts);
    if t in set s | s in sets :: s.tag {
      RouteSetsStay(p, opts, t);
    } else {
      assert Remote(t, DIRECT) in DnsSets(p, opts, p.dns.value, set s | s in sets :: s.tag);
      assert Remote(t, DIRECT) in Generated(p, opts).sets;
    }
  }

  lemma ListNamedIsThere(p: Profile, opts: Options, r: DnsRule, t: string)
    requires HasDns(p) && r in p.dns.value.rules && t in RuleListTags(p, opts.hybrid, r.ruleSets)
    requires !DropsDnsRule(p, opts.hybrid, DroppedTags(opts, p.dns.value.servers), r)
    requires forall rl | NamesList(p, opts, r, rl) :: !FeedOnlyNames(p, opts.hybrid, rl)
    ensures HasSet(Generated(p, opts).sets, t)
  {
    hide TagsForDns, ListSets, DnsTags, FeedOnlyNames, Generated, RouteSets, DroppedTags, HasSet;
    var id :| id in r.ruleSets && t in DnsTags(p, opts.hybrid, p.lists, id);
    DnsTagsNameAList(p, opts.hybrid, p.lists, id, t);
    var rl :| rl in p.lists && rl.id == id && rl.enabled && t in TagsForDns(p, opts.hybrid, rl);
    assert NamesList(p, opts, r, rl);
    DnsTagsAreTheListsOwn(p, opts, rl);
    ListTagIsThere(p, opts, rl, t);
    RouteSetsStay(p, opts, t);
  }

  // ---- Tags of different kinds differ -------------------------------------------------------------

  lemma {:induction false} GeoTagsBegin(prefix: string, names: seq<string>, t: string)
    requires t in GeoTags(prefix, names)
    ensures prefix <= t
  {
    var init, last := names[..|names| - 1], Trim(names[|names| - 1]);
    if t in GeoTags(prefix, init) {
      GeoTagsBegin(prefix, init, t);
    } else {
      assert t == prefix + last;
    }
  }

  predicate IsGeo(t: string) { |t| > 0 && t[0] == 'g' }

  lemma RuleTagsAreGeo(p: Profile, hybrid: bool, t: string)
    requires t in AllRuleTags(p, hybrid, p.rules)
    ensures IsGeo(t)
  {
    hide GeoTags, DropsRule;
    var r :| r in p.rules && t in RuleTags(p, hybrid, r);
    if t in GeoTags(GEOSITE, r.geoSite) {
      GeoTagsBegin(GEOSITE, r.geoSite, t);
      assert t[0] == GEOSITE[0];
    } else {
      GeoTagsBegin(GEOIP, r.geoIP, t);
      assert t[0] == GEOIP[0];
    }
  }

  lemma DnsTagsAreGeo(p: Profile, hybrid: bool, dropped: set<string>, rs: seq<DnsRule>, t: string)
    requires t in AllDnsGeoTags(p, hybrid, dropped, rs)
    ensures IsGeo(t)
  {
    hide GeoTags, DropsDnsRule;
    var r :| r in rs && t in DnsGeoTags(p, hybrid, dropped, r);
    GeoTagsBegin(GEOSITE, r.geoSite, t);
    assert t[0] == GEOSITE[0];
  }

  /** A list's tags are its own: they tell the list and the kind of the set. */
  lemma ListTagsAreItsOwn(a: RoutingList, b: RoutingList)
    ensures RemoteTag(a) != InlineTag(b)
    ensures RemoteTag(a) == RemoteTag(b) ==> a.id == b.id
    ensures InlineTag(a) == InlineTag(b) ==> a.id == b.id
    ensures !IsGeo(RemoteTag(a)) && !IsGeo(InlineTag(a))
  {
    assert RemoteTag(a)[2] == '-' && InlineTag(b)[2] == 'm';
    assert RemoteTag(a)[0] == InlineTag(a)[0] == 'r';
    assert RemoteTag(a)[3..] == a.id && RemoteTag(b)[3..] == b.id;
    assert InlineTag(a)[4..] == a.id && InlineTag(b)[4..] == b.id;
  }

  lemma ListSetTags(p: Profile, opts: Options, rl: RoutingList, s: RuleSet)
    requires s in ListSets(p, opts, rl)
    ensures s.tag == RemoteTag(rl) || (s.tag == InlineTag(rl) && Matches(InlineEntries(p, opts.hybrid, rl)))
    ensures !IsGeo(s.tag)
  {
  }

  lemma SameList(p: Profile, a: RoutingList, b: RoutingList)
    requires UniqueIds(p) && a in p.lists && b in p.lists && a.id == b.id
    ensures a == b
  {
  }

  lemma GeneratedSet(p: Profile, opts: Options, s: RuleSet)
    requires s in Generated(p, opts).sets
    ensures s in AllListSets(p, opts, p.lists) || IsGeo(s.tag)
  {
    hide Outbounds, RouteRules, DnsOut, FinalOf, AllListSets, AllRuleTags, AllDnsGeoTags, DroppedTags, IsGeo;
    if s !in AllListSets(p, opts, p.lists) {
      if s.tag in AllRuleTags(p, opts.hybrid, p.rules) {
        RuleTagsAreGeo(p, opts.hybrid, s.tag);
      } else {
        DnsTagsAreGeo(p, opts.hybrid, DroppedTags(opts, p.dns.value.servers), p.dns.value.rules, s.tag);
      }
    }
  }

  lemma MissingSet(p: Profile, opts: Options, rl: RoutingList)
    requires UniqueIds(p) && rl in p.lists && FeedOnlyNames(p, opts.hybrid, rl)
    ensures !HasSet(Generated(p, opts).sets, InlineTag(rl))
  {
    hide Generated, ListSets, UniqueIds, Matches, KernelEgress, InlineTag, RemoteTag, Names, IsGeo;
    forall s | s in Generated(p, opts).sets ensures s.tag != InlineTag(rl) {
      GeneratedSet(p, opts, s);
      ListTagsAreItsOwn(rl, rl);
      if s in AllListSets(p, opts, p.lists) {
        var own :| own in p.lists && s in ListSets(p, opts, own);
        ListSetTags(p, opts, own, s);
        ListTagsAreItsOwn(own, rl);
        if own.id == rl.id { SameList(p, own, rl); }
      }
    }
  }

  lemma EmittedWithLists(p: Profile, opts: Options, r: DnsRule, rl: RoutingList)
    requires UniqueIds(p) && NamesList(p, opts, r, rl) && FeedOnlyNames(p, opts.hybrid, rl)
    ensures exists o, ts | o in DnsOut(p, opts, p.dns.value).rules && ts in o.ruleSets :: InlineTag(rl) in ts
  {
    hide KernelEgress, Names, Prefixes, DroppedTags, GeoTags, InlineDnsMatch;
    var d, dropped := p.dns.value, DroppedTags(opts, p.dns.value.servers);
    DnsTagsOfList(p, opts.hybrid, p.lists, rl);
    InlineNamed(p, opts, rl);
    var ts := RuleListTags(p, opts.hybrid, r.ruleSets);
    assert InlineTag(rl) in ts;
    var o := EmitDnsRule(p, opts.hybrid, dropped, r);
    assert o.Some? && ts in o.value.ruleSets;
    assert o.value in EmitDnsRules(p, opts.hybrid, dropped, d.rules);
  }

  lemma InlineNamed(p: Profile, opts: Options, rl: RoutingList)
    requires FeedOnlyNames(p, opts.hybrid, rl)
    ensures InlineTag(rl) in TagsForDns(p, opts.hybrid, rl)
  {
    hide KernelEgress, Names, Prefixes;
    EntriesAppend(rl.manual + rl.cidrCache, rl.domainCache);
    EntriesAppend(rl.manual, rl.cidrCache);
  }

  /** Every rule-set an emitted DNS rule names is emitted, exactly when no DNS rule names a list of which
      only the address feed, holding a name, would keep it in the core. */
  lemma DnsRulesNameEmittedSets(p: Profile, opts: Options)
    requires Valid(p)
    ensures DnsSetsResolve(Generated(p, opts)) <==>
            forall r, rl | NamesList(p, opts, r, rl) :: !FeedOnlyNames(p, opts.hybrid, rl)
  {
    var c := Generated(p, opts);
    hide Valid, UniqueIds, Outbounds, RouteSets, DnsSets, RouteRules, FinalOf, DnsFinal, HasSet, NamesList,
         FeedOnlyNames, GeoTags, RuleListTags, InlineDnsMatch;
    assert UniqueIds(p) by { UniqueWhenValid(p); }
    if DnsSetsResolve(c) {
      forall r, rl | NamesList(p, opts, r, rl) ensures !FeedOnlyNames(p, opts.hybrid, rl) {
        NamedNeedsDns(p, opts, r, rl);
        if FeedOnlyNames(p, opts.hybrid, rl) {
          EmittedWithLists(p, opts, r, rl);
          MissingSet(p, opts, rl);
        }
      }
    }
    if forall r, rl | NamesList(p, opts, r, rl) :: !FeedOnlyNames(p, opts.hybrid, rl) {
      if HasDns(p) {
        DnsRulesResolve(p, opts);
      }
    }
  }

  lemma NamedNeedsDns(p: Profile, opts: Options, r: DnsRule, rl: RoutingList)
    requires NamesList(p, opts, r, rl)
    ensures HasDns(p) && rl in p.lists
  {
  }

  lemma DnsRuleResolves(p: Profile, opts: Options, r: DnsRule, o: DnsRuleOut, ts: seq<string>, t: string)
    requires HasDns(p) && r in p.dns.value.rules && ts in o.ruleSets && t in ts
    requires EmitDnsRule(p, opts.hybrid, DroppedTags(opts, p.dns.value.servers), r) == Some(o)
    requires forall rl | NamesList(p, opts, r, rl) :: !FeedOnlyNames(p, opts.hybrid, rl)
    ensures HasSet(Generated(p, opts).sets, t)
  {
    hide Generated, HasSet, NamesList, FeedOnlyNames, GeoTags, RuleListTags, InlineDnsMatch, DropsDnsRule, DroppedTags;
    if t in RuleListTags(p, opts.hybrid, r.ruleSets) {
      ListNamedIsThere(p, opts, r, t);
    } else {
      assert t in DnsGeoTags(p, opts.hybrid, DroppedTags(opts, p.dns.value.servers), r);
      DnsGeoTagIsThere(p, opts, r, t);
    }
  }

  lemma DnsRulesOfConfig(p: Profile, opts: Options)
    requires HasDns(p)
    ensures Generated(p, opts).dns.Some?
    ensures Generated(p, opts).dns.value.rules ==
            EmitDnsRules(p, opts.hybrid, DroppedTags(opts, p.dns.value.servers), p.dns.value.rules)
  {
  }

  lemma DnsRulesResolve(p: Profile, opts: Options)
    requires HasDns(p) && forall r, rl | NamesList(p, opts, r, rl) :: !FeedOnlyNames(p, opts.hybrid, rl)
    ensures DnsSetsResolve(Generated(p, opts))
  {
    hide Generated, HasSet, NamesList, FeedOnlyNames, EmitDnsRule, DroppedTags;
    var c := Generated(p, opts);
    DnsRulesOfConfig(p, opts);
    forall o, ts, t | o in c.dns.value.rules && ts in o.ruleSets && t in ts ensures HasSet(c.sets, t) {
      var r :| r in p.dns.value.rules &&
               EmitDnsRule(p, opts.hybrid, DroppedTags(opts, p.dns.value.servers), r) == Some(o);
      DnsRuleResolves(p, opts, r, o, ts, t);
    }
  }

  // ---- No two rule-sets share a tag ---------------------------------------------------------------

  predicate Apart(sets: seq<RuleSet>) { forall i, j | 0 <= i < j < |sets| :: sets[i].tag != sets[j].tag }

  predicate Disjoint(a: seq<RuleSet>, b: seq<RuleSet>) { forall s, t | s in a && t in b :: s.tag != t.tag }

  lemma ApartTogether(a: seq<RuleSet>, b: seq<RuleSet>)
    requires Apart(a) && Apart(b) && Disjoint(a, b)
    ensures Apart(a + b)
  {
  }

  lemma OwnSetsApart(p: Profile, opts: Options, rl: RoutingList)
    ensures Apart(ListSets(p, opts, rl))
  {
  }

  lemma {:induction false} ListSetsApart(p: Profile, opts: Options, ls: seq<RoutingList>)
    requires forall i, j | 0 <= i < j < |ls| :: ls[i].id != ls[j].id
    ensures Apart(AllListSets(p, opts, ls))
  {
    hide ListSets;
    if ls != [] {
      var before, last := ls[..|ls| - 1], ls[|ls| - 1];
      ListSetsApart(p, opts, before);
      OwnSetsApart(p, opts, last);
      forall s, t | s in AllListSets(p, opts, before) && t in ListSets(p, opts, last) ensures s.tag != t.tag {
        var own :| own in before && s in ListSets(p, opts, own);
        ListSetTags(p, opts, own, s);
        ListSetTags(p, opts, last, t);
        ListTagsAreItsOwn(own, last);
        ListTagsAreItsOwn(last, own);
      }
      ApartTogether(AllListSets(p, opts, before), ListSets(p, opts, last));
    }
  }

  lemma RouteSetsApart(p: Profile, opts: Options)
    requires UniqueIds(p)
    ensures Apart(RouteSets(p, opts))
  {
    hide ListSets, AllRuleTags, IsGeo;
    var geo, lists := NewSets(AllRuleTags(p, opts.hybrid, p.rules), {}), AllListSets(p, opts, p.lists);
    ListSetsApart(p, opts, p.lists);
    forall s, t | s in geo && t in lists ensures s.tag != t.tag {
      RuleTagsAreGeo(p, opts.hybrid, s.tag);
      var rl :| rl in p.lists && t in ListSets(p, opts, rl);
      ListSetTags(p, opts, rl, t);
    }
    ApartTogether(geo, lists);
  }

  /** The core refuses a tag twice; the geo sets, the lists' remote and inline sets and the DNS rules' geo
      sets never clash. */
  lemma RuleSetTagsAreDistinct(p: Profile, opts: Options)
    requires Valid(p)
    ensures Apart(Generated(p, opts).sets)
  {
    hide Valid, RouteSets, Outbounds, RouteRules, FinalOf, DnsOut, AllDnsGeoTags, DroppedTags;
    UniqueWhenValid(p);
    RouteSetsApart(p, opts);
    if HasDns(p) {
      var sets := RouteSets(p, opts);
      ApartTogether(sets, DnsSets(p, opts, p.dns.value, set s | s in sets :: s.tag));
    }
  }

  // ---- DNS servers --------------------------------------------------------------------------------

  predicate HasServer(servers: seq<DnsServerOut>, tag: string) { exists s | s in servers :: s.tag == tag }

  predicate Emits(opts: Options, d: DnsSettings, tag: string) {
    exists s | s in d.servers :: s.tag == tag && !DropsServer(opts, s)
  }

  lemma ServerTag(s: DnsServer)
    ensures EmitServer(s).tag == s.tag
  {
  }

  lemma ServerIsEmitted(opts: Options, d: DnsSettings, tag: string)
    ensures HasServer(EmitServers(opts, d.servers), tag) <==> Emits(opts, d, tag)
  {
    hide DropsServer, EmitServer;
    var out := EmitServers(opts, d.servers);
    if HasServer(out, tag) {
      var o :| o in out && o.tag == tag;
      var s :| s in d.servers && !DropsServer(opts, s) && o == EmitServer(s);
      ServerTag(s);
    }
    if Emits(opts, d, tag) {
      var s :| s in d.servers && s.tag == tag && !DropsServer(opts, s);
      ServerTag(s);
      assert EmitServer(s) in out;
    }
  }

  /** No emitted DNS rule names a server left out of the block, and neither does its final. */
  lemma DnsTargetsAreEmitted(p: Profile, opts: Options)
    requires Valid(p) && HasDns(p)
    ensures var b := DnsOut(p, opts, p.dns.value);
            (forall r | r in b.rules :: r.server.Some? ==> HasServer(b.servers, r.server.value)) &&
            (b.final.Some? ==> HasServer(b.servers, b.final.value))
  {
    var d := p.dns.value;
    var servers, dropped := EmitServers(opts, d.servers), DroppedTags(opts, d.servers);
    assert ValidDns(p, d);
    FinalIsEmitted(p, opts, d);
    hide Valid, ValidDns, EmitServers, EmitDnsRule, DnsFinal, HasServer, DroppedTags;
    forall o | o in EmitDnsRules(p, opts.hybrid, dropped, d.rules) && o.server.Some?
      ensures HasServer(servers, o.server.value)
    {
      var r :| r in d.rules && EmitDnsRule(p, opts.hybrid, dropped, r) == Some(o);
      RuleServerIsEmitted(p, opts, d, r, o);
    }
  }

  lemma RuleServerIsEmitted(p: Profile, opts: Options, d: DnsSettings, r: DnsRule, o: DnsRuleOut)
    requires ValidDns(p, d) && r in d.rules && o.server.Some?
    requires EmitDnsRule(p, opts.hybrid, DroppedTags(opts, d.servers), r) == Some(o)
    ensures HasServer(EmitServers(opts, d.servers), o.server.value)
  {
    hide ValidServer, DropsServer, HasServer, RuleListTags, GeoTags, InlineDnsMatch;
    assert DefinedServer(d, r.server) && r.server !in DroppedTags(opts, d.servers);
    var s :| s in d.servers && s.tag == r.server && s.enabled;
    ServerIsEmitted(opts, d, s.tag);
  }

  lemma FinalIsEmitted(p: Profile, opts: Options, d: DnsSettings)
    requires ValidDns(p, d)
    ensures var servers := EmitServers(opts, d.servers);
            var final := DnsFinal(d.final, DroppedTags(opts, d.servers), servers);
            final.Some? ==> HasServer(servers, final.value)
  {
    hide ValidServer, DropsServer, HasServer;
    FirstIsThere(EmitServers(opts, d.servers));
    if d.final != "" && d.final !in DroppedTags(opts, d.servers) {
      var s :| s in d.servers && s.tag == d.final && s.enabled;
      ServerIsEmitted(opts, d, s.tag);
    }
  }

  lemma FirstIsThere(servers: seq<DnsServerOut>)
    ensures FirstNotVPN(servers).Some? ==> HasServer(servers, FirstNotVPN(servers).value)
  {
  }

  predicate BootstrapsResolve(b: DnsBlock) {
    forall s | s in b.servers :: s.resolver.Some? ==> HasServer(b.servers, s.resolver.value)
  }

  /** A bootstrap resolver is checked trimmed and emitted as it was written. */
  predicate BootstrapKept(opts: Options, d: DnsSettings, s: DnsServer) {
    Trim(s.domainResolver) == s.domainResolver || Trim(s.domainResolver) == "" || Emits(opts, d, s.domainResolver)
  }

  predicate Bootstraps(opts: Options, d: DnsSettings, s: DnsServer) {
    s in d.servers && s.kind == Network && !DropsServer(opts, s)
  }

  lemma ResolverOut(s: DnsServer)
    ensures EmitServer(s).resolver ==
            if s.kind == Network && Trim(s.domainResolver) != "" then Some(s.domainResolver) else None
  {
  }

  lemma EmittedResolver(p: Profile, opts: Options, s: DnsServer)
    requires Valid(p) && HasDns(p) && Bootstraps(opts, p.dns.value, s)
    ensures (EmitServer(s).resolver.Some? ==> Emits(opts, p.dns.value, EmitServer(s).resolver.value)) <==>
            BootstrapKept(opts, p.dns.value, s)
  {
  }

  /** Every bootstrap resolver an emitted server names is emitted, exactly when none is written with
      surrounding space that makes it another name. */
  lemma BootstrapsResolveWhenKept(p: Profile, opts: Options)
    requires Valid(p) && HasDns(p)
    ensures BootstrapsResolve(DnsOut(p, opts, p.dns.value)) <==>
            forall s | Bootstraps(opts, p.dns.value, s) :: BootstrapKept(opts, p.dns.value, s)
  {
    var d := p.dns.value;
    var b := DnsOut(p, opts, d);
    hide Valid, HasServer, BootstrapKept, DropsServer, EmitDnsRules, DnsFinal, EmitServer, Emits, DroppedTags;
    if BootstrapsResolve(b) {
      forall s | Bootstraps(opts, d, s) ensures BootstrapKept(opts, d, s) {
        assert EmitServer(s) in b.servers;
        EmittedResolver(p, opts, s);
        if EmitServer(s).resolver.Some? { ServerIsEmitted(opts, d, EmitServer(s).resolver.value); }
      }
    }
    if forall s | Bootstraps(opts, d, s) :: BootstrapKept(opts, d, s) {
      forall o | o in b.servers && o.resolver.Some? ensures HasServer(b.servers, o.resolver.value) {
        var s :| s in d.servers && !DropsServer(opts, s) && o == EmitServer(s);
        ResolverOut(s);
        EmittedResolver(p, opts, s);
        ServerIsEmitted(opts, d, o.resolver.value);
      }
    }
  }

  predicate WrittenTrimmed(name: string) { Trim(name) == name || Trim(name) == "" }

  /** What a caller can check: bootstrap resolvers written without surrounding space are enough, and when the
      servers' own tags are written so, they are needed. */
  lemma BootstrapGuard(p: Profile, opts: Options)
    requires Valid(p) && HasDns(p)
    ensures var d := p.dns.value;
            var resolve := BootstrapsResolve(DnsOut(p, opts, d));
            var guarded := forall s | Bootstraps(opts, d, s) :: WrittenTrimmed(s.domainResolver);
            (guarded ==> resolve) && ((forall s | s in d.servers :: Trim(s.tag) == s.tag) ==> (resolve <==> guarded))
  {
    BootstrapsResolveWhenKept(p, opts);
    hide Valid, Trim, DropsServer, Bootstraps, BootstrapsResolve, DnsOut;
  }
}
