/** What the generated config says, read against the profile alone: which rules, sets and servers are in it, in
    which order, and what each of them does. */
module GeneratorMeaning {
  import opened Wrappers
  import opened Hybrid
  import opened Generator

  // ---- Letters and blanks -------------------------------------------------------------------------

  /** The letter w, small or capital, or the Kelvin sign for k. */
  predicate Letter(c: char, w: char) {
    c == w || ('A' <= c <= 'Z' && c as int + 32 == w as int) || (c == '\U{212A}' && w == 'k')
  }

  /** The word, in any case. */
  predicate Reads(s: string, word: string) { |s| == |word| && forall i | 0 <= i < |s| :: Letter(s[i], word[i]) }

  lemma ReadsIsLower(s: string, word: string)
    requires forall i | 0 <= i < |word| :: 'a' <= word[i] <= 'z'
    ensures Reads(s, word) <==> Lower(s) == word
  {
    if |s| == |word| {
      forall i | 0 <= i < |s| ensures Letter(s[i], word[i]) <==> LowerChar(s[i]) == word[i] {
        assert 'a' <= word[i] <= 'z';
      }
    }
  }

  predicate White(c: char) { c == ' ' || '\U{9}' <= c <= '\U{D}' || c == '\U{85}' || c == '\U{A0}' }

  predicate Blank(s: string) { forall c | c in s :: White(c) }

  /** Trimming takes white space off both ends, as much as there is: a blank text has none left. */
  lemma {:induction false} TrimIs(s: string) returns (a: string, b: string)
    ensures s == a + Trim(s) + b && Blank(a) && Blank(b)
    ensures Trim(s) != "" ==> !White(Trim(s)[0]) && !White(Trim(s)[|Trim(s)| - 1])
    decreases |s|
  {
    WhiteIs();
    hide IsSpace, White;
    if s == "" || (!IsSpace(s[0]) && !IsSpace(s[|s| - 1])) {
      a, b := "", "";
    } else if IsSpace(s[0]) {
      a, b := TrimIs(s[1..]);
      a := [s[0]] + a;
    } else {
      a, b := TrimIs(s[..|s| - 1]);
      b := b + [s[|s| - 1]];
    }
  }

  lemma WhiteIs()
    ensures forall c :: IsSpace(c) == White(c)
  {
  }

  lemma BlankIs(s: string)
    ensures Trim(s) == "" <==> Blank(s)
  {
    var a, b := TrimIs(s);
    if Trim(s) != "" { assert Trim(s)[0] in s; }
    hide Trim, White;
  }

  // ---- The kernel's egresses ----------------------------------------------------------------------

  predicate KernelEngine(e: Endpoint) { e.engine == AmneziaWG || (e.engine.External? && e.engine.iface != "") }

  /** An access policy, a kernel endpoint, or a group with one among its members. */
  ghost predicate RunsInKernel(p: Profile, tag: string) {
    tag != "direct" && tag != "block" && tag != "" &&
    ("ndm-policy:" <= tag
     || (exists e | e in p.endpoints :: e.id == tag && KernelEngine(e))
     || (exists g | g in p.groups :: g.id == tag &&
                                     exists e | e in p.endpoints :: e.id in g.members && KernelEngine(e)))
  }

  lemma {:induction false} EndpointFound(es: seq<Endpoint>, id: string)
    ensures EndpointByID(es, id).None? <==> forall e | e in es :: e.id != id
    ensures EndpointByID(es, id).Some? ==> EndpointByID(es, id).value in es && EndpointByID(es, id).value.id == id
  {
    if es != [] {
      EndpointFound(es[1..], id);
      assert forall e :: e in es <==> e == es[0] || e in es[1..] by { assert es == [es[0]] + es[1..]; }
    }
  }

  lemma {:induction false} GroupIsFound(gs: seq<Group>, id: string)
    ensures GroupByID(gs, id).None? <==> forall g | g in gs :: g.id != id
    ensures GroupByID(gs, id).Some? ==> GroupByID(gs, id).value in gs && GroupByID(gs, id).value.id == id
  {
    if gs != [] {
      GroupIsFound(gs[1..], id);
      assert forall g :: g in gs <==> g == gs[0] || g in gs[1..] by { assert gs == [gs[0]] + gs[1..]; }
    }
  }

  /** The endpoint of an id, when ids are unique. */
  lemma OneEndpoint(p: Profile, e: Endpoint)
    requires UniqueIds(p) && e in p.endpoints
    ensures EndpointByID(p.endpoints, e.id) == Some(e)
  {
    EndpointFound(p.endpoints, e.id);
    var x := EndpointByID(p.endpoints, e.id).value;
    var i :| 0 <= i < |p.endpoints| && p.endpoints[i] == e;
    var j :| 0 <= j < |p.endpoints| && p.endpoints[j] == x;
  }

  lemma OneGroup(p: Profile, g: Group)
    requires UniqueIds(p) && g in p.groups
    ensures GroupByID(p.groups, g.id) == Some(g)
  {
    GroupIsFound(p.groups, g.id);
    var x := GroupByID(p.groups, g.id).value;
    var i :| 0 <= i < |p.groups| && p.groups[i] == g;
    var j :| 0 <= j < |p.groups| && p.groups[j] == x;
  }

  lemma KernelMemberIs(p: Profile, m: string)
    requires UniqueIds(p)
    ensures KernelMember(p, m) <==> exists e | e in p.endpoints :: e.id == m && KernelEngine(e)
  {
    EndpointFound(p.endpoints, m);
    if e :| e in p.endpoints && e.id == m && KernelEngine(e) { OneEndpoint(p, e); }
    hide UniqueIds, EndpointByID;
  }

  /** KernelEgress, which looks ids up, is that. */
  lemma KernelEgressIs(p: Profile, tag: string)
    requires UniqueIds(p)
    ensures KernelEgress(p, tag) <==> RunsInKernel(p, tag)
  {
    EndpointFound(p.endpoints, tag);
    GroupIsFound(p.groups, tag);
    KernelMemberIs(p, tag);
    forall m ensures KernelMember(p, m) <==> exists e | e in p.endpoints :: e.id == m && KernelEngine(e) {
      KernelMemberIs(p, m);
    }
    forall g | g in p.groups && g.id == tag ensures GroupByID(p.groups, tag) == Some(g) { OneGroup(p, g); }
    assert forall e, g | e in p.endpoints && g in p.groups :: e.id != g.id;
    hide UniqueIds, EndpointByID, GroupByID, KernelMember, KernelEngine;
  }

  // ---- Reading off in order -----------------------------------------------------------------------

  /** Places in a sequence of n, in order. */
  ghost predicate Places(at: seq<nat>, n: nat) {
    (forall k | 0 <= k < |at| :: at[k] < n) && forall j, k | 0 <= j < k < |at| :: at[j] < at[k]
  }

  lemma MorePlaces(at: seq<nat>, n: nat, takes: bool)
    requires Places(at, n)
    ensures var more := at + if takes then [n] else [];
            && Places(more, n + 1) && (n in more <==> takes) && forall i: nat | i < n :: i in more <==> i in at
  {
    var more := at + if takes then [n] else [];
    assert forall x :: x in more <==> x in at || (takes && x == n);
    assert forall x | x in at :: x < n;
  }

  lemma SameInFront<T>(s: seq<T>, at: seq<nat>)
    requires s != [] && Places(at, |s| - 1)
    ensures forall k | 0 <= k < |at| :: at[k] < |s| - 1 && s[..|s| - 1][at[k]] == s[at[k]]
    ensures forall i: nat | i < |s| - 1 :: s[..|s| - 1][i] == s[i]
  {
  }

  /** Where traffic of an outbound goes: rejected for "block" in any case, else out of the outbound itself, "direct" in
      lower case. */
  ghost predicate Goes(outbound: string, target: Option<string>) {
    if Reads(outbound, "block") then target == None
    else target == Some(if Reads(outbound, "direct") then "direct" else outbound)
  }

  lemma TargetGoes(outbound: string)
    ensures Goes(outbound, Target(outbound))
    ensures IsBlock(outbound) <==> Reads(outbound, "block")
    ensures Canonical(outbound) ==
            if Reads(outbound, "direct") then "direct" else if Reads(outbound, "block") then "block" else outbound
  {
    ReadsIsLower(outbound, "block");
    ReadsIsLower(outbound, "direct");
  }

  // ---- Geo sets -----------------------------------------------------------------------------------

  /** The tags are the prefix and each name that is not blank, trimmed, in order. */
  ghost predicate GeoTagsOf(prefix: string, names: seq<string>, tags: seq<string>) {
    exists at: seq<nat> ::
      && Places(at, |names|) && |at| == |tags| && (forall i: nat | i < |names| :: i in at <==> !Blank(names[i]))
      && forall k | 0 <= k < |at| :: tags[k] == prefix + Trim(names[at[k]])
  }

  lemma {:induction false} GeoTagsAt(prefix: string, names: seq<string>) returns (at: seq<nat>)
    ensures var tags := GeoTags(prefix, names);
            && Places(at, |names|) && |at| == |tags| && (forall i: nat | i < |names| :: i in at <==> !Blank(names[i]))
            && forall k | 0 <= k < |at| :: tags[k] == prefix + Trim(names[at[k]])
  {
    hide Trim, Blank;
    if names == [] {
      at := [];
    } else {
      var init, last := names[..|names| - 1], names[|names| - 1];
      var front := GeoTagsAt(prefix, init);
      BlankIs(last);
      MorePlaces(front, |init|, !Blank(last));
      SameInFront(names, front);
      at := front + if !Blank(last) then [|init|] else [];
      assert GeoTags(prefix, names) == GeoTags(prefix, init) + if Blank(last) then [] else [prefix + Trim(last)];
      hide Places, GeoTags;
    }
  }

  lemma GeoTagsAre(prefix: string, names: seq<string>)
    ensures GeoTagsOf(prefix, names, GeoTags(prefix, names))
    ensures GeoTags(prefix, names) == [] <==> forall v | v in names :: Blank(v)
  {
    var at := GeoTagsAt(prefix, names);
    hide GeoTags, Blank, Trim;
    if at == [] {
      forall v | v in names ensures Blank(v) { var i :| 0 <= i < |names| && names[i] == v; }
    } else {
      assert at[0] in at && names[at[0]] in names;
    }
  }

  // ---- User rules ---------------------------------------------------------------------------------

  /** The rule has a matcher that goes into the rule itself. */
  predicate MatchesInline(r: Rule) {
    (exists v | v in r.domain + r.domainSuffix + r.ipCIDR + r.sourceIPCIDR :: !Blank(v)) ||
    r.port != [] || r.sourcePort != []
  }

  predicate MatchesGeo(r: Rule) { exists v | v in r.geoSite + r.geoIP :: !Blank(v) }

  /** Nothing but addresses to match. */
  predicate OnlyAddresses(r: Rule) {
    r.ipCIDR != [] &&
    r.domain + r.domainSuffix + r.geoSite + r.geoIP + r.sourceIPCIDR + r.sourceMAC + r.sourceIface == [] &&
    r.port + r.sourcePort == []
  }

  /** The rule is the core's: enabled, no default, not left to the kernel, with something the core can match. */
  ghost predicate CoreRule(p: Profile, hybrid: bool, r: Rule) {
    !r.disabled && !r.isDefault && !(hybrid && RunsInKernel(p, r.outbound) && OnlyAddresses(r)) &&
    (MatchesInline(r) || MatchesGeo(r))
  }

  /** The emitted rule does what the profile's says: its traffic goes where it is sent, when the inline matchers and,
      where there are any, one of the geosite sets and one of the geoip sets match. */
  ghost predicate RuleMeans(r: Rule, o: RouteRule) {
    && Goes(r.outbound, o.target) && (o.inline <==> MatchesInline(r))
    && exists gs, gi :: GeoTagsOf("geosite-", r.geoSite, gs) && GeoTagsOf("geoip-", r.geoIP, gi) &&
                        o.ruleSets == (if gs == [] then [] else [gs]) + (if gi == [] then [] else [gi])
  }

  lemma NonBlankIs(vals: seq<string>)
    ensures HasNonBlank(vals) <==> exists v | v in vals :: !Blank(v)
  {
    forall v ensures Trim(v) == "" <==> Blank(v) { BlankIs(v); }
    hide Trim, Blank;
  }

  lemma InlineIs(r: Rule)
    ensures InlineMatch(r) <==> MatchesInline(r)
  {
    NonBlankIs(r.domain);
    NonBlankIs(r.domainSuffix);
    NonBlankIs(r.ipCIDR);
    NonBlankIs(r.sourceIPCIDR);
    assert forall v :: v in r.domain + r.domainSuffix + r.ipCIDR + r.sourceIPCIDR <==>
                       v in r.domain || v in r.domainSuffix || v in r.ipCIDR || v in r.sourceIPCIDR;
    hide HasNonBlank, Blank;
  }

  lemma OneRuleMeans(p: Profile, hybrid: bool, r: Rule)
    requires UniqueIds(p)
    ensures var o := EmitRule(p, hybrid, r);
            (o.Some? <==> CoreRule(p, hybrid, r)) && (o.Some? ==> RuleMeans(r, o.value))
  {
    hide InlineMatch, MatchesInline, GeoTags, GeoTagsOf, Blank, Target, Goes, UniqueIds, CoreRule, DropsRule, RuleMeans;
    RuleIsEmitted(p, hybrid, r);
    Emitted(r);
  }

  lemma Emitted(r: Rule)
    ensures RuleMeans(r, RouteRule(Target(r.outbound), InlineMatch(r),
                                   AndSets(GeoTags(GEOSITE, r.geoSite), GeoTags(GEOIP, r.geoIP))))
  {
    TargetGoes(r.outbound);
    InlineIs(r);
    GeoTagsAre("geosite-", r.geoSite);
    GeoTagsAre("geoip-", r.geoIP);
    hide InlineMatch, MatchesInline, GeoTags, GeoTagsOf, Blank, Target, Goes;
    var gs, gi := GeoTags(GEOSITE, r.geoSite), GeoTags(GEOIP, r.geoIP);
    assert AndSets(gs, gi) == (if gs == [] then [] else [gs]) + (if gi == [] then [] else [gi]);
  }

  lemma RuleIsEmitted(p: Profile, hybrid: bool, r: Rule)
    requires UniqueIds(p)
    ensures EmitRule(p, hybrid, r).Some? <==> CoreRule(p, hybrid, r)
  {
    InlineIs(r);
    KernelEgressIs(p, r.outbound);
    GeoIs(r);
    OnlyAddressesIs(r);
    hide InlineMatch, MatchesInline, KernelEgress, RunsInKernel, GeoTags, UniqueIds, IpOnlyKernelRule, OnlyAddresses,
         Target, MatchesGeo;
  }

  lemma OnlyAddressesIs(r: Rule)
    ensures IpOnlyKernelRule(r) <==> OnlyAddresses(r)
  {
    var strings := r.domain + r.domainSuffix + r.geoSite + r.geoIP + r.sourceIPCIDR + r.sourceMAC + r.sourceIface;
    assert |strings| == |r.domain| + |r.domainSuffix| + |r.geoSite| + |r.geoIP| + |r.sourceIPCIDR| + |r.sourceMAC| +
                        |r.sourceIface|;
    assert |r.port + r.sourcePort| == |r.port| + |r.sourcePort|;
  }

  lemma GeoIs(r: Rule)
    ensures MatchesGeo(r) <==> GeoTags("geosite-", r.geoSite) != [] || GeoTags("geoip-", r.geoIP) != []
  {
    GeoTagsAre("geosite-", r.geoSite);
    GeoTagsAre("geoip-", r.geoIP);
    assert forall v :: v in r.geoSite + r.geoIP <==> v in r.geoSite || v in r.geoIP;
    hide GeoTags, GeoTagsOf, Blank;
  }

  lemma {:induction false} UserRulesAre(p: Profile, hybrid: bool, rs: seq<Rule>) returns (at: seq<nat>)
    requires UniqueIds(p)
    ensures var out := EmitRules(p, hybrid, rs);
            && Places(at, |rs|) && |at| == |out|
            && (forall i: nat | i < |rs| :: i in at <==> CoreRule(p, hybrid, rs[i]))
            && forall k | 0 <= k < |at| :: RuleMeans(rs[at[k]], out[k])
  {
    hide EmitRule, CoreRule, RuleMeans, UniqueIds;
    if rs == [] {
      at := [];
    } else {
      var init, last := rs[..|rs| - 1], rs[|rs| - 1];
      var front := UserRulesAre(p, hybrid, init);
      OneRuleMeans(p, hybrid, last);
      MorePlaces(front, |init|, CoreRule(p, hybrid, last));
      SameInFront(rs, front);
      at := front + if CoreRule(p, hybrid, last) then [|init|] else [];
      hide Places;
    }
  }

  // ---- Routing lists ------------------------------------------------------------------------------

  /** The entries that make up the list's own set: all of it, but without the fetched addresses where the kernel routes
      those. */
  ghost function OwnEntries(p: Profile, hybrid: bool, rl: RoutingList): seq<Entry> {
    if hybrid && RunsInKernel(p, rl.outbound) && rl.source == "" && rl.cidrCache != [] &&
       (rl.scopeMode == Unscoped || rl.scopeMode == All)
    then rl.manual + rl.domainCache else rl.manual + rl.cidrCache + rl.domainCache
  }

  predicate HasEntries(es: seq<Entry>) { exists e | e in es :: e != Skipped }

  /** Addresses, and no name among the entries. */
  predicate AllAddresses(es: seq<Entry>) { HasEntries(es) && forall e | e in es :: !e.Name? }

  /** The list is the core's: enabled, not scoped to devices without an address, not routed by the kernel as a whole. */
  ghost predicate CoreList(p: Profile, hybrid: bool, rl: RoutingList) {
    rl.enabled && !(rl.scopeMode == Only && rl.scopeIPs == []) &&
    !(hybrid && RunsInKernel(p, rl.outbound) && rl.source == "" &&
      AllAddresses(rl.manual + rl.cidrCache + rl.domainCache))
  }

  predicate LoadsRemote(rl: RoutingList) { rl.source != "" && rl.loadable }

  /** The tags of its sets: the remote one, and its own. */
  ghost function SetTags(p: Profile, hybrid: bool, rl: RoutingList): seq<string> {
    (if LoadsRemote(rl) then ["rs-" + rl.id] else []) +
    (if HasEntries(OwnEntries(p, hybrid, rl)) then ["rsm-" + rl.id] else [])
  }

  /** The list's rule sends what any of its sets matches where the list says. */
  ghost predicate ListMeans(p: Profile, hybrid: bool, rl: RoutingList, o: RouteRule) {
    Goes(rl.outbound, o.target) && (o.inline <==> rl.scopeMode == Only) && o.ruleSets == [SetTags(p, hybrid, rl)]
  }

  lemma {:induction false} EntriesAre(es: seq<Entry>)
    ensures Names(es) == [] <==> forall e | e in es :: !e.Name?
    ensures Prefixes(es) == [] <==> forall e | e in es :: !e.Prefix?
  {
    if es != [] {
      EntriesAre(es[..|es| - 1]);
      assert forall e :: e in es <==> e in es[..|es| - 1] || e == es[|es| - 1] by {
        assert es == es[..|es| - 1] + [es[|es| - 1]];
      }
    }
  }

  lemma OneListMeans(p: Profile, opts: Options, rl: RoutingList)
    requires UniqueIds(p)
    ensures var o := EmitList(p, opts, rl);
            && (o.Some? <==> CoreList(p, opts.hybrid, rl) && SetTags(p, opts.hybrid, rl) != [])
            && (o.Some? ==> ListMeans(p, opts.hybrid, rl, o.value))
            && (o.Some? ==> (o.value.target == None <==> Reads(rl.outbound, "block")))
  {
    TargetGoes(rl.outbound);
    CoreIs(p, opts.hybrid, rl);
    TagsAreSetTags(p, opts, rl);
    hide Target, Goes, UniqueIds, CoreList, SetTags, ListSets, SkipsList, Reads, IsBlock;
    assert ListMeans(p, opts.hybrid, rl, RouteRule(Target(rl.outbound), rl.scopeMode == Only,
                                                   [SetTags(p, opts.hybrid, rl)]));
  }

  lemma CoreIs(p: Profile, hybrid: bool, rl: RoutingList)
    requires UniqueIds(p)
    ensures SkipsList(p, hybrid, rl) <==> !CoreList(p, hybrid, rl)
  {
    KernelEgressIs(p, rl.outbound);
    EntriesAre(Entries(rl));
    hide KernelEgress, RunsInKernel, Names, Prefixes, UniqueIds;
  }

  lemma TagsAreSetTags(p: Profile, opts: Options, rl: RoutingList)
    requires UniqueIds(p)
    ensures var sets := ListSets(p, opts, rl);
            && (SkipsList(p, opts.hybrid, rl) ==> sets == [])
            && (!SkipsList(p, opts.hybrid, rl) ==> TagsOf(sets) == SetTags(p, opts.hybrid, rl))
  {
    OwnIs(p, opts.hybrid, rl);
    EntriesAre(InlineEntries(p, opts.hybrid, rl));
    hide Names, Prefixes, UniqueIds, InlineEntries, OwnEntries, Detour, SkipsList;
  }

  lemma OwnIs(p: Profile, hybrid: bool, rl: RoutingList)
    requires UniqueIds(p)
    ensures InlineEntries(p, hybrid, rl) == OwnEntries(p, hybrid, rl)
  {
    KernelEgressIs(p, rl.outbound);
    hide KernelEgress, RunsInKernel, UniqueIds;
  }

  lemma NextListRule(p: Profile, opts: Options, ls: seq<RoutingList>, rejecting: bool)
    requires UniqueIds(p) && ls != []
    ensures var last := ls[|ls| - 1];
            var takes := CoreList(p, opts.hybrid, last) && SetTags(p, opts.hybrid, last) != [] &&
                         Reads(last.outbound, "block") == rejecting;
            var before := ListRules(p, opts, ls[..|ls| - 1], rejecting);
            && (takes ==> EmitList(p, opts, last).Some? &&
                          ListMeans(p, opts.hybrid, last, EmitList(p, opts, last).value))
            && ListRules(p, opts, ls, rejecting) == before + if takes then [EmitList(p, opts, last).value] else []
  {
    OneListMeans(p, opts, ls[|ls| - 1]);
    hide EmitList, CoreList, UniqueIds, SetTags, Reads;
  }

  lemma {:induction false} ListRulesAre(p: Profile, opts: Options, ls: seq<RoutingList>, rejecting: bool)
    returns (at: seq<nat>)
    requires UniqueIds(p)
    ensures var out := ListRules(p, opts, ls, rejecting);
            && Places(at, |ls|) && |at| == |out|
            && (forall i: nat | i < |ls| ::
                  i in at <==> (CoreList(p, opts.hybrid, ls[i]) && SetTags(p, opts.hybrid, ls[i]) != [] &&
                                Reads(ls[i].outbound, "block") == rejecting))
            && forall k | 0 <= k < |at| :: ListMeans(p, opts.hybrid, ls[at[k]], out[k])
  {
    hide EmitList, ListSets, CoreList, UniqueIds, SetTags, Reads, ListMeans;
    if ls == [] {
      at := [];
    } else {
      var init, last := ls[..|ls| - 1], ls[|ls| - 1];
      var front := ListRulesAre(p, opts, init, rejecting);
      NextListRule(p, opts, ls, rejecting);
      hide ListRules;
      var takes := CoreList(p, opts.hybrid, last) && SetTags(p, opts.hybrid, last) != [] &&
                   Reads(last.outbound, "block") == rejecting;
      MorePlaces(front, |init|, takes);
      SameInFront(ls, front);
      at := front + if takes then [|init|] else [];
      hide Places;
    }
  }

  // ---- The route ----------------------------------------------------------------------------------

  predicate BlockingDefault(r: Rule) { !r.disabled && r.isDefault && Reads(r.outbound, "block") }

  lemma BlocksIs(rs: seq<Rule>)
    ensures BlocksByDefault(rs) <==> exists r | r in rs :: BlockingDefault(r)
  {
    forall r: Rule ensures IsBlock(r.outbound) <==> Reads(r.outbound, "block") { TargetGoes(r.outbound); }
    hide IsBlock, Reads;
  }

  /** The emitted route rules are the core's user rules in the profile's order, then the rejecting lists, then the
      routing ones, each in the profile's order and doing what it says; and behind them all, when a default blocks, the
      rule that rejects everything. There are no others. */
  lemma RouteRulesAre(p: Profile, opts: Options) returns (users: seq<nat>, rejects: seq<nat>, routes: seq<nat>)
    requires UniqueIds(p)
    ensures Places(users, |p.rules|) && Places(rejects, |p.lists|) && Places(routes, |p.lists|)
    ensures forall i: nat | i < |p.rules| :: i in users <==> CoreRule(p, opts.hybrid, p.rules[i])
    ensures forall i: nat | i < |p.lists| ::
              var emits := CoreList(p, opts.hybrid, p.lists[i]) && SetTags(p, opts.hybrid, p.lists[i]) != [];
              (i in rejects <==> emits && Reads(p.lists[i].outbound, "block")) &&
              (i in routes <==> emits && !Reads(p.lists[i].outbound, "block"))
    ensures InThisOrder(p, opts, users, rejects, routes, RouteRules(p, opts))
  {
    hide EmitRules, ListRules, CoreRule, CoreList, SetTags, Reads, RuleMeans, ListMeans, UniqueIds, BlocksByDefault,
         BlockingDefault, InThisOrder;
    users := UserRulesAre(p, opts.hybrid, p.rules);
    rejects := ListRulesAre(p, opts, p.lists, true);
    routes := ListRulesAre(p, opts, p.lists, false);
    BlocksIs(p.rules);
    Assembled(p, opts, users, rejects, routes, EmitRules(p, opts.hybrid, p.rules), ListRules(p, opts, p.lists, true),
              ListRules(p, opts, p.lists, false));
    hide Places;
  }

  /** Rule by rule: the users' ones, the rejecting lists', the routing lists', and the catch-all. */
  ghost predicate InThisOrder(p: Profile, opts: Options, users: seq<nat>, rejects: seq<nat>, routes: seq<nat>,
                              rules: seq<RouteRule>)
    requires Places(users, |p.rules|) && Places(rejects, |p.lists|) && Places(routes, |p.lists|)
  {
    var blocks, m, n := exists r | r in p.rules :: BlockingDefault(r), |users|, |users| + |rejects|;
    && |rules| == n + |routes| + (if blocks then 1 else 0)
    && (forall k | 0 <= k < m :: RuleMeans(p.rules[users[k]], rules[k]))
    && (forall k | 0 <= k < |rejects| :: ListMeans(p, opts.hybrid, p.lists[rejects[k]], rules[m + k]))
    && (forall k | 0 <= k < |routes| :: ListMeans(p, opts.hybrid, p.lists[routes[k]], rules[n + k]))
    && (blocks ==> rules[n + |routes|] == RouteRule(None, true, []))
  }

  lemma Assembled(p: Profile, opts: Options, users: seq<nat>, rejects: seq<nat>, routes: seq<nat>, a: seq<RouteRule>,
                  b: seq<RouteRule>, c: seq<RouteRule>)
    requires Places(users, |p.rules|) && Places(rejects, |p.lists|) && Places(routes, |p.lists|)
    requires |users| == |a| && forall k | 0 <= k < |users| :: RuleMeans(p.rules[users[k]], a[k])
    requires |rejects| == |b| && forall k | 0 <= k < |rejects| :: ListMeans(p, opts.hybrid, p.lists[rejects[k]], b[k])
    requires |routes| == |c| && forall k | 0 <= k < |routes| :: ListMeans(p, opts.hybrid, p.lists[routes[k]], c[k])
    ensures var d := if exists r | r in p.rules :: BlockingDefault(r) then [BLOCK_ALL] else [];
            InThisOrder(p, opts, users, rejects, routes, a + b + c + d)
  {
    hide RuleMeans, ListMeans, BlockingDefault;
    Parts(a, b, c, if exists r | r in p.rules :: BlockingDefault(r) then [BLOCK_ALL] else []);
  }

  lemma Parts<T>(a: seq<T>, b: seq<T>, c: seq<T>, d: seq<T>)
    ensures var all, m, n := a + b + c + d, |a|, |a| + |b|;
            && |all| == n + |c| + |d| && (forall k | 0 <= k < m :: all[k] == a[k])
            && (forall k | 0 <= k < |b| :: all[m + k] == b[k]) && (forall k | 0 <= k < |c| :: all[n + k] == c[k])
            && (forall k | 0 <= k < |d| :: all[n + |c| + k] == d[k])
  {
  }

  /** The final outbound is the last enabled default's that does not block, else direct. */
  lemma {:induction false} FinalIs(rs: seq<Rule>) returns (i: int)
    ensures -1 <= i < |rs|
    ensures forall j | i < j < |rs| :: rs[j].disabled || !rs[j].isDefault || Reads(rs[j].outbound, "block")
    ensures i < 0 ==> FinalOf(rs) == "direct"
    ensures i >= 0 ==> !rs[i].disabled && rs[i].isDefault && Goes(rs[i].outbound, Some(FinalOf(rs)))
  {
    i := -1;
    if rs != [] {
      var init, last := rs[..|rs| - 1], rs[|rs| - 1];
      TargetGoes(last.outbound);
      hide IsBlock, Canonical, Reads;
      if !last.disabled && last.isDefault && !Reads(last.outbound, "block") {
        i := |init|;
      } else {
        i := FinalIs(init);
        assert forall j | 0 <= j < |init| :: init[j] == rs[j];
      }
    }
  }

  // ---- Rule sets ----------------------------------------------------------------------------------

  /** The names, or the addresses, among the entries, in order. */
  lemma {:induction false} NamesAre(es: seq<Entry>) returns (at: seq<nat>)
    ensures Places(at, |es|) && |at| == |Names(es)| && forall i: nat | i < |es| :: i in at <==> es[i].Name?
    ensures forall k | 0 <= k < |at| :: es[at[k]] == Name(Names(es)[k])
  {
    if es == [] {
      at := [];
    } else {
      var init, last := es[..|es| - 1], es[|es| - 1];
      var front := NamesAre(init);
      MorePlaces(front, |init|, last.Name?);
      SameInFront(es, front);
      at := front + if last.Name? then [|init|] else [];
      var more := if last.Name? then [last.name] else [];
      assert Names(es) == Names(init) + more;
      hide Places, Names;
    }
  }

  lemma {:induction false} PrefixesAre(es: seq<Entry>) returns (at: seq<nat>)
    ensures Places(at, |es|) && |at| == |Prefixes(es)| && forall i: nat | i < |es| :: i in at <==> es[i].Prefix?
    ensures forall k | 0 <= k < |at| :: es[at[k]] == Prefix(Prefixes(es)[k])
  {
    if es == [] {
      at := [];
    } else {
      var init, last := es[..|es| - 1], es[|es| - 1];
      var front := PrefixesAre(init);
      MorePlaces(front, |init|, last.Prefix?);
      SameInFront(es, front);
      at := front + if last.Prefix? then [|init|] else [];
      var more := if last.Prefix? then [last.cidr] else [];
      assert Prefixes(es) == Prefixes(init) + more;
      hide Places, Prefixes;
    }
  }

  /** Where a list is downloaded through: as it says, else as the profile says, else directly. */
  ghost predicate DownloadsThrough(rl: RoutingList, default_: string, detour: string) {
    var said := if rl.downloadVia != "" then rl.downloadVia else default_;
    detour == if said == "" || Reads(said, "direct") then "direct" else if Reads(said, "block") then "block" else said
  }

  ghost predicate SetOfList(p: Profile, opts: Options, rl: RoutingList, s: RuleSet) {
    CoreList(p, opts.hybrid, rl) &&
    match s
    case Remote(tag, detour) =>
      LoadsRemote(rl) && tag == "rs-" + rl.id && DownloadsThrough(rl, opts.ruleSetDetour, detour)
    case Inline(tag, names, prefixes) =>
      var es := OwnEntries(p, opts.hybrid, rl);
      HasEntries(es) && tag == "rsm-" + rl.id && names == Names(es) && prefixes == Prefixes(es)
  }

  lemma ListSetsAre(p: Profile, opts: Options, rl: RoutingList, s: RuleSet)
    requires UniqueIds(p)
    ensures s in ListSets(p, opts, rl) <==> SetOfList(p, opts, rl, s)
  {
    hide Names, Prefixes, UniqueIds, InlineEntries, OwnEntries, Detour, SkipsList, CoreList, DownloadsThrough;
    CoreIs(p, opts.hybrid, rl);
    OwnIs(p, opts.hybrid, rl);
    EntriesAre(InlineEntries(p, opts.hybrid, rl));
    if s.Remote? {
      DetourIs(rl, opts.ruleSetDetour);
      ThroughOne(rl, opts.ruleSetDetour, s.detour, Detour(rl, opts.ruleSetDetour));
      hide HasEntries, Matches;
    }
  }

  lemma DetourIs(rl: RoutingList, default_: string)
    ensures DownloadsThrough(rl, default_, Detour(rl, default_))
  {
    TargetGoes(rl.downloadVia);
    TargetGoes(default_);
    hide Canonical, Reads;
  }

  lemma ThroughOne(rl: RoutingList, default_: string, a: string, b: string)
    requires DownloadsThrough(rl, default_, b)
    ensures DownloadsThrough(rl, default_, a) <==> a == b
  {
    hide Reads;
  }

  /** A geo set of a user rule: downloaded directly. */
  ghost predicate SetOfRule(p: Profile, hybrid: bool, r: Rule, s: RuleSet) {
    CoreRule(p, hybrid, r) && s.Remote? && s.detour == "direct" &&
    ((exists v | v in r.geoSite :: !Blank(v) && s.tag == "geosite-" + Trim(v)) ||
     (exists v | v in r.geoIP :: !Blank(v) && s.tag == "geoip-" + Trim(v)))
  }

  lemma GeoTagIn(prefix: string, names: seq<string>, t: string)
    ensures t in GeoTags(prefix, names) <==> exists v | v in names :: !Blank(v) && t == prefix + Trim(v)
  {
    var at := GeoTagsAt(prefix, names);
    hide GeoTags, Blank, Trim;
    if t in GeoTags(prefix, names) {
      var k :| 0 <= k < |at| && GeoTags(prefix, names)[k] == t;
      assert at[k] in at && names[at[k]] in names;
    }
    if v :| v in names && !Blank(v) && t == prefix + Trim(v) {
      var i: nat :| i < |names| && names[i] == v;
      assert i in at;
      var k :| 0 <= k < |at| && at[k] == i;
      assert GeoTags(prefix, names)[k] == t;
    }
  }

  lemma RuleTagIn(p: Profile, hybrid: bool, r: Rule, t: string)
    requires UniqueIds(p)
    ensures t in RuleTags(p, hybrid, r) <==> SetOfRule(p, hybrid, r, Remote(t, DIRECT))
  {
    RuleIsEmitted(p, hybrid, r);
    GeoIs(r);
    GeoTagIn("geosite-", r.geoSite, t);
    GeoTagIn("geoip-", r.geoIP, t);
    hide CoreRule, DropsRule, GeoTags, Blank, Trim, InlineMatch, Target, UniqueIds;
  }

  /** The sets of the route are the geo sets of the core's rules and the sets of the core's lists, and no others. */
  lemma RouteSetsAre(p: Profile, opts: Options, s: RuleSet)
    requires UniqueIds(p)
    ensures s in RouteSets(p, opts) <==>
            (exists r | r in p.rules :: SetOfRule(p, opts.hybrid, r, s)) ||
            (exists rl | rl in p.lists :: SetOfList(p, opts, rl, s))
  {
    hide SetOfRule, SetOfList, RuleTags, ListSets, UniqueIds;
    var tags := AllRuleTags(p, opts.hybrid, p.rules);
    forall rl | rl in p.lists ensures s in ListSets(p, opts, rl) <==> SetOfList(p, opts, rl, s) {
      ListSetsAre(p, opts, rl, s);
    }
    forall r | r in p.rules ensures s.tag in RuleTags(p, opts.hybrid, r) <==>
                                    SetOfRule(p, opts.hybrid, r, Remote(s.tag, DIRECT)) {
      RuleTagIn(p, opts.hybrid, r, s.tag);
    }
    forall r | SetOfRule(p, opts.hybrid, r, s) ensures s == Remote(s.tag, DIRECT) {
      OfRuleIsRemote(p, opts.hybrid, r, s);
    }
    assert s in NewSets(tags, {}) <==> s.tag in tags && s == Remote(s.tag, DIRECT);
    hide NewSets, AllRuleTags, AllListSets;
  }

  lemma OfRuleIsRemote(p: Profile, hybrid: bool, r: Rule, s: RuleSet)
    requires SetOfRule(p, hybrid, r, s)
    ensures s == Remote(s.tag, DIRECT)
  {
  }

  // ---- What is referred to ------------------------------------------------------------------------

  ghost predicate Refers(p: Profile, t: string) {
    || (exists r | r in p.rules :: !r.disabled && r.outbound == t &&
                                   (r.isDefault || !(RunsInKernel(p, t) && OnlyAddresses(r))))
    || (exists rl | rl in p.lists ::
          rl.enabled && (rl.outbound == t || rl.downloadVia == t) &&
          !(RunsInKernel(p, rl.outbound) && rl.source == "" && AllAddresses(rl.manual + rl.cidrCache + rl.domainCache)))
    || (p.dns.Some? && exists s | s in p.dns.value.servers :: s.enabled && s.kind == Network && s.detour == t)
  }

  lemma AsRootIs(tag: string)
    ensures AsRoot(tag) == if tag == "" || Reads(tag, "direct") || Reads(tag, "block") then {} else {tag}
  {
    TargetGoes(tag);
    assert Canonical(tag) == "" ==> tag == "";
    hide Reads, Canonical;
  }

  lemma {:induction false} RuleRootsAre(p: Profile, rs: seq<Rule>, t: string)
    ensures t in RuleRoots(p, rs) <==> exists r | r in rs :: KeepsRuleRef(p, r) && t in AsRoot(r.outbound)
  {
    hide KeepsRuleRef, AsRoot;
    if rs != [] {
      var init, last := rs[..|rs| - 1], rs[|rs| - 1];
      RuleRootsAre(p, init, t);
      assert forall r :: r in rs <==> r in init || r == last by { assert rs == init + [last]; }
    }
  }

  lemma {:induction false} ListRootsAre(p: Profile, ls: seq<RoutingList>, t: string)
    ensures t in ListRoots(p, ls) <==>
            exists rl | rl in ls :: KeepsListRef(p, rl) && t in AsRoot(rl.outbound) + AsRoot(rl.downloadVia)
  {
    hide KeepsListRef, AsRoot;
    if ls != [] {
      var init, last := ls[..|ls| - 1], ls[|ls| - 1];
      ListRootsAre(p, init, t);
      assert forall rl :: rl in ls <==> rl in init || rl == last by { assert ls == init + [last]; }
    }
  }

  lemma {:induction false} DetourRootsAre(ss: seq<DnsServer>, t: string)
    ensures t in DetourRoots(ss) <==> exists s | s in ss :: KeepsDetour(s) && t in AsRoot(s.detour)
  {
    hide KeepsDetour, AsRoot;
    if ss != [] {
      var init, last := ss[..|ss| - 1], ss[|ss| - 1];
      DetourRootsAre(init, t);
      assert forall s :: s in ss <==> s in init || s == last by { assert ss == init + [last]; }
    }
  }

  lemma KeepsRuleIs(p: Profile, r: Rule)
    requires UniqueIds(p)
    ensures KeepsRuleRef(p, r) <==>
            !r.disabled && (r.isDefault || !(RunsInKernel(p, r.outbound) && OnlyAddresses(r)))
  {
    KernelEgressIs(p, r.outbound);
    OnlyAddressesIs(r);
    hide KernelEgress, RunsInKernel, OnlyAddresses, IpOnlyKernelRule, UniqueIds;
  }

  lemma KeepsListIs(p: Profile, rl: RoutingList)
    requires UniqueIds(p)
    ensures KeepsListRef(p, rl) <==>
            rl.enabled && !(RunsInKernel(p, rl.outbound) && rl.source == "" &&
                            AllAddresses(rl.manual + rl.cidrCache + rl.domainCache))
  {
    KernelEgressIs(p, rl.outbound);
    EntriesAre(Entries(rl));
    hide KernelEgress, RunsInKernel, Names, Prefixes, UniqueIds;
  }

  /** Reachability in hybrid mode begins at exactly these tags: what rules, lists, downloads and DNS detours that the
      core keeps refer to, but for direct and block. */
  lemma RootsAre(p: Profile, t: string)
    requires UniqueIds(p)
    ensures t in Roots(p) <==> t != "" && !Reads(t, "direct") && !Reads(t, "block") && Refers(p, t)
  {
    RuleRootsAre(p, p.rules, t);
    ListRootsAre(p, p.lists, t);
    if p.dns.Some? { DetourRootsAre(p.dns.value.servers, t); }
    forall r: Rule ensures KeepsRuleRef(p, r) <==>
                           !r.disabled && (r.isDefault || !(RunsInKernel(p, r.outbound) && OnlyAddresses(r)))
    {
      KeepsRuleIs(p, r);
    }
    forall rl: RoutingList ensures KeepsListRef(p, rl) <==>
                                   rl.enabled && !(RunsInKernel(p, rl.outbound) && rl.source == "" &&
                                                   AllAddresses(rl.manual + rl.cidrCache + rl.domainCache))
    {
      KeepsListIs(p, rl);
    }
    forall tag ensures t in AsRoot(tag) <==> t == tag && t != "" && !Reads(t, "direct") && !Reads(t, "block") {
      AsRootIs(tag);
    }
    hide KeepsRuleRef, KeepsListRef, AsRoot, RunsInKernel, OnlyAddresses, AllAddresses, Reads, UniqueIds, RuleRoots,
         ListRoots, DetourRoots;
  }

  // ---- Outbounds ----------------------------------------------------------------------------------

  /** The core needs the endpoint, or the group: in hybrid mode the kernel's ones only when something kept refers to
      them. */
  predicate NeedsEndpoint(hybrid: bool, reach: set<string>, e: Endpoint) {
    e.enabled && (hybrid && (e.engine == AmneziaWG || e.engine.External?) ==> e.id in reach)
  }

  ghost predicate NeedsGroup(p: Profile, hybrid: bool, reach: set<string>, g: Group) {
    hybrid && RunsInKernel(p, g.id) ==> g.id in reach
  }

  lemma {:induction false} EndpointsAre(hybrid: bool, reach: set<string>, es: seq<Endpoint>) returns (at: seq<nat>)
    ensures var out := EndpointOutbounds(hybrid, reach, es);
            && Places(at, |es|) && |at| == |out|
            && (forall i: nat | i < |es| :: i in at <==> NeedsEndpoint(hybrid, reach, es[i]))
            && forall k | 0 <= k < |at| :: out[k] == Outbound(es[at[k]].id, [])
  {
    hide NeedsEndpoint;
    if es == [] {
      at := [];
    } else {
      var init, last := es[..|es| - 1], es[|es| - 1];
      var front := EndpointsAre(hybrid, reach, init);
      var takes := NeedsEndpoint(hybrid, reach, last);
      NextEndpoint(hybrid, reach, es);
      hide EndpointOutbounds;
      MorePlaces(front, |init|, takes);
      SameInFront(es, front);
      at := front + if takes then [|init|] else [];
      hide Places;
    }
  }

  lemma NextEndpoint(hybrid: bool, reach: set<string>, es: seq<Endpoint>)
    requires es != []
    ensures var init, last := es[..|es| - 1], es[|es| - 1];
            EndpointOutbounds(hybrid, reach, es) ==
            EndpointOutbounds(hybrid, reach, init) +
            if NeedsEndpoint(hybrid, reach, last) then [Outbound(last.id, [])] else []
  {
  }

  lemma {:induction false} GroupsAre(p: Profile, hybrid: bool, reach: set<string>, gs: seq<Group>)
    returns (at: seq<nat>)
    requires UniqueIds(p)
    ensures var out := GroupOutbounds(p, hybrid, reach, gs);
            && Places(at, |gs|) && |at| == |out|
            && (forall i: nat | i < |gs| :: i in at <==> NeedsGroup(p, hybrid, reach, gs[i]))
            && forall k | 0 <= k < |at| :: out[k] == Outbound(gs[at[k]].id, gs[at[k]].members)
  {
    hide UniqueIds;
    if gs == [] {
      at := [];
    } else {
      var init, last := gs[..|gs| - 1], gs[|gs| - 1];
      var front := GroupsAre(p, hybrid, reach, init);
      KernelEgressIs(p, last.id);
      hide RunsInKernel, KernelEgress;
      var takes := NeedsGroup(p, hybrid, reach, last);
      assert KeepsGroup(p, hybrid, reach, last) <==> takes;
      MorePlaces(front, |init|, takes);
      SameInFront(gs, front);
      at := front + if takes then [|init|] else [];
      hide Places, KeepsGroup, NeedsGroup;
    }
  }

  /** The outbounds are direct, the endpoints and the groups the core needs, in the profile's order, and one for each
      access policy that an enabled list points at. */
  lemma OutboundsAre(p: Profile, hybrid: bool, reach: set<string>)
    returns (es: seq<nat>, gs: seq<nat>, policies: seq<string>)
    requires UniqueIds(p)
    ensures Places(es, |p.endpoints|) && Places(gs, |p.groups|)
    ensures forall i: nat | i < |p.endpoints| :: i in es <==> NeedsEndpoint(hybrid, reach, p.endpoints[i])
    ensures forall i: nat | i < |p.groups| :: i in gs <==> NeedsGroup(p, hybrid, reach, p.groups[i])
    ensures forall t :: t in policies <==>
                          "ndm-policy:" <= t && exists rl | rl in p.lists :: rl.enabled && rl.outbound == t
    ensures forall i, j | 0 <= i < j < |policies| :: policies[i] != policies[j]
    ensures OutboundsInOrder(p, es, gs, policies, Outbounds(p, hybrid, reach))
  {
    hide UniqueIds, EndpointOutbounds, GroupOutbounds, NeedsEndpoint, NeedsGroup, OutboundsInOrder;
    es := EndpointsAre(hybrid, reach, p.endpoints);
    gs := GroupsAre(p, hybrid, reach, p.groups);
    policies := PolicyTags(p.lists);
    OutboundsAssembled(p, es, gs, policies, EndpointOutbounds(hybrid, reach, p.endpoints),
                       GroupOutbounds(p, hybrid, reach, p.groups));
    hide Places, Plain;
  }

  ghost predicate OutboundsInOrder(p: Profile, es: seq<nat>, gs: seq<nat>, policies: seq<string>, out: seq<Outbound>)
    requires Places(es, |p.endpoints|) && Places(gs, |p.groups|)
  {
    var m, n := 1 + |es|, 1 + |es| + |gs|;
    && |out| == n + |policies| && out[0] == Outbound("direct", [])
    && (forall k | 0 <= k < |es| :: out[1 + k] == Outbound(p.endpoints[es[k]].id, []))
    && (forall k | 0 <= k < |gs| :: out[m + k] == Outbound(p.groups[gs[k]].id, p.groups[gs[k]].members))
    && (forall k | 0 <= k < |policies| :: out[n + k] == Outbound(policies[k], []))
  }

  lemma OutboundsAssembled(p: Profile, es: seq<nat>, gs: seq<nat>, policies: seq<string>, a: seq<Outbound>,
                           b: seq<Outbound>)
    requires Places(es, |p.endpoints|) && Places(gs, |p.groups|)
    requires |es| == |a| && forall k | 0 <= k < |es| :: a[k] == Outbound(p.endpoints[es[k]].id, [])
    requires |gs| == |b| && forall k | 0 <= k < |gs| :: b[k] == Outbound(p.groups[gs[k]].id, p.groups[gs[k]].members)
    ensures OutboundsInOrder(p, es, gs, policies, [Outbound(DIRECT, [])] + a + b + Plain(policies))
  {
    Parts([Outbound(DIRECT, [])], a, b, Plain(policies));
    hide Plain;
  }

  /** The profile is refused for its policies exactly when an enabled list points at one without a mark. */
  lemma PoliciesKnownIs(p: Profile, opts: Options)
    ensures PoliciesKnown(p, opts) <==>
            forall rl, name | rl in p.lists && rl.enabled && rl.outbound == "ndm-policy:" + name ::
              name in opts.policies && opts.policies[name] != 0
  {
    forall rl, name | rl in p.lists && rl.enabled && rl.outbound == "ndm-policy:" + name
      ensures UsesPolicy(rl) && (HasMark(opts, rl.outbound) <==> name in opts.policies && opts.policies[name] != 0)
    {
      assert rl.outbound[|POLICY|..] == name;
    }
    forall t | t in PolicyTags(p.lists) && !HasMark(opts, t)
      ensures exists rl, name :: rl in p.lists && rl.enabled && rl.outbound == "ndm-policy:" + name &&
                                 !(name in opts.policies && opts.policies[name] != 0)
    {
      var rl :| rl in p.lists && UsesPolicy(rl) && rl.outbound == t;
      assert t == "ndm-policy:" + t[|POLICY|..];
    }
    hide PolicyTags;
  }

  // ---- DNS ----------------------------------------------------------------------------------------

  /** The server is the core's: fake addresses only beside a TUN, a VPN's only where that is carried. */
  predicate CoreServer(opts: Options, s: DnsServer) {
    s.enabled && (s.kind == FakeIP ==> opts.tun) && (s.kind.VPN? ==> opts.carriesVPNDNS)
  }

  /** A VPN server names its endpoint, a network one its detour unless that is blank or direct, and its resolver as it
      is written unless that is blank. */
  ghost predicate ServerMeans(s: DnsServer, o: DnsServerOut) {
    && o.tag == s.tag && (o.vpn <==> s.kind.VPN?)
    && o.endpoint == (if s.kind.VPN? then Some(Trim(s.endpoint)) else None)
    && o.resolver == (if s.kind == Network && !Blank(s.domainResolver) then Some(s.domainResolver) else None)
    && (if s.kind == Network && !Blank(s.detour) && !Reads(Trim(s.detour), "direct")
        then o.detour == Some(if Reads(Trim(s.detour), "block") then "block" else Trim(s.detour)) else o.detour == None)
  }

  lemma OneServerMeans(s: DnsServer)
    ensures ServerMeans(s, EmitServer(s))
  {
    BlankIs(s.domainResolver);
    BlankIs(s.detour);
    TargetGoes(Trim(s.detour));
    TrimmedOnce(s.detour);
    hide Blank, Canonical, Trim;
  }

  /** A builtin's name is not empty. */
  lemma TrimmedOnce(s: string)
    ensures Trim(s) == "" ==> !Reads(Trim(s), "direct") && !Reads(Trim(s), "block")
    ensures Trim(s) == DIRECT ==> Reads(Trim(s), "direct")
  {
    hide Trim;
  }

  lemma {:induction false} ServersAre(opts: Options, ss: seq<DnsServer>) returns (at: seq<nat>)
    ensures var out := EmitServers(opts, ss);
            && Places(at, |ss|) && |at| == |out| && (forall i: nat | i < |ss| :: i in at <==> CoreServer(opts, ss[i]))
            && forall k | 0 <= k < |at| :: ServerMeans(ss[at[k]], out[k])
  {
    if ss == [] {
      at := [];
    } else {
      var init, last := ss[..|ss| - 1], ss[|ss| - 1];
      var front := ServersAre(opts, init);
      var takes := CoreServer(opts, last);
      assert DropsServer(opts, last) <==> !takes;
      OneServerMeans(last);
      MorePlaces(front, |init|, takes);
      SameInFront(ss, front);
      at := front + if takes then [|init|] else [];
      hide Places, DropsServer, CoreServer, ServerMeans, EmitServer;
    }
  }

  /** A list's sets as DNS rules name them, after the first enabled list of the id. */
  ghost predicate NamedByDns(p: Profile, hybrid: bool, id: string, t: string) {
    exists i :: 0 <= i < |p.lists| && p.lists[i].id == id && p.lists[i].enabled
                && (forall j | 0 <= j < i :: p.lists[j].id != id || !p.lists[j].enabled)
                && DnsNames(p, hybrid, p.lists[i], t)
  }

  ghost predicate DnsNames(p: Profile, hybrid: bool, rl: RoutingList, t: string) {
    var es := rl.manual + rl.cidrCache + rl.domainCache;
    !(rl.scopeMode == Only && rl.scopeIPs == []) &&
    ((LoadsRemote(rl) && t == "rs-" + rl.id) ||
     (HasEntries(es) && t == "rsm-" + rl.id &&
      !(hybrid && RunsInKernel(p, rl.outbound) && rl.source == "" && AllAddresses(es))))
  }

  lemma ForDnsIs(p: Profile, hybrid: bool, rl: RoutingList, t: string)
    requires UniqueIds(p)
    ensures t in TagsForDns(p, hybrid, rl) <==> DnsNames(p, hybrid, rl, t)
  {
    KernelEgressIs(p, rl.outbound);
    EntriesAre(Entries(rl));
    hide KernelEgress, RunsInKernel, Names, Prefixes, UniqueIds;
  }

  /** The first enabled list of the id. */
  lemma {:induction false} DnsTagsIs(p: Profile, hybrid: bool, ls: seq<RoutingList>, id: string) returns (i: nat)
    ensures i <= |ls| && (i < |ls| ==> ls[i].id == id && ls[i].enabled)
    ensures forall j | 0 <= j < i :: ls[j].id != id || !ls[j].enabled
    ensures DnsTags(p, hybrid, ls, id) == if i < |ls| then TagsForDns(p, hybrid, ls[i]) else []
  {
    hide TagsForDns;
    i := 0;
    if ls != [] && !(ls[0].id == id && ls[0].enabled) {
      var k := DnsTagsIs(p, hybrid, ls[1..], id);
      i := k + 1;
      assert forall j | 0 < j < |ls| :: ls[j] == ls[1..][j - 1];
    }
  }

  lemma DnsListIs(p: Profile, hybrid: bool, id: string, t: string)
    requires UniqueIds(p)
    ensures t in DnsTags(p, hybrid, p.lists, id) <==> NamedByDns(p, hybrid, id, t)
  {
    var i := DnsTagsIs(p, hybrid, p.lists, id);
    forall rl ensures t in TagsForDns(p, hybrid, rl) <==> DnsNames(p, hybrid, rl, t) { ForDnsIs(p, hybrid, rl, t); }
    hide DnsTags, TagsForDns, DnsNames, UniqueIds;
  }

  predicate MatchesDnsInline(r: DnsRule) { exists v | v in r.domainSuffix + r.domain + r.queryType :: !Blank(v) }

  /** The sets a DNS rule asks for: its lists', and its geosites'. */
  ghost predicate AsksLists(p: Profile, hybrid: bool, r: DnsRule, tags: seq<string>) {
    forall t :: t in tags <==> exists id | id in r.ruleSets :: NamedByDns(p, hybrid, id, t)
  }

  ghost predicate DnsRuleMeans(p: Profile, hybrid: bool, r: DnsRule, o: DnsRuleOut) {
    && o.server == (if r.server == "reject" then None else Some(r.server)) && (o.inline <==> MatchesDnsInline(r))
    && exists ls, gs :: AsksLists(p, hybrid, r, ls) && GeoTagsOf("geosite-", r.geoSite, gs) &&
                        o.ruleSets == (if ls == [] then [] else [ls]) + (if gs == [] then [] else [gs])
  }

  /** The rule is kept: enabled, its server not left out, its lists with at least one set if it names any, and something
      to match. */
  ghost predicate CoreDnsRule(p: Profile, hybrid: bool, dropped: set<string>, r: DnsRule) {
    var names := exists id, t | id in r.ruleSets :: NamedByDns(p, hybrid, id, t);
    && !r.disabled && (r.server == "reject" || r.server !in dropped) && (r.ruleSets == [] || names)
    && (MatchesDnsInline(r) || names || exists v | v in r.geoSite :: !Blank(v))
  }

  lemma RuleListsAre(p: Profile, hybrid: bool, r: DnsRule)
    requires UniqueIds(p)
    ensures AsksLists(p, hybrid, r, RuleListTags(p, hybrid, r.ruleSets))
    ensures RuleListTags(p, hybrid, r.ruleSets) != [] <==>
            exists id, t | id in r.ruleSets :: NamedByDns(p, hybrid, id, t)
  {
    var tags := RuleListTags(p, hybrid, r.ruleSets);
    forall id, t ensures t in DnsTags(p, hybrid, p.lists, id) <==> NamedByDns(p, hybrid, id, t) {
      DnsListIs(p, hybrid, id, t);
    }
    hide NamedByDns, DnsTags, RuleListTags, UniqueIds;
    if tags != [] { assert tags[0] in tags; }
    if id, t :| id in r.ruleSets && NamedByDns(p, hybrid, id, t) { assert t in tags; }
  }

  lemma DnsInlineIs(r: DnsRule)
    ensures InlineDnsMatch(r) <==> MatchesDnsInline(r)
  {
    NonBlankIs(r.domainSuffix);
    NonBlankIs(r.domain);
    NonBlankIs(r.queryType);
    assert forall v :: v in r.domainSuffix + r.domain + r.queryType <==>
                       v in r.domainSuffix || v in r.domain || v in r.queryType;
    hide HasNonBlank, Blank;
  }

  lemma OneDnsRuleMeans(p: Profile, hybrid: bool, dropped: set<string>, r: DnsRule)
    requires UniqueIds(p)
    ensures var o := EmitDnsRule(p, hybrid, dropped, r);
            (o.Some? <==> CoreDnsRule(p, hybrid, dropped, r)) && (o.Some? ==> DnsRuleMeans(p, hybrid, r, o.value))
  {
    hide RuleListTags, GeoTags, InlineDnsMatch, DnsRuleMeans, CoreDnsRule, UniqueIds;
    DnsRuleIsEmitted(p, hybrid, dropped, r);
    DnsEmitted(p, hybrid, r);
    hide DropsDnsRule;
  }

  lemma DnsRuleIsEmitted(p: Profile, hybrid: bool, dropped: set<string>, r: DnsRule)
    requires UniqueIds(p)
    ensures EmitDnsRule(p, hybrid, dropped, r).Some? <==> CoreDnsRule(p, hybrid, dropped, r)
  {
    hide RuleListTags, GeoTags, GeoTagsOf, AsksLists, InlineDnsMatch, MatchesDnsInline, NamedByDns, Blank, UniqueIds;
    RuleListsAre(p, hybrid, r);
    GeoTagsAre("geosite-", r.geoSite);
    DnsInlineIs(r);
  }

  lemma DnsEmitted(p: Profile, hybrid: bool, r: DnsRule)
    requires UniqueIds(p)
    ensures DnsRuleMeans(p, hybrid, r,
                         DnsRuleOut(if r.server == REJECT then None else Some(r.server), InlineDnsMatch(r),
                                    AndSets(RuleListTags(p, hybrid, r.ruleSets), GeoTags(GEOSITE, r.geoSite))))
  {
    hide RuleListTags, GeoTags, GeoTagsOf, AsksLists, InlineDnsMatch, MatchesDnsInline, NamedByDns, Blank, UniqueIds;
    RuleListsAre(p, hybrid, r);
    GeoTagsAre("geosite-", r.geoSite);
    DnsInlineIs(r);
    var ls, gs := RuleListTags(p, hybrid, r.ruleSets), GeoTags(GEOSITE, r.geoSite);
    assert AndSets(ls, gs) == (if ls == [] then [] else [ls]) + (if gs == [] then [] else [gs]);
  }

  lemma {:induction false} DnsRulesAre(p: Profile, hybrid: bool, dropped: set<string>, rs: seq<DnsRule>)
    returns (at: seq<nat>)
    requires UniqueIds(p)
    ensures var out := EmitDnsRules(p, hybrid, dropped, rs);
            && Places(at, |rs|) && |at| == |out|
            && (forall i: nat | i < |rs| :: i in at <==> CoreDnsRule(p, hybrid, dropped, rs[i]))
            && forall k | 0 <= k < |at| :: DnsRuleMeans(p, hybrid, rs[at[k]], out[k])
  {
    hide EmitDnsRule, CoreDnsRule, DnsRuleMeans, UniqueIds;
    if rs == [] {
      at := [];
    } else {
      var init, last := rs[..|rs| - 1], rs[|rs| - 1];
      var front := DnsRulesAre(p, hybrid, dropped, init);
      var takes := CoreDnsRule(p, hybrid, dropped, last);
      OneDnsRuleMeans(p, hybrid, dropped, last);
      MorePlaces(front, |init|, takes);
      SameInFront(rs, front);
      at := front + if takes then [|init|] else [];
      hide Places;
    }
  }

  /** How many VPN servers stand in front. */
  lemma {:induction false} NotVPNIs(ss: seq<DnsServerOut>) returns (i: nat)
    ensures i <= |ss| && (forall j | 0 <= j < i :: ss[j].vpn) && (i < |ss| ==> !ss[i].vpn)
    ensures FirstNotVPN(ss) == if i < |ss| then Some(ss[i].tag) else None
  {
    i := 0;
    if ss != [] && ss[0].vpn {
      var k := NotVPNIs(ss[1..]);
      i := k + 1;
      assert forall j | 0 < j < |ss| :: ss[j] == ss[1..][j - 1];
    }
  }

  /** The DNS block: the core's servers and rules in the profile's order; the rules' servers that were left out are
      those of the tags dropped; and the final server is the profile's while it is kept, else, when the first
      server is a VPN's, the first that is none. */
  lemma DnsBlockIs(p: Profile, opts: Options, d: DnsSettings) returns (ss: seq<nat>, rs: seq<nat>)
    requires UniqueIds(p)
    ensures var out := DnsOut(p, opts, d);
            var dropped := set s | s in d.servers && !CoreServer(opts, s) :: s.tag;
            && Places(ss, |d.servers|) && |ss| == |out.servers| && Places(rs, |d.rules|) && |rs| == |out.rules|
            && (forall i: nat | i < |d.servers| :: i in ss <==> CoreServer(opts, d.servers[i]))
            && (forall k | 0 <= k < |ss| :: ServerMeans(d.servers[ss[k]], out.servers[k]))
            && (forall i: nat | i < |d.rules| :: i in rs <==> CoreDnsRule(p, opts.hybrid, dropped, d.rules[i]))
            && (forall k | 0 <= k < |rs| :: DnsRuleMeans(p, opts.hybrid, d.rules[rs[k]], out.rules[k]))
            && FinalServer(d.final, dropped, out.servers, out.final)
  {
    hide EmitServers, EmitDnsRules, ServerMeans, CoreDnsRule, DnsRuleMeans, UniqueIds, FinalServer, DnsFinal;
    var dropped := set s | s in d.servers && !CoreServer(opts, s) :: s.tag;
    assert forall s :: DropsServer(opts, s) <==> !CoreServer(opts, s);
    assert DroppedTags(opts, d.servers) == dropped;
    hide CoreServer, DropsServer, DroppedTags, Places;
    ss := ServersAre(opts, d.servers);
    rs := DnsRulesAre(p, opts.hybrid, dropped, d.rules);
    FinalServerIs(d.final, dropped, EmitServers(opts, d.servers));
  }

  ghost predicate FinalServer(final: string, dropped: set<string>, servers: seq<DnsServerOut>, out: Option<string>) {
    if final != "" && final !in dropped then out == Some(final)
    else if servers == [] || !servers[0].vpn || forall s | s in servers :: s.vpn then out == None
    else exists i :: 0 <= i < |servers| && !servers[i].vpn && out == Some(servers[i].tag) &&
                     forall j | 0 <= j < i :: servers[j].vpn
  }

  lemma FinalServerIs(final: string, dropped: set<string>, servers: seq<DnsServerOut>)
    ensures FinalServer(final, dropped, servers, DnsFinal(final, dropped, servers))
  {
    var i := NotVPNIs(servers);
    assert i < |servers| ==> servers[i] in servers;
    hide FirstNotVPN;
  }

  /** The sets DNS adds are those its rules' geosites name and the route has not got yet, downloaded directly. */
  lemma DnsSetsAre(p: Profile, opts: Options, d: DnsSettings, seen: set<string>, s: RuleSet)
    requires UniqueIds(p)
    ensures var dropped := set x | x in d.servers && !CoreServer(opts, x) :: x.tag;
            s in DnsSets(p, opts, d, seen) <==>
            s == Remote(s.tag, "direct") && s.tag !in seen &&
            exists r | r in d.rules :: CoreDnsRule(p, opts.hybrid, dropped, r) &&
                                       exists v | v in r.geoSite :: !Blank(v) && s.tag == "geosite-" + Trim(v)
  {
    var dropped := set x | x in d.servers && !CoreServer(opts, x) :: x.tag;
    assert DroppedTags(opts, d.servers) == dropped by {
      assert forall x :: DropsServer(opts, x) <==> !CoreServer(opts, x);
    }
    hide DroppedTags, NewSets, DnsGeoTags, CoreDnsRule, CoreServer, Blank, Trim, UniqueIds, AllDnsGeoTags;
    forall r | r in d.rules
      ensures s.tag in DnsGeoTags(p, opts.hybrid, dropped, r) <==>
              CoreDnsRule(p, opts.hybrid, dropped, r) &&
              exists v | v in r.geoSite :: !Blank(v) && s.tag == "geosite-" + Trim(v)
    {
      DnsGeoTagIn(p, opts.hybrid, dropped, r, s.tag);
    }
  }

  lemma DnsGeoTagIn(p: Profile, hybrid: bool, dropped: set<string>, r: DnsRule, t: string)
    requires UniqueIds(p)
    ensures t in DnsGeoTags(p, hybrid, dropped, r) <==>
            CoreDnsRule(p, hybrid, dropped, r) && exists v | v in r.geoSite :: !Blank(v) && t == "geosite-" + Trim(v)
  {
    DnsRuleIsEmitted(p, hybrid, dropped, r);
    GeoTagIn("geosite-", r.geoSite, t);
    hide CoreDnsRule, DropsDnsRule, GeoTags, Blank, Trim, InlineDnsMatch, RuleListTags, UniqueIds;
  }
}
