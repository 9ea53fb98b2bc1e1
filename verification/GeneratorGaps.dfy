/** Concrete valid profiles whose generated config refers to something that is not in it: the conditions of
    the theorems in GeneratorRefs and GeneratorDns are needed. */
module GeneratorGaps {
  import opened Wrappers
  import opened Hybrid
  import opened Generator
  import opened GeneratorRefs
  import opened GeneratorDns

  const TUNNEL := Endpoint("awg", true, AmneziaWG, OtherProtocol)

  function Feed(downloadVia: string): RoutingList {
    RoutingList("feed", true, DIRECT, "https://example.org/a.srs", true, [], [], [], downloadVia, Unscoped, [])
  }

  function FeedProfile(downloadVia: string): Profile { Profile([TUNNEL], [], [], [Feed(downloadVia)], None) }

  const OUTSIDE := Group("outside", ["in"])
  const IN := Group("in", ["awg"])
  const NESTED := Profile([TUNNEL], [OUTSIDE, IN], [], [], None)

  const RESOLVER := DnsServer("d", true, Network, "Block", "", "")
  const RESOLVING := Profile([], [], [], [], Some(DnsSettings(true, [RESOLVER], [], "")))

  lemma NothingReached(p: Profile, tag: string)
    requires Roots(p) == {}
    ensures tag !in Reach(p)
  {
  }

  lemma Spellings()
    ensures Lower(DIRECT) == DIRECT && Lower(BLOCK) == BLOCK && Lower("Block") == BLOCK
    ensures Trim("Block") == "Block" && Trim("d") == "d" && Trim("") == ""
    ensures !IsPolicy(DIRECT) && !IsPolicy(BLOCK)
  {
  }

  lemma FeedIsValid(downloadVia: string)
    requires downloadVia == "" || downloadVia == BLOCK
    ensures Valid(FeedProfile(downloadVia)) && Usable(FeedProfile(downloadVia), "awg")
  {
  }

  lemma FeedDownloads(downloadVia: string, hybrid: bool)
    ensures Downloads(FeedProfile(downloadVia), hybrid, Feed(downloadVia))
  {
  }

  lemma TunnelIsGone()
    ensures !Kept(FeedProfile(""), true, Canonical("awg"))
  {
  }

  /** The profile-wide download outbound seeds no reachability. */
  lemma DownloadDefaultIsNotSeeded()
    ensures exists p: Profile, opts: Options ::
              Valid(p) && opts.hybrid && Usable(p, opts.ruleSetDetour) && !DownloadsResolve(Generated(p, opts))
  {
    hide Valid, Usable, Kept, DownloadsResolve, Generated, Downloads, Canonical, FeedProfile;
    var p, opts := FeedProfile(""), Options(true, false, "awg", true, map[]);
    FeedIsValid("");
    FeedDownloads("", true);
    TunnelIsGone();
    assert !DownloadKept(p, opts, Feed(""));
    DownloadsResolveWhenKept(p, opts);
  }

  /** Validate lets a list download through "block", which is emitted as if it were an outbound. */
  lemma DownloadThroughBlock()
    ensures exists p: Profile, opts: Options ::
              Valid(p) && !opts.hybrid && opts.ruleSetDetour == "" && !DownloadsResolve(Generated(p, opts))
  {
    hide Valid, Kept, DownloadsResolve, Generated, Downloads, FeedProfile;
    var p, opts := FeedProfile(BLOCK), Options(false, false, "", true, map[]);
    FeedIsValid(BLOCK);
    FeedDownloads(BLOCK, false);
    Spellings();
    assert !DownloadKept(p, opts, Feed(BLOCK));
    DownloadsResolveWhenKept(p, opts);
  }

  lemma NestedIsValid()
    ensures Valid(NESTED)
  {
  }

  lemma InBearsTheTunnel()
    ensures KernelEgress(NESTED, "in") && !KernelEgress(NESTED, "outside")
  {
    NoEndpoint(NESTED.endpoints, "in");
    NoEndpoint(NESTED.endpoints, "outside");
    FoundGroup(NESTED.groups, OUTSIDE);
    FoundGroup(NESTED.groups, IN);
    assert KernelMember(NESTED, "awg");
    assert "awg" in IN.members;
  }

  lemma NestedIsGone()
    ensures NestsGoneGroup(NESTED, OUTSIDE, IN)
  {
    hide Reach, KernelEgress;
    InBearsTheTunnel();
    NothingReached(NESTED, "outside");
    NothingReached(NESTED, "in");
    assert IN in NESTED.groups && OUTSIDE in NESTED.groups && IN.id in OUTSIDE.members;
  }

  /** An unreferenced group is kept although the kernel-bearing group it nests is not. */
  lemma NestedGroupIsLost()
    ensures exists p: Profile, opts: Options ::
              Valid(p) && opts.ruleSetDetour == "" && !MembersResolve(Generated(p, opts))
  {
    hide Valid, MembersResolve, Generated, NestsGoneGroup;
    NestedIsValid();
    NestedIsGone();
    MembersResolveUnlessNested(NESTED, Options(true, false, "", true, map[]));
  }

  lemma ResolverIsValid()
    ensures Valid(RESOLVING)
  {
  }

  /** A DNS detour spelt "Block" passes the check for "block" and is emitted in lower case. */
  lemma DetourSpeltBlock()
    ensures exists p: Profile, opts: Options ::
              Valid(p) && !opts.hybrid && !DnsDetoursResolve(Generated(p, opts))
  {
    hide Valid, DnsDetoursResolve, Generated, Kept;
    var opts := Options(false, false, "", true, map[]);
    ResolverIsValid();
    Spellings();
    assert RESOLVER in RESOLVING.dns.value.servers;
    assert Asks(RESOLVING, opts, RESOLVER) && !DnsDetourKept(RESOLVING, opts, RESOLVER);
    DnsDetoursResolveWhenKept(RESOLVING, opts);
  }

  // A list sent to the tunnel whose address feed brought a name and nothing else is left.
  const NAMED := RoutingList("feed", true, "awg", "", false, [], [Name("x.org")], [], "", Unscoped, [])
  const ASKING := DnsRule(false, REJECT, ["feed"], [], [], [], [])
  const ASKED := Profile([TUNNEL], [], [], [NAMED], Some(DnsSettings(true, [], [ASKING], "")))

  lemma AskedIsValid()
    ensures Valid(ASKED)
  {
  }

  lemma NamedByItsFeed()
    ensures FeedOnlyNames(ASKED, true, NAMED)
  {
  }

  /** A DNS rule then names a set the list does not emit. */
  lemma DnsRuleNamesNoSet()
    ensures exists p: Profile, opts: Options :: Valid(p) && !DnsSetsResolve(Generated(p, opts))
  {
    hide Valid, DnsSetsResolve, Generated, FeedOnlyNames;
    var opts := Options(true, false, "", true, map[]);
    AskedIsValid();
    NamedByItsFeed();
    assert ASKING in ASKED.dns.value.rules && NAMED in ASKED.lists && NAMED.id in ASKING.ruleSets;
    assert NamesList(ASKED, opts, ASKING, NAMED);
    DnsRulesNameEmittedSets(ASKED, opts);
  }

  // Names that only the check trims, or only the emission.
  const SPACED := Endpoint(" x", true, SingBox, OtherProtocol)
  const DETOURING := DnsServer("d", true, Network, " x", "", "")
  const DETOURED := Profile([SPACED], [], [], [], Some(DnsSettings(true, [DETOURING], [], "")))

  const BASE := DnsServer("b", true, Network, "", "", "")
  const BOOTED := DnsServer("d", true, Network, "", "", " b")
  const BOOTSTRAPPED := Profile([], [], [], [], Some(DnsSettings(true, [BASE, BOOTED], [], "")))

  lemma Spaced()
    ensures Trim(" x") == "x" && Trim("d") == "d" && Trim("b") == "b" && Trim(" b") == "b" && Trim("") == ""
    ensures |Lower(" x")| == 2 && |Lower("x")| == 1
  {
    assert " x"[1..] == "x" && " b"[1..] == "b";
  }

  lemma DetouredIsValid()
    ensures Valid(DETOURED)
  {
    Spaced();
    var d := DETOURED.dns.value;
    assert SPACED in DETOURED.endpoints && SPACED.enabled;
    assert Usable(DETOURED, " x");
    assert UniqueIds(DETOURED);
    assert ValidServer(DETOURED, d, DETOURING);
    assert ValidDns(DETOURED, d);
  }

  /** A detour to an endpoint whose id begins with a space is emitted without it, and names nothing. */
  lemma DetourLosesItsSpace()
    ensures exists p: Profile, opts: Options ::
              Valid(p) && !opts.hybrid && !DnsDetoursResolve(Generated(p, opts))
  {
    hide Valid, DnsDetoursResolve, Generated;
    var opts := Options(false, false, "", true, map[]);
    DetouredIsValid();
    Spaced();
    assert DETOURING in DETOURED.dns.value.servers;
    assert Asks(DETOURED, opts, DETOURING) && !DnsDetourKept(DETOURED, opts, DETOURING);
    DnsDetoursResolveWhenKept(DETOURED, opts);
  }

  lemma BootstrappedIsValid()
    ensures Valid(BOOTSTRAPPED)
  {
    Spaced();
    var d := BOOTSTRAPPED.dns.value;
    assert BASE in d.servers && BOOTED in d.servers;
    assert ValidServer(BOOTSTRAPPED, d, BASE) && ValidServer(BOOTSTRAPPED, d, BOOTED);
    assert ValidDns(BOOTSTRAPPED, d);
  }

  /** A bootstrap resolver written " b" passes as "b" and is emitted with the space. */
  lemma BootstrapKeepsItsSpace()
    ensures exists p: Profile, opts: Options ::
              Valid(p) && HasDns(p) && !BootstrapsResolve(DnsOut(p, opts, p.dns.value))
  {
    hide Valid, BootstrapsResolve, DnsOut;
    var opts := Options(false, false, "", true, map[]);
    BootstrappedIsValid();
    Spaced();
    var d := BOOTSTRAPPED.dns.value;
    assert BOOTED in d.servers && Bootstraps(opts, d, BOOTED);
    BootstrapGuard(BOOTSTRAPPED, opts);
    assert forall s | s in d.servers :: Trim(s.tag) == s.tag;
  }
}
