/** The conntrack flush of internal/ctflush/ctflush.go: which entries a routing change left pinned to the
    wrong exit. A prefix is the range of addresses it holds; what the plan cannot see of a zone (names
    dnsmasq adds, sources known by MAC, interface or port) is a possible world. */
module Ctflush {
  import opened Wrappers

  datatype Addr = Addr(v6: bool, value: nat)

  datatype Prefix = Prefix(v6: bool, lo: nat, hi: nat)

  datatype Tri = No | Yes | Unknown

  datatype Entry = Entry(src: Option<Addr>, dst: Addr, mark: bv32)

  datatype Egress = Egress(mark: bv32, tag: string, wan: bool)

  /** A zone of the plan: its static members and its source predicates, by what conntrack shows. */
  datatype Zone = Zone(mark: bv32, v4: seq<Prefix>, v6: seq<Prefix>, domains: bool, srcScoped: bool,
                       srcV4: seq<Prefix>, srcV6: seq<Prefix>, srcOther: bool, srcNegate: bool)

  datatype Plan = Plan(mask: bv32, egresses: seq<Egress>, policySlots: seq<(string, bv32)>,
                       zones: seq<Zone>, bypass: seq<Prefix>)

  datatype ZoneView = ZoneView(mark: bv32, v4: seq<Prefix>, v6: seq<Prefix>, domains: bool, sourceOnly: bool,
                               scoped: bool, srcHidden: bool, src4: seq<Prefix>, src6: seq<Prefix>, negate: bool)

  datatype View = View(tags: map<bv32, string>, wan: set<bv32>, zones: seq<ZoneView>, bypass: seq<Prefix>)

  // ---- Prefix sets --------------------------------------------------------------------------------

  predicate Less(a: Addr, b: Addr) {
    if a.v6 != b.v6 then !a.v6 else a.value < b.value
  }

  function Start(p: Prefix): Addr {
    Addr(p.v6, p.lo)
  }

  predicate Holds(p: Prefix, a: Addr) {
    p.v6 == a.v6 && p.lo <= a.value <= p.hi
  }

  predicate ContainsAny(ps: seq<Prefix>, a: Addr) {
    exists p | p in ps :: Holds(p, a)
  }

  /** One zone's members: one family, sorted by start, none overlapping. */
  ghost predicate Collapsed(ps: seq<Prefix>) {
    && (forall i, j | 0 <= i < j < |ps| :: ps[i].v6 == ps[j].v6)
    && (forall i, j | 0 <= i < j < |ps| :: ps[i].hi < ps[j].lo)
    && (forall i | 0 <= i < |ps| :: ps[i].lo <= ps[i].hi)
  }

  /** containsAny. */
  method ContainsLinear(ps: seq<Prefix>, a: Addr) returns (found: bool)
    ensures found == ContainsAny(ps, a)
  {
    for i := 0 to |ps|
      invariant forall j | 0 <= j < i :: !Holds(ps[j], a)
    {
      if Holds(ps[i], a) {
        return true;
      }
    }
    return false;
  }

  ghost predicate Sorted(ps: seq<Prefix>) {
    forall i, j | 0 <= i < j < |ps| :: !Less(Start(ps[j]), Start(ps[i]))
  }

  /** How many prefixes in front start at or before a. */
  function UpTo(ps: seq<Prefix>, a: Addr): (k: nat)
    ensures k <= |ps|
  {
    if ps == [] || Less(a, Start(ps[0])) then 0 else 1 + UpTo(ps[1..], a)
  }

  /** The last prefix starting at or before a, alone, is asked. */
  function Contains(ps: seq<Prefix>, a: Addr): bool {
    var k := UpTo(ps, a);
    k >= 1 && Holds(ps[k - 1], a)
  }

  lemma {:induction false} UpToAt(ps: seq<Prefix>, a: Addr, k: nat)
    requires k <= |ps| && forall m | 0 <= m < k :: !Less(a, Start(ps[m]))
    requires k < |ps| ==> Less(a, Start(ps[k]))
    ensures UpTo(ps, a) == k
  {
    if k > 0 {
      assert !Less(a, Start(ps[0]));
      assert forall m | 0 <= m < k - 1 :: ps[1..][m] == ps[m + 1];
      UpToAt(ps[1..], a, k - 1);
    }
  }

  /** contains, by binary search. */
  method ContainsSorted(ps: seq<Prefix>, a: Addr) returns (found: bool)
    requires Sorted(ps)
    ensures found == Contains(ps, a)
  {
    var i, j := 0, |ps|;
    while i < j
      invariant 0 <= i <= j <= |ps|
      invariant forall m | 0 <= m < i :: !Less(a, Start(ps[m]))
      invariant forall m | j <= m < |ps| :: Less(a, Start(ps[m]))
    {
      var h := (i + j) / 2;
      if !Less(a, Start(ps[h])) {
        i := h + 1;
      } else {
        j := h;
      }
    }
    UpToAt(ps, a, i);
    found := i >= 1 && Holds(ps[i - 1], a);
  }

  lemma {:induction false} UpToSplits(ps: seq<Prefix>, a: Addr, m: nat)
    requires m < |ps|
    ensures UpTo(ps, a) > m ==> !Less(a, Start(ps[m]))
    ensures UpTo(ps, a) <= m && Sorted(ps) ==> Less(a, Start(ps[m]))
  {
    if m > 0 && !Less(a, Start(ps[0])) {
      assert Sorted(ps) ==> Sorted(ps[1..]);
      UpToSplits(ps[1..], a, m - 1);
    }
  }

  /** On sorted prefixes of one family that do not overlap, asking the last candidate is membership. */
  lemma ContainsIsMembership(ps: seq<Prefix>, a: Addr)
    requires Collapsed(ps)
    ensures Contains(ps, a) == ContainsAny(ps, a)
  {
    var k := UpTo(ps, a);
    if p :| p in ps && Holds(p, a) {
      var m :| 0 <= m < |ps| && ps[m] == p;
      UpToSplits(ps, a, m);
      if k > m + 1 { UpToSplits(ps, a, k - 1); }
    }
  }

  // ---- Sorting a zone's prefixes ------------------------------------------------------------------

  function Placed(p: Prefix, ps: seq<Prefix>): (r: seq<Prefix>)
    ensures |r| == |ps| + 1 && forall x :: x in r <==> x == p || x in ps
  {
    if ps == [] || Less(Start(p), Start(ps[0])) then [p] + ps
    else
      assert forall x :: x in ps <==> x == ps[0] || x in ps[1..] by { assert ps == [ps[0]] + ps[1..]; }
      [ps[0]] + Placed(p, ps[1..])
  }

  /** The end of parsePrefixes. */
  function ByStart(ps: seq<Prefix>): (r: seq<Prefix>)
    ensures |r| == |ps| && forall x :: x in r <==> x in ps
  {
    if ps == [] then []
    else
      assert forall x :: x in ps <==> x == ps[|ps| - 1] || x in ps[..|ps| - 1] by {
        assert ps == ps[..|ps| - 1] + [ps[|ps| - 1]];
      }
      Placed(ps[|ps| - 1], ByStart(ps[..|ps| - 1]))
  }

  predicate Clear(p: Prefix, q: Prefix) { p.v6 == q.v6 && (p.hi < q.lo || q.hi < p.lo) }

  /** Prefixes of one family that do not overlap, in any order. */
  ghost predicate Disjoint(ps: seq<Prefix>) {
    (forall i | 0 <= i < |ps| :: ps[i].lo <= ps[i].hi) && forall i, j | 0 <= i < j < |ps| :: Clear(ps[i], ps[j])
  }

  lemma {:induction false} PlacedKeepsCollapsed(p: Prefix, ps: seq<Prefix>)
    requires Collapsed(ps) && p.lo <= p.hi && forall q | q in ps :: Clear(p, q)
    ensures Collapsed(Placed(p, ps))
  {
    if ps != [] && !Less(Start(p), Start(ps[0])) {
      assert Clear(p, ps[0]);
      var rest := ps[1..];
      PlacedKeepsCollapsed(p, rest);
      var r := Placed(p, rest);
      forall i | 0 <= i < |r| ensures ps[0].hi < r[i].lo && ps[0].v6 == r[i].v6 {
        assert r[i] in r;
        if r[i] != p {
          var m :| 0 <= m < |rest| && rest[m] == r[i];
          assert ps[m + 1] == r[i];
        }
      }
      CollapsedCons(ps[0], r);
    } else if ps != [] {
      assert Clear(p, ps[0]);
      CollapsedCons(p, ps);
    }
  }

  lemma CollapsedCons(p: Prefix, ps: seq<Prefix>)
    requires Collapsed(ps) && ps != [] && p.lo <= p.hi
    requires p.v6 == ps[0].v6 && p.hi < ps[0].lo
    ensures Collapsed([p] + ps)
  {
    var r := [p] + ps;
    forall i, j | 0 <= i < j < |r| ensures r[i].v6 == r[j].v6 && r[i].hi < r[j].lo {
      if i == 0 && j > 1 { assert ps[0].hi < ps[j - 1].lo && ps[0].v6 == ps[j - 1].v6; }
    }
  }

  lemma {:induction false} ByStartCollapses(ps: seq<Prefix>)
    requires Disjoint(ps)
    ensures Collapsed(ByStart(ps))
  {
    if ps != [] {
      var init, last := ps[..|ps| - 1], ps[|ps| - 1];
      ByStartCollapses(init);
      forall q | q in ByStart(init) ensures Clear(last, q) {
        var i :| 0 <= i < |init| && init[i] == q;
        assert Clear(ps[i], last);
      }
      PlacedKeepsCollapsed(last, ByStart(init));
    }
  }

  // ---- newView ------------------------------------------------------------------------------------

  function Masked(mark: bv32, mask: bv32): bv32 {
    mark & mask
  }

  function ViewOf(z: Zone, mask: bv32): ZoneView {
    var other := z.srcOther;
    var scoped := z.srcScoped || |z.srcV4| + |z.srcV6| > 0 || other;
    var sourceOnly := scoped && |z.v4| + |z.v6| == 0 && !z.domains;
    ZoneView(Masked(z.mark, mask), ByStart(z.v4), ByStart(z.v6), z.domains, sourceOnly, scoped, other,
             z.srcV4, z.srcV6, z.srcNegate)
  }

  predicate MatchesNothing(v: ZoneView) {
    |v.v4| + |v.v6| == 0 && !v.domains && !v.sourceOnly
  }

  function ZoneViews(zones: seq<Zone>, mask: bv32): seq<ZoneView> {
    if zones == [] then []
    else
      var v := ViewOf(zones[|zones| - 1], mask);
      ZoneViews(zones[..|zones| - 1], mask) + if MatchesNothing(v) then [] else [v]
  }

  function EgressTags(es: seq<Egress>, mask: bv32): map<bv32, string> {
    if es == [] then map[]
    else
      var before, e := EgressTags(es[..|es| - 1], mask), es[|es| - 1];
      if Masked(e.mark, mask) == 0 then before else before[Masked(e.mark, mask) := e.tag]
  }

  function PolicyTags(tags: map<bv32, string>, slots: seq<(string, bv32)>, mask: bv32): map<bv32, string> {
    if slots == [] then tags
    else
      var before, s := PolicyTags(tags, slots[..|slots| - 1], mask), slots[|slots| - 1];
      if Masked(s.1, mask) == 0 then before else before[Masked(s.1, mask) := "ndm-policy:" + s.0]
  }

  function WanMarks(es: seq<Egress>, mask: bv32): set<bv32> {
    if es == [] then {}
    else
      var before, e := WanMarks(es[..|es| - 1], mask), es[|es| - 1];
      if Masked(e.mark, mask) != 0 && e.wan then before + {Masked(e.mark, mask)} else before
  }

  function NewView(p: Option<Plan>, mask: bv32): View {
    if p.None? then View(map[], {}, [], [])
    else View(PolicyTags(EgressTags(p.value.egresses, mask), p.value.policySlots, mask),
              WanMarks(p.value.egresses, mask), ZoneViews(p.value.zones, mask), p.value.bypass)
  }

  method BuildTags(p: Plan, mask: bv32) returns (tags: map<bv32, string>, wan: set<bv32>)
    ensures tags == PolicyTags(EgressTags(p.egresses, mask), p.policySlots, mask) && wan == WanMarks(p.egresses, mask)
  {
    hide Masked;
    tags, wan := map[], {};
    var es, slots := p.egresses, p.policySlots;
    for i := 0 to |es|
      invariant tags == EgressTags(es[..i], mask) && wan == WanMarks(es[..i], mask)
    {
      assert es[..i + 1][..i] == es[..i];
      var m := Masked(es[i].mark, mask);
      if m == 0 {
        continue;
      }
      tags := tags[m := es[i].tag];
      if es[i].wan {
        wan := wan + {m};
      }
    }
    assert es[..|es|] == es && slots[..0] == [];
    ghost var own := tags;
    for i := 0 to |slots|
      invariant tags == PolicyTags(own, slots[..i], mask)
    {
      assert slots[..i + 1][..i] == slots[..i];
      if Masked(slots[i].1, mask) != 0 {
        tags := tags[Masked(slots[i].1, mask) := "ndm-policy:" + slots[i].0];
      }
    }
    assert slots[..|slots|] == slots;
  }

  method BuildZones(zs: seq<Zone>, mask: bv32) returns (zones: seq<ZoneView>)
    ensures zones == ZoneViews(zs, mask)
  {
    hide ViewOf;
    zones := [];
    for i := 0 to |zs|
      invariant zones == ZoneViews(zs[..i], mask)
    {
      assert zs[..i + 1][..i] == zs[..i];
      var zv := ViewOf(zs[i], mask);
      if MatchesNothing(zv) {
        continue;
      }
      zones := zones + [zv];
    }
    assert zs[..|zs|] == zs;
  }

  /** newView. */
  method BuildView(p: Option<Plan>, mask: bv32) returns (v: View)
    ensures v == NewView(p, mask)
  {
    if p.None? {
      return View(map[], {}, [], []);
    }
    var tags, wan := BuildTags(p.value, mask);
    var zones := BuildZones(p.value.zones, mask);
    v := View(tags, wan, zones, p.value.bypass);
  }

  predicate Owns(v: View, m: bv32) {
    m in v.tags
  }

  // ---- The decision -------------------------------------------------------------------------------

  function DstMatch(z: ZoneView, e: Entry): Tri {
    if z.sourceOnly then Yes
    else if Contains(if e.dst.v6 then z.v6 else z.v4, e.dst) then Yes
    else if z.domains then Unknown
    else No
  }

  function SrcMatch(z: ZoneView, e: Entry): Tri {
    if !z.scoped then Yes
    else if z.srcHidden || e.src.None? || |z.src4| + |z.src6| == 0 then Unknown
    else if ContainsAny(if e.dst.v6 then z.src6 else z.src4, e.src.value) == z.negate then No
    else Yes
  }

  function Match(z: ZoneView, e: Entry): Tri {
    if DstMatch(z, e) == No || SrcMatch(z, e) == No then No
    else if DstMatch(z, e) == Yes && SrcMatch(z, e) == Yes then Yes
    else Unknown
  }

  datatype Verdict = Verdict(mark: bv32, matched: bool, known: bool)

  /** The last zone that matches, looking back from zone n. */
  function EvalFrom(zones: seq<ZoneView>, e: Entry, n: nat): Verdict
    requires n <= |zones|
  {
    if n == 0 then Verdict(0, false, true)
    else match Match(zones[n - 1], e)
      case Yes => Verdict(zones[n - 1].mark, true, true)
      case Unknown => Verdict(0, false, false)
      case No => EvalFrom(zones, e, n - 1)
  }

  function Eval(v: View, e: Entry): Verdict {
    EvalFrom(v.zones, e, |v.zones|)
  }

  method EvalLoop(v: View, e: Entry) returns (r: Verdict)
    ensures r == Eval(v, e)
  {
    var i := |v.zones|;
    while i > 0
      invariant 0 <= i <= |v.zones| && Eval(v, e) == EvalFrom(v.zones, e, i)
    {
      i := i - 1;
      match Match(v.zones[i], e) {
        case Yes => return Verdict(v.zones[i].mark, true, true);
        case Unknown => return Verdict(0, false, false);
        case No =>
      }
    }
    return Verdict(0, false, true);
  }

  function Route(v: View, m: bv32): bv32 {
    if m in v.wan then 0 else m
  }

  datatype Plane = Nft | Ipset

  datatype Options = Options(plane: Plane, hybrid: bool, local: set<Addr>)

  datatype Decider = Decider(mask: bv32, old_: View, cur: View, removed: bool, opt: Options)

  function NewDecider(old_: Option<Plan>, cur: Option<Plan>, opt: Options): Decider {
    var mask := if cur.Some? && cur.value.mask != 0 then cur.value.mask
                else if old_.Some? && old_.value.mask != 0 then old_.value.mask
                else 0x00ff0000;
    Decider(mask, NewView(old_, mask), NewView(cur, mask), cur.None?, opt)
  }

  const PRIVATE_DST := [Prefix(false, 0x0a000000, 0x0affffff), Prefix(false, 0xac100000, 0xac1fffff),
                        Prefix(false, 0xc0a80000, 0xc0a8ffff),
                        Prefix(true, 0xfc000000000000000000000000000000, 0xfdffffffffffffffffffffffffffffff),
                        Prefix(true, 0xfe800000000000000000000000000000, 0xfebfffffffffffffffffffffffffffff)]

  const LOOPBACK := [Prefix(false, 0x7f000000, 0x7fffffff), Prefix(true, 1, 1)]

  /** Flows the flush never touches: loopback, private and bypassed destinations, and the router's own. */
  predicate Excluded(d: Decider, e: Entry) {
    ContainsAny(LOOPBACK, e.dst) || ContainsAny(PRIVATE_DST, e.dst) || ContainsAny(d.cur.bypass, e.dst) ||
    e.dst in d.opt.local || (e.src.Some? && e.src.value in d.opt.local)
  }

  predicate Stale(d: Decider, e: Entry) {
    if Excluded(d, e) then false
    else
      var m := Masked(e.mark, d.mask);
      if d.removed then m != 0 && Owns(d.old_, m) && m !in d.old_.wan
      else
        var r := Eval(d.cur, e);
        if !r.known then false
        else if d.opt.plane == Ipset then !r.matched && Owns(d.cur, m) && Route(d.cur, m) != 0
        else if m != 0 && Owns(d.cur, m) then Route(d.cur, r.mark) != Route(d.cur, m)
        else m == 0 && d.opt.hybrid && Route(d.cur, r.mark) != 0
  }

  // ---- What the kernel does -----------------------------------------------------------------------

  /** For each zone, whether dnsmasq added the destination and whether the hidden source test passes. */
  datatype World = World(named: nat -> bool, fromSource: nat -> bool)

  predicate TrueDst(z: ZoneView, e: Entry, named: bool) {
    z.sourceOnly || ContainsAny(if e.dst.v6 then z.v6 else z.v4, e.dst) || (z.domains && named)
  }

  predicate TrueSrc(z: ZoneView, e: Entry, hidden: bool) {
    if !z.scoped then true
    else if z.srcHidden || e.src.None? || |z.src4| + |z.src6| == 0 then hidden
    else ContainsAny(if e.dst.v6 then z.src6 else z.src4, e.src.value) != z.negate
  }

  predicate Marks(z: ZoneView, e: Entry, named: bool, hidden: bool) {
    TrueDst(z, e, named) && TrueSrc(z, e, hidden)
  }

  /** The number of the last zone that marks the flow in this world, or none. */
  function LastZone(zones: seq<ZoneView>, e: Entry, w: World, n: nat): Option<nat>
    requires n <= |zones|
  {
    if n == 0 then None
    else if Marks(zones[n - 1], e, w.named(n - 1), w.fromSource(n - 1)) then Some(n - 1)
    else LastZone(zones, e, w, n - 1)
  }

  /** The mark the plan's zones give a new flow. */
  function NewMark(v: View, e: Entry, w: World): bv32 {
    var z := LastZone(v.zones, e, w, |v.zones|);
    if z.Some? && z.value < |v.zones| then v.zones[z.value].mark else 0
  }

  /** An exit: the main table (the WAN), the TUN of hybrid mode, or the table of an egress mark. */
  datatype Exit = Main | Tun | Via(mark: bv32)

  /** Where a packet carrying a mark goes: a mark the plan lacks, or a WAN mark, routes like none; with a
      TUN beside the plane, no mark at all means the TUN. */
  function ExitOf(v: View, m: bv32, hybrid: bool): Exit {
    if m == 0 then (if hybrid then Tun else Main)
    else if !Owns(v, m) || m in v.wan then Main
    else Via(m)
  }

  /** Where the flow's next packet goes. nft: an owned saved mark is restored and ends the chain; a hybrid
      flow without a mark is taken to be held by the TUN's redirect; any other flow is marked by the zones.
      ipset: the mark is restored, and a zone that matches still re-marks. */
  function NextExit(d: Decider, e: Entry, w: World): Exit {
    var m, v := Masked(e.mark, d.mask), d.cur;
    match d.opt.plane
    case Nft =>
      if m != 0 && Owns(v, m) then ExitOf(v, m, d.opt.hybrid)
      else if m == 0 && d.opt.hybrid then Tun
      else ExitOf(v, NewMark(v, e, w), d.opt.hybrid)
    case Ipset =>
      if LastZone(v.zones, e, w, |v.zones|).Some? then ExitOf(v, NewMark(v, e, w), false)
      else ExitOf(v, m, false)
  }

  function NewExit(d: Decider, e: Entry, w: World): Exit {
    ExitOf(d.cur, NewMark(d.cur, e, w), d.opt.hybrid && d.opt.plane == Nft)
  }

  /** The zone's prefixes are as parsePrefixes leaves disjoint ones. */
  ghost predicate Searchable(z: ZoneView) { Collapsed(z.v4) && Collapsed(z.v6) }

  ghost predicate AllSearchable(zones: seq<ZoneView>) { forall z | z in zones :: Searchable(z) }

  /** Match is exact: yes in every world, no in none, and otherwise the worlds disagree. */
  lemma MatchIsExact(z: ZoneView, e: Entry)
    requires Searchable(z)
    ensures Match(z, e) == Yes <==> forall a, b :: Marks(z, e, a, b)
    ensures Match(z, e) == No <==> forall a, b :: !Marks(z, e, a, b)
  {
    ContainsIsMembership(if e.dst.v6 then z.v6 else z.v4, e.dst);
    assert Marks(z, e, true, true) || !Marks(z, e, true, true);
    assert Marks(z, e, false, true) || !Marks(z, e, false, true);
    assert Marks(z, e, true, false) || !Marks(z, e, true, false);
  }

  /** A known verdict is the last match of every world; an unknown one is a zone the worlds disagree on. */
  lemma {:induction false} EvalIsEveryWorlds(zones: seq<ZoneView>, e: Entry, n: nat, w: World)
    requires n <= |zones| && EvalFrom(zones, e, n).known && AllSearchable(zones)
    ensures var r, z := EvalFrom(zones, e, n), LastZone(zones, e, w, n);
            && r.matched == z.Some?
            && (z.Some? ==> z.value < |zones| && r.mark == zones[z.value].mark)
            && (z.None? ==> r.mark == 0)
  {
    if n > 0 {
      MatchIsExact(zones[n - 1], e);
      if Match(zones[n - 1], e) == No {
        EvalIsEveryWorlds(zones, e, n - 1, w);
      }
    }
  }

  lemma {:induction false} UnknownDiffers(zones: seq<ZoneView>, e: Entry, n: nat) returns (w1: World, w2: World)
    requires n <= |zones| && !EvalFrom(zones, e, n).known && AllSearchable(zones)
    ensures LastZone(zones, e, w1, n) != LastZone(zones, e, w2, n)
  {
    MatchIsExact(zones[n - 1], e);
    if Match(zones[n - 1], e) == No {
      w1, w2 := UnknownDiffers(zones, e, n - 1);
    } else {
      var a1, b1 :| Marks(zones[n - 1], e, a1, b1);
      var a2, b2 :| !Marks(zones[n - 1], e, a2, b2);
      w1 := World((i: nat) => a1, (i: nat) => b1);
      w2 := World((i: nat) => a2, (i: nat) => b2);
      LastZoneBelow(zones, e, w2, n - 1);
    }
  }

  lemma {:induction false} LastZoneBelow(zones: seq<ZoneView>, e: Entry, w: World, n: nat)
    requires n <= |zones|
    ensures LastZone(zones, e, w, n).Some? ==> LastZone(zones, e, w, n).value < n
  {
    if n > 0 {
      LastZoneBelow(zones, e, w, n - 1);
    }
  }

  /** eval says known exactly when every way the hidden matches may turn out has the same last match. */
  lemma KnownMeansWorldsAgree(v: View, e: Entry)
    requires AllSearchable(v.zones)
    ensures Eval(v, e).known <==>
            forall w1, w2 :: LastZone(v.zones, e, w1, |v.zones|) == LastZone(v.zones, e, w2, |v.zones|)
  {
    if Eval(v, e).known {
      forall w1, w2
        ensures LastZone(v.zones, e, w1, |v.zones|) == LastZone(v.zones, e, w2, |v.zones|)
      {
        KnownZone(v.zones, e, |v.zones|, w1, w2);
      }
    } else {
      var w1, w2 := UnknownDiffers(v.zones, e, |v.zones|);
    }
  }

  lemma {:induction false} KnownZone(zones: seq<ZoneView>, e: Entry, n: nat, w1: World, w2: World)
    requires n <= |zones| && EvalFrom(zones, e, n).known && AllSearchable(zones)
    ensures LastZone(zones, e, w1, n) == LastZone(zones, e, w2, n)
  {
    if n > 0 {
      MatchIsExact(zones[n - 1], e);
      if Match(zones[n - 1], e) == No {
        KnownZone(zones, e, n - 1, w1, w2);
      }
    }
  }

  /** Each zone's mark is an egress of the plan, or none. */
  ghost predicate ZonesUseEgresses(v: View) {
    forall i | 0 <= i < |v.zones| :: v.zones[i].mark == 0 || Owns(v, v.zones[i].mark)
  }

  lemma KnownMark(v: View, e: Entry, w: World)
    requires ZonesUseEgresses(v) && AllSearchable(v.zones) && Eval(v, e).known
    ensures var r := Eval(v, e);
            r.mark == NewMark(v, e, w) && r.matched == LastZone(v.zones, e, w, |v.zones|).Some? &&
            (r.mark == 0 || Owns(v, r.mark)) && (!r.matched ==> r.mark == 0)
  {
    hide EvalFrom, LastZone, Owns;
    EvalIsEveryWorlds(v.zones, e, |v.zones|, w);
  }

  /** With a live plan a flow is flushed only when, in every world, its next packet would leave by another
      exit than a new flow's first; and outside hybrid mode every such flow that is known and not excluded
      is flushed. */
  lemma StaleIsSound(d: Decider, e: Entry, w: World)
    requires !d.removed && ZonesUseEgresses(d.cur) && AllSearchable(d.cur.zones)
    ensures Stale(d, e) ==> NextExit(d, e, w) != NewExit(d, e, w)
    ensures !d.opt.hybrid && Eval(d.cur, e).known && !Excluded(d, e) ==>
              (Stale(d, e) <==> NextExit(d, e, w) != NewExit(d, e, w))
  {
    hide Excluded, Masked, Eval, LastZone, NewMark, Owns, ZonesUseEgresses;
    if Eval(d.cur, e).known { KnownMark(d.cur, e, w); }
  }

  // ---- From the plans -----------------------------------------------------------------------------

  /** Each zone's members are disjoint prefixes of one family, and its mark is an egress's, a policy slot's
      or none. */
  ghost predicate WellFormed(p: Plan, mask: bv32) {
    forall z | z in p.zones ::
      var m := Masked(z.mark, mask);
      Disjoint(z.v4) && Disjoint(z.v6) && (m == 0 || MarksAnEgress(p, mask, m) || MarksASlot(p, mask, m))
  }

  predicate MarksAnEgress(p: Plan, mask: bv32, m: bv32) { exists e | e in p.egresses :: Masked(e.mark, mask) == m }

  predicate MarksASlot(p: Plan, mask: bv32, m: bv32) { exists s | s in p.policySlots :: Masked(s.1, mask) == m }

  lemma {:induction false} EgressIsOwned(es: seq<Egress>, mask: bv32, e: Egress)
    requires e in es && Masked(e.mark, mask) != 0
    ensures Masked(e.mark, mask) in EgressTags(es, mask)
  {
    hide Masked;
    if e != es[|es| - 1] { EgressIsOwned(es[..|es| - 1], mask, e); }
  }

  lemma {:induction false} SlotIsOwned(tags: map<bv32, string>, slots: seq<(string, bv32)>, mask: bv32, m: bv32)
    requires m in tags || (m != 0 && exists s | s in slots :: Masked(s.1, mask) == m)
    ensures m in PolicyTags(tags, slots, mask)
  {
    hide Masked;
    if slots != [] {
      var init, last := slots[..|slots| - 1], slots[|slots| - 1];
      if m in tags || Masked(last.1, mask) != m {
        if m !in tags {
          var s :| s in slots && Masked(s.1, mask) == m;
          assert s in init;
        }
        SlotIsOwned(tags, init, mask, m);
      }
    }
  }

  lemma {:induction false} ViewsOf(zones: seq<Zone>, mask: bv32, v: ZoneView)
    requires v in ZoneViews(zones, mask)
    ensures exists z | z in zones :: v == ViewOf(z, mask)
  {
    hide ViewOf, MatchesNothing;
    var init, last := zones[..|zones| - 1], zones[|zones| - 1];
    if v != ViewOf(last, mask) {
      ViewsOf(init, mask, v);
      var z :| z in init && v == ViewOf(z, mask);
      assert z in zones;
    }
  }

  lemma WellFormedView(p: Plan, mask: bv32)
    requires WellFormed(p, mask)
    ensures var v := NewView(Some(p), mask); ZonesUseEgresses(v) && AllSearchable(v.zones)
  {
    hide Masked, EgressTags, PolicyTags, ZoneViews, Disjoint;
    var v := NewView(Some(p), mask);
    forall x | x in v.zones ensures Searchable(x) && (x.mark == 0 || Owns(v, x.mark)) {
      ViewsOf(p.zones, mask, x);
      var z :| z in p.zones && x == ViewOf(z, mask);
      ByStartCollapses(z.v4);
      ByStartCollapses(z.v6);
      var tags := EgressTags(p.egresses, mask);
      if x.mark != 0 {
        if MarksAnEgress(p, mask, x.mark) {
          var e :| e in p.egresses && Masked(e.mark, mask) == x.mark;
          EgressIsOwned(p.egresses, mask, e);
        }
        SlotIsOwned(tags, p.policySlots, mask, x.mark);
      }
    }
  }

  /** The same for the decider of any two plans, the new one well-formed. */
  lemma PlansStaleIsSound(old_: Option<Plan>, cur: Plan, opt: Options, e: Entry, w: World)
    requires WellFormed(cur, NewDecider(old_, Some(cur), opt).mask)
    ensures var d := NewDecider(old_, Some(cur), opt);
            (Stale(d, e) ==> NextExit(d, e, w) != NewExit(d, e, w)) &&
            (!opt.hybrid && Eval(d.cur, e).known && !Excluded(d, e) ==>
               (Stale(d, e) <==> NextExit(d, e, w) != NewExit(d, e, w)))
  {
    var d := NewDecider(old_, Some(cur), opt);
    WellFormedView(cur, d.mask);
    hide NewView, WellFormed, Stale, NextExit, NewExit, Eval, Excluded, ZonesUseEgresses, AllSearchable;
    StaleIsSound(d, e, w);
  }

  /** Without a plane nothing restores a mark and every packet takes the main table; so a flow is flushed exactly
      when, excluded ones aside, the old plane's exit for its mark was another one. */
  lemma RemovedStaleIff(old_: Option<Plan>, opt: Options, e: Entry)
    ensures var d := NewDecider(old_, None, opt);
            var m := Masked(e.mark, d.mask);
            && ExitOf(d.cur, m, false) == Main
            && (Stale(d, e) <==> !Excluded(d, e) && ExitOf(d.old_, m, false) != ExitOf(d.cur, m, false))
  {
    hide Masked, Excluded;
  }

  // ---- Flush --------------------------------------------------------------------------------------

  datatype Deletion = Deleted | Gone | Failed

  datatype Result = Result(seen: nat, deleted: nat, gone: nat, capped: bool)

  function Doomed(d: Decider, es: seq<Entry>): seq<Entry> {
    if es == [] then []
    else Doomed(d, es[..|es| - 1]) + if Stale(d, es[|es| - 1]) then [es[|es| - 1]] else []
  }

  method Collect(d: Decider, es: seq<Entry>, limit: int) returns (doomed: seq<Entry>)
    ensures doomed == if limit > 0 && |Doomed(d, es)| > limit then Doomed(d, es)[..limit + 1] else Doomed(d, es)
  {
    doomed := [];
    for i := 0 to |es|
      invariant doomed == if limit > 0 && |Doomed(d, es[..i])| > limit then Doomed(d, es[..i])[..limit + 1]
                          else Doomed(d, es[..i])
    {
      assert es[..i + 1][..i] == es[..i];
      if (limit <= 0 || |doomed| <= limit) && Stale(d, es[i]) {
        doomed := doomed + [es[i]];
      }
    }
    assert es[..|es|] == es;
  }

  /** Which of the first n deletes were answered with a. */
  ghost function Answered(answer: nat -> Deletion, n: nat, a: Deletion): set<nat> {
    set i: nat | i < n && answer(i) == a
  }

  lemma OneAnswerMore(answer: nat -> Deletion, n: nat, a: Deletion)
    ensures |Answered(answer, n + 1, a)| == |Answered(answer, n, a)| + if answer(n) == a then 1 else 0
  {
    assert Answered(answer, n + 1, a) == Answered(answer, n, a) + if answer(n) == a then {n} else {};
  }

  /** The walk over both families and the deletes, where the kernel answers the i-th delete with answer(i).
      Only stale entries are tried, in order; what is counted is what the kernel answered; no more than the
      limit are removed, and the flush is capped exactly when it stopped at the limit with entries left that
      it had collected. */
  method Flush(d: Decider, es: seq<Entry>, limit: int, answer: nat -> Deletion) returns (r: Result, tried: seq<Entry>)
    ensures tried <= Doomed(d, es) && r.seen == |es|
    ensures r.deleted == |Answered(answer, |tried|, Deleted)| && r.gone == |Answered(answer, |tried|, Gone)|
    ensures limit > 0 ==> r.deleted + r.gone <= limit &&
                          (r.capped ==> |tried| < |Doomed(d, es)| && r.deleted + r.gone == limit)
    ensures !r.capped ==> tried == Doomed(d, es) || (limit > 0 && |tried| == limit + 1)
    ensures limit <= 0 ==> !r.capped
  {
    hide Stale;
    var doomed := Collect(d, es, limit);
    tried, r := [], Result(|es|, 0, 0, false);
    for i := 0 to |doomed|
      invariant tried == doomed[..i] && r.seen == |es| && !r.capped
      invariant r.deleted == |Answered(answer, i, Deleted)| && r.gone == |Answered(answer, i, Gone)|
      invariant limit > 0 ==> r.deleted + r.gone <= limit
    {
      if limit > 0 && r.deleted + r.gone >= limit {
        r := r.(capped := true);
        break;
      }
      tried := tried + [doomed[i]];
      OneAnswerMore(answer, i, Deleted);
      OneAnswerMore(answer, i, Gone);
      match answer(i) {
        case Deleted => r := r.(deleted := r.deleted + 1);
        case Gone => r := r.(gone := r.gone + 1);
        case Failed =>
      }
    }
  }
}
