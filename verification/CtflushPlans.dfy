/** The flush of Ctflush against the kernel, from the plans themselves: where a conntrack entry's next packet
    goes, and where a new flow to the same destination would. */
module CtflushPlans {
  import opened Wrappers
  import opened Ctflush

  // ---- What the kernel does with a plan -----------------------------------------------------------

  /** The bits of a mark that the plan owns. */
  function Bits(mark: bv32, mask: bv32): bv32 { mark & mask }

  predicate In(ps: seq<Prefix>, a: Addr) { exists p | p in ps :: p.v6 == a.v6 && p.lo <= a.value <= p.hi }

  /** The zone's rules ask for a source. */
  predicate AsksSource(z: Zone) { z.srcScoped || z.srcOther || z.srcV4 != [] || z.srcV6 != [] }

  /** A zone marks the flow: by its destination, static or named by dnsmasq, or any of its sources' destinations; and by
      its source, which may be hidden. A positive source list without an address of the family has no rule for it, a
      negated one every source of it. */
  predicate ZoneMarks(z: Zone, e: Entry, named: bool, hidden: bool) {
    && (In(if e.dst.v6 then z.v6 else z.v4, e.dst) || (z.domains && named)
        || (AsksSource(z) && z.v4 == [] && z.v6 == [] && !z.domains))
    && (AsksSource(z) ==>
          if z.srcOther || e.src.None? || (z.srcV4 == [] && z.srcV6 == []) then hidden
          else In(if e.dst.v6 then z.srcV6 else z.srcV4, e.src.value) != z.srcNegate)
  }

  /** Of the first n zones, the last that marks the flow in this world. */
  function LastMarking(zones: seq<Zone>, e: Entry, w: World, n: nat): (r: Option<nat>)
    requires n <= |zones|
    ensures r.Some? ==> r.value < n
  {
    if n == 0 then None
    else if ZoneMarks(zones[n - 1], e, w.named(n - 1), w.fromSource(n - 1)) then Some(n - 1)
    else LastMarking(zones, e, w, n - 1)
  }

  function MarkOf(p: Plan, mask: bv32, e: Entry, w: World): bv32 {
    var z := LastMarking(p.zones, e, w, |p.zones|);
    if z.Some? then Bits(p.zones[z.value].mark, mask) else 0
  }

  /** The mark is an egress's or an access policy's. */
  predicate Owned(p: Plan, mask: bv32, m: bv32) {
    m != 0 && ((exists x | x in p.egresses :: Bits(x.mark, mask) == m) ||
               (exists s | s in p.policySlots :: Bits(s.1, mask) == m))
  }

  predicate ByWan(p: Plan, mask: bv32, m: bv32) { exists x | x in p.egresses :: x.wan && Bits(x.mark, mask) == m }

  function PlanExit(p: Plan, mask: bv32, m: bv32, hybrid: bool): Exit {
    if m == 0 then (if hybrid then Tun else Main)
    else if !Owned(p, mask, m) || ByWan(p, mask, m) then Main
    else Via(m)
  }

  /** Flows the main table has whatever their mark: loopback and private destinations, by their leading bits. */
  predicate Private(a: Addr) {
    if a.v6 then a.value == 1 || a.value / 0x2_000000_00000000_00000000_00000000 == 0x7e ||
                 a.value / 0x400000_00000000_00000000_00000000 == 0x3fa
    else a.value / 0x100_0000 == 127 || a.value / 0x100_0000 == 10 || a.value / 0x10_0000 == 0xac1 ||
         a.value / 0x1_0000 == 0xc0a8
  }

  /** And bypassed destinations, and the router's own flows, which are never marked. */
  predicate MainOnly(bypass: seq<Prefix>, opt: Options, e: Entry) {
    Private(e.dst) || In(bypass, e.dst) || e.dst in opt.local || (e.src.Some? && e.src.value in opt.local)
  }

  /** The flow's next packet. nft: a saved mark of the plan is restored and ends the chain; beside a TUN a flow
      without a mark is held by it; any other is marked by the zones. ipset: the mark is restored,
      and a zone may re-mark it. */
  function Next(p: Plan, mask: bv32, opt: Options, e: Entry, w: World): Exit {
    var m := Bits(e.mark, mask);
    if MainOnly(p.bypass, opt, e) then Main
    else match opt.plane
      case Nft =>
        if Owned(p, mask, m) then PlanExit(p, mask, m, opt.hybrid)
        else if m == 0 && opt.hybrid then Tun
        else PlanExit(p, mask, MarkOf(p, mask, e, w), opt.hybrid)
      case Ipset =>
        if LastMarking(p.zones, e, w, |p.zones|).Some? then PlanExit(p, mask, MarkOf(p, mask, e, w), false)
        else PlanExit(p, mask, m, false)
  }

  /** The first packet of a new flow. */
  function New(p: Plan, mask: bv32, opt: Options, e: Entry, w: World): Exit {
    if MainOnly(p.bypass, opt, e) then Main
    else PlanExit(p, mask, MarkOf(p, mask, e, w), opt.hybrid && opt.plane == Nft)
  }

  /** The new plan's mask, else the old one's, else the default. */
  function MaskOf(old_: Option<Plan>, cur: Option<Plan>): bv32 {
    if cur.Some? && cur.value.mask != 0 then cur.value.mask
    else if old_.Some? && old_.value.mask != 0 then old_.value.mask
    else 0x00ff0000
  }

  // ---- The plan and its view ----------------------------------------------------------------------

  lemma ZoneIsItsView(z: Zone, mask: bv32, e: Entry, a: bool, b: bool)
    ensures ZoneMarks(z, e, a, b) <==> !MatchesNothing(ViewOf(z, mask)) && Marks(ViewOf(z, mask), e, a, b)
  {
    hide Masked, ByStart;
    assert forall ps: seq<Prefix>, x: Addr :: In(ps, x) <==> ContainsAny(ps, x);
    SortedHolds(z.v4, e.dst);
    SortedHolds(z.v6, e.dst);
  }

  lemma SortedHolds(ps: seq<Prefix>, a: Addr)
    ensures In(ps, a) <==> ContainsAny(ByStart(ps), a)
    ensures ByStart(ps) == [] <==> ps == []
  {
  }

  /** The plan's number of the k-th zone that its view keeps. */
  function KeptAt(zones: seq<Zone>, mask: bv32, k: nat): (i: nat)
    requires k < |ZoneViews(zones, mask)|
    ensures i < |zones|
  {
    var init := zones[..|zones| - 1];
    if k < |ZoneViews(init, mask)| then KeptAt(init, mask, k) else |zones| - 1
  }

  /** A world of the plan's zones and one of the view's in which the same zone marks the flow last. */
  ghost predicate SameLast(zones: seq<Zone>, mask: bv32, e: Entry, w: World, u: World) {
    var vs := ZoneViews(zones, mask);
    var z, y := LastMarking(zones, e, w, |zones|), LastZone(vs, e, u, |vs|);
    if y.None? then z.None?
    else y.value < |vs| && z == Some(KeptAt(zones, mask, y.value)) &&
         vs[y.value].mark == Masked(zones[z.value].mark, mask)
  }

  lemma {:induction false} FrontMarking(zones: seq<Zone>, init: seq<Zone>, e: Entry, w: World, w0: World, n: nat)
    requires n <= |init| <= |zones| && init == zones[..|init|]
    requires forall i: nat | i < n :: w.named(i) == w0.named(i) && w.fromSource(i) == w0.fromSource(i)
    ensures LastMarking(zones, e, w, n) == LastMarking(init, e, w0, n)
  {
    hide ZoneMarks;
    if n > 0 {
      assert init[n - 1] == zones[n - 1];
      FrontMarking(zones, init, e, w, w0, n - 1);
    }
  }

  lemma {:induction false} FrontZone(vs: seq<ZoneView>, init: seq<ZoneView>, e: Entry, u: World, u0: World, n: nat)
    requires n <= |init| <= |vs| && init == vs[..|init|]
    requires forall i: nat | i < n :: u.named(i) == u0.named(i) && u.fromSource(i) == u0.fromSource(i)
    ensures LastZone(vs, e, u, n) == LastZone(init, e, u0, n)
  {
    hide Marks;
    if n > 0 {
      assert init[n - 1] == vs[n - 1];
      FrontZone(vs, init, e, u, u0, n - 1);
    }
  }

  /** One zone more, in worlds that agree on it. */
  lemma OneZoneMore(zones: seq<Zone>, mask: bv32, e: Entry, w: World, u: World, w0: World, u0: World)
    requires zones != []
    requires var init := zones[..|zones| - 1];
             var n, k := |init|, |ZoneViews(init, mask)|;
             && SameLast(init, mask, e, w0, u0)
             && (forall i: nat | i < n :: w.named(i) == w0.named(i) && w.fromSource(i) == w0.fromSource(i))
             && (forall i: nat | i < k :: u.named(i) == u0.named(i) && u.fromSource(i) == u0.fromSource(i))
             && w.named(n) == u.named(k) && w.fromSource(n) == u.fromSource(k)
    ensures SameLast(zones, mask, e, w, u)
  {
    hide ZoneMarks, Marks, MatchesNothing, ViewOf, Masked, LastMarking, LastZone, KeptAt, ZoneViews;
    var init, last := zones[..|zones| - 1], zones[|zones| - 1];
    var vs0, v := ZoneViews(init, mask), ViewOf(last, mask);
    var vs := vs0 + if MatchesNothing(v) then [] else [v];
    NextViews(zones, mask);
    FrontMarking(zones, init, e, w, w0, |init|);
    FrontZone(vs, vs0, e, u, u0, |vs0|);
    LastZoneBelow(vs0, e, u0, |vs0|);
    ZoneIsItsView(last, mask, e, w.named(|init|), w.fromSource(|init|));
    NextMarking(zones, e, w);
    if !MatchesNothing(v) { NextZone(vs, e, u); }
  }

  lemma NextMarking(zones: seq<Zone>, e: Entry, w: World)
    requires zones != []
    ensures var n := |zones|;
            LastMarking(zones, e, w, n) ==
            if ZoneMarks(zones[n - 1], e, w.named(n - 1), w.fromSource(n - 1)) then Some(n - 1)
            else LastMarking(zones, e, w, n - 1)
  {
    hide ZoneMarks;
  }

  lemma NextZone(vs: seq<ZoneView>, e: Entry, u: World)
    requires vs != []
    ensures var n := |vs|;
            LastZone(vs, e, u, n) == if Marks(vs[n - 1], e, u.named(n - 1), u.fromSource(n - 1)) then Some(n - 1)
                                     else LastZone(vs, e, u, n - 1)
  {
    hide Marks;
  }

  /** What one zone more adds to the view, and to the numbering of the zones kept. */
  lemma NextViews(zones: seq<Zone>, mask: bv32)
    requires zones != []
    ensures var init, v := zones[..|zones| - 1], ViewOf(zones[|zones| - 1], mask);
            var vs0, vs := ZoneViews(init, mask), ZoneViews(zones, mask);
            && vs == vs0 + (if MatchesNothing(v) then [] else [v])
            && v.mark == Masked(zones[|zones| - 1].mark, mask)
            && (forall k: nat | k < |vs0| :: KeptAt(zones, mask, k) == KeptAt(init, mask, k))
            && (!MatchesNothing(v) ==> KeptAt(zones, mask, |vs0|) == |zones| - 1)
  {
    hide MatchesNothing, ByStart, Masked;
  }

  lemma {:induction false} ViewWorld(zones: seq<Zone>, mask: bv32, e: Entry, w: World) returns (u: World)
    ensures SameLast(zones, mask, e, w, u)
  {
    u := w;
    if zones != [] {
      var init := zones[..|zones| - 1];
      var u0 := ViewWorld(init, mask, e, w);
      var n, k := |init|, |ZoneViews(init, mask)|;
      u := World((i: nat) => if i == k then w.named(n) else u0.named(i),
                 (i: nat) => if i == k then w.fromSource(n) else u0.fromSource(i));
      hide SameLast;
      OneZoneMore(zones, mask, e, w, u, w, u0);
    }
  }

  lemma {:induction false} PlanWorld(zones: seq<Zone>, mask: bv32, e: Entry, u: World) returns (w: World)
    ensures SameLast(zones, mask, e, w, u)
  {
    w := u;
    if zones != [] {
      var init := zones[..|zones| - 1];
      var w0 := PlanWorld(init, mask, e, u);
      var n, k := |init|, |ZoneViews(init, mask)|;
      w := World((i: nat) => if i == n then u.named(k) else w0.named(i),
                 (i: nat) => if i == n then u.fromSource(k) else w0.fromSource(i));
      hide SameLast;
      OneZoneMore(zones, mask, e, w, u, w0, u);
    }
  }

  lemma {:induction false} KeptGrows(zones: seq<Zone>, mask: bv32, j: nat, k: nat)
    requires j < k < |ZoneViews(zones, mask)|
    ensures KeptAt(zones, mask, j) < KeptAt(zones, mask, k)
  {
    hide ViewOf, MatchesNothing;
    var init := zones[..|zones| - 1];
    if k < |ZoneViews(init, mask)| { KeptGrows(init, mask, j, k); }
  }

  // ---- Marks, exits and exclusions ----------------------------------------------------------------

  lemma BitsAreMasked()
    ensures forall mark, mask :: Bits(mark, mask) == Masked(mark, mask)
  {
  }

  lemma {:induction false} EgressTagsAre(es: seq<Egress>, mask: bv32, m: bv32)
    ensures m in EgressTags(es, mask) <==> m != 0 && exists x | x in es :: Masked(x.mark, mask) == m
    ensures m in WanMarks(es, mask) <==> m != 0 && exists x | x in es :: x.wan && Masked(x.mark, mask) == m
  {
    hide Masked;
    if es != [] {
      var init, last := es[..|es| - 1], es[|es| - 1];
      EgressTagsAre(init, mask, m);
      assert es == init + [last];
      assert forall x :: x in es <==> x in init || x == last;
    }
  }

  lemma {:induction false} PolicyTagsAre(tags: map<bv32, string>, slots: seq<(string, bv32)>, mask: bv32, m: bv32)
    ensures m in PolicyTags(tags, slots, mask) <==>
            m in tags || (m != 0 && exists s | s in slots :: Masked(s.1, mask) == m)
  {
    hide Masked;
    if slots != [] {
      var init, last := slots[..|slots| - 1], slots[|slots| - 1];
      PolicyTagsAre(tags, init, mask, m);
      assert slots == init + [last];
      assert forall s :: s in slots <==> s in init || s == last;
    }
  }

  lemma ExitIsPlans(p: Plan, mask: bv32, m: bv32, hybrid: bool)
    ensures ExitOf(NewView(Some(p), mask), m, hybrid) == PlanExit(p, mask, m, hybrid)
    ensures Owns(NewView(Some(p), mask), m) <==> Owned(p, mask, m)
  {
    BitsAreMasked();
    hide EgressTags, PolicyTags, WanMarks, ZoneViews, Bits, Masked;
    EgressTagsAre(p.egresses, mask, m);
    PolicyTagsAre(EgressTags(p.egresses, mask), p.policySlots, mask, m);
  }

  lemma PrivateIs(a: Addr)
    ensures Private(a) <==> ContainsAny(LOOPBACK, a) || ContainsAny(PRIVATE_DST, a)
  {
    var l0, l1, p0, p1, p2, p3, p4 := LOOPBACK[0], LOOPBACK[1], PRIVATE_DST[0], PRIVATE_DST[1], PRIVATE_DST[2],
                                      PRIVATE_DST[3], PRIVATE_DST[4];
    assert ContainsAny(LOOPBACK, a) <==> Holds(l0, a) || Holds(l1, a);
    assert ContainsAny(PRIVATE_DST, a) <==>
           Holds(p0, a) || Holds(p1, a) || Holds(p2, a) || Holds(p3, a) || Holds(p4, a);
  }

  lemma ExcludedIs(d: Decider, e: Entry)
    ensures Excluded(d, e) <==> MainOnly(d.cur.bypass, d.opt, e)
  {
    PrivateIs(e.dst);
    assert In(d.cur.bypass, e.dst) <==> ContainsAny(d.cur.bypass, e.dst);
    hide Private, ContainsAny, In;
  }

  // ---- The flush ----------------------------------------------------------------------------------

  /** Whatever dnsmasq and the hidden sources turn out to be, the same zone marks the flow last, or none does. */
  ghost predicate Agreed(p: Plan, e: Entry) {
    forall w1, w2 :: LastMarking(p.zones, e, w1, |p.zones|) == LastMarking(p.zones, e, w2, |p.zones|)
  }

  /** The decider knows a verdict exactly when the plan leaves nothing open. */
  lemma KnownIffAgreed(p: Plan, mask: bv32, e: Entry)
    requires WellFormed(p, mask)
    ensures Eval(NewView(Some(p), mask), e).known <==> Agreed(p, e)
  {
    hide WellFormed, LastMarking, LastZone, Eval, ZonesUseEgresses, AllSearchable, ZoneViews, EgressTags, PolicyTags,
         WanMarks, SameLast;
    var v := NewView(Some(p), mask);
    WellFormedView(p, mask);
    KnownMeansWorldsAgree(v, e);
    if Eval(v, e).known {
      forall w1, w2 ensures LastMarking(p.zones, e, w1, |p.zones|) == LastMarking(p.zones, e, w2, |p.zones|) {
        var u1 := ViewWorld(p.zones, mask, e, w1);
        var u2 := ViewWorld(p.zones, mask, e, w2);
        Together(p.zones, mask, e, w1, w2, u1, u2);
      }
    } else {
      var u1, u2 :| LastZone(v.zones, e, u1, |v.zones|) != LastZone(v.zones, e, u2, |v.zones|);
      var w1 := PlanWorld(p.zones, mask, e, u1);
      var w2 := PlanWorld(p.zones, mask, e, u2);
      Apart(p.zones, mask, e, w1, w2, u1, u2);
    }
  }

  lemma Together(zones: seq<Zone>, mask: bv32, e: Entry, w1: World, w2: World, u1: World, u2: World)
    requires SameLast(zones, mask, e, w1, u1) && SameLast(zones, mask, e, w2, u2)
    requires var vs := ZoneViews(zones, mask); LastZone(vs, e, u1, |vs|) == LastZone(vs, e, u2, |vs|)
    ensures LastMarking(zones, e, w1, |zones|) == LastMarking(zones, e, w2, |zones|)
  {
    hide LastMarking, LastZone, ZoneViews, KeptAt, Masked;
  }

  lemma Apart(zones: seq<Zone>, mask: bv32, e: Entry, w1: World, w2: World, u1: World, u2: World)
    requires SameLast(zones, mask, e, w1, u1) && SameLast(zones, mask, e, w2, u2)
    requires var vs := ZoneViews(zones, mask); LastZone(vs, e, u1, |vs|) != LastZone(vs, e, u2, |vs|)
    ensures LastMarking(zones, e, w1, |zones|) != LastMarking(zones, e, w2, |zones|)
  {
    hide LastMarking, LastZone, ZoneViews, KeptAt, Masked;
    var vs := ZoneViews(zones, mask);
    var y1, y2 := LastZone(vs, e, u1, |vs|), LastZone(vs, e, u2, |vs|);
    if y1.Some? && y2.Some? {
      if y1.value < y2.value { KeptGrows(zones, mask, y1.value, y2.value); }
      else { KeptGrows(zones, mask, y2.value, y1.value); }
    }
  }

  /** In matching worlds the model of the decider's view and that of the plan send the flow the same way. */
  lemma SameExits(d: Decider, p: Plan, e: Entry, w: World, u: World)
    requires d.cur == NewView(Some(p), d.mask) && SameLast(p.zones, d.mask, e, w, u)
    requires !MainOnly(p.bypass, d.opt, e)
    ensures NextExit(d, e, u) == Next(p, d.mask, d.opt, e, w) && NewExit(d, e, u) == New(p, d.mask, d.opt, e, w)
  {
    hide MainOnly, SameLast, LastMarking, LastZone, NewMark, MarkOf, NewView, Owned, Owns, PlanExit, ExitOf;
    MarksAreSame(d, p, e, w, u);
    var n := MarkOf(p, d.mask, e, w);
    ExitIsPlans(p, d.mask, n, d.opt.hybrid && d.opt.plane == Nft);
    SameNext(d, p, e, w, u, Masked(e.mark, d.mask));
  }

  lemma SameNext(d: Decider, p: Plan, e: Entry, w: World, u: World, m: bv32)
    requires d.cur == NewView(Some(p), d.mask) && m == Masked(e.mark, d.mask) && !MainOnly(p.bypass, d.opt, e)
    requires NewMark(d.cur, e, u) == MarkOf(p, d.mask, e, w)
    requires LastZone(d.cur.zones, e, u, |d.cur.zones|).Some? <==> LastMarking(p.zones, e, w, |p.zones|).Some?
    ensures NextExit(d, e, u) == Next(p, d.mask, d.opt, e, w)
  {
    hide MainOnly, LastMarking, LastZone, NewMark, MarkOf, NewView, Owns, PlanExit, ExitOf;
    var n := MarkOf(p, d.mask, e, w);
    BitsAreMasked();
    hide Bits, Masked;
    ExitIsPlans(p, d.mask, m, d.opt.hybrid);
    ExitIsPlans(p, d.mask, m, false);
    ExitIsPlans(p, d.mask, n, d.opt.hybrid);
    ExitIsPlans(p, d.mask, n, false);
    assert Owned(p, d.mask, m) ==> m != 0;
    hide Owned;
  }

  lemma MarksAreSame(d: Decider, p: Plan, e: Entry, w: World, u: World)
    requires d.cur == NewView(Some(p), d.mask) && SameLast(p.zones, d.mask, e, w, u)
    ensures NewMark(d.cur, e, u) == MarkOf(p, d.mask, e, w)
    ensures LastZone(d.cur.zones, e, u, |d.cur.zones|).Some? <==> LastMarking(p.zones, e, w, |p.zones|).Some?
  {
    BitsAreMasked();
    hide LastMarking, LastZone, ZoneViews, KeptAt, EgressTags, PolicyTags, WanMarks, Bits, Masked;
  }

  /** For any two plans, the new one with disjoint zone members and zone marks that are egress or policy marks or none:
      a flow is flushed only when, in every world, its next packet would leave by another exit than a new flow's
      first; and outside hybrid mode every such flow for which the plan leaves nothing open is flushed. */
  lemma FlushIsSound(old_: Option<Plan>, cur: Plan, opt: Options, e: Entry, w: World)
    requires WellFormed(cur, MaskOf(old_, Some(cur)))
    ensures var mask, stale := MaskOf(old_, Some(cur)), Stale(NewDecider(old_, Some(cur), opt), e);
            var moves := Next(cur, mask, opt, e, w) != New(cur, mask, opt, e, w);
            (stale ==> moves) && (!opt.hybrid && Agreed(cur, e) ==> (stale <==> moves))
  {
    var d := NewDecider(old_, Some(cur), opt);
    assert d.mask == MaskOf(old_, Some(cur)) && d.cur == NewView(Some(cur), d.mask) && !d.removed;
    ExcludedIs(d, e);
    if !MainOnly(cur.bypass, opt, e) {
      var u := ViewWorld(cur.zones, d.mask, e, w);
      SameExits(d, cur, e, w, u);
      PlansStaleIsSound(old_, cur, opt, e, u);
      KnownIffAgreed(cur, d.mask, e);
    } else {
      assert !Stale(d, e);
    }
    hide Stale, NewView, WellFormed, NextExit, NewExit, Eval, Excluded, Agreed, MainOnly, SameLast;
  }

  /** With the plane removed nothing restores a mark and every packet takes the main table: a flow is flushed exactly
      when the old plane sent it another way. Its bypass set is not looked at. */
  lemma RemovedIsSound(old_: Option<Plan>, opt: Options, e: Entry)
    ensures var mask := MaskOf(old_, None);
            Stale(NewDecider(old_, None, opt), e) <==>
            old_.Some? && !MainOnly([], opt, e) && PlanExit(old_.value, mask, Bits(e.mark, mask), false) != Main
  {
    hide Excluded, MainOnly, PlanExit, NewView, ExitOf;
    var d := NewDecider(old_, None, opt);
    var m := Masked(e.mark, d.mask);
    assert d.mask == MaskOf(old_, None);
    BitsAreMasked();
    hide Masked, MaskOf, Bits;
    RemovedStaleIff(old_, opt, e);
    ExcludedIs(d, e);
    NoView(d.mask, m);
    if old_.Some? { ExitIsPlans(old_.value, d.mask, m, false); }
    hide Stale;
  }

  lemma NoView(mask: bv32, m: bv32)
    ensures NewView(None, mask) == View(map[], {}, [], []) && ExitOf(NewView(None, mask), m, false) == Main
  {
  }

  /** What is asked of a zone's members: one family, none empty, and no address in two of them. */
  lemma DisjointIs(ps: seq<Prefix>)
    ensures Disjoint(ps) <==>
            && (forall i | 0 <= i < |ps| :: ps[i].lo <= ps[i].hi)
            && (forall i, j | 0 <= i < j < |ps| :: ps[i].v6 == ps[j].v6)
            && (forall i, j, a | 0 <= i < j < |ps| :: !(Holds(ps[i], a) && Holds(ps[j], a)))
  {
    if forall i | 0 <= i < |ps| :: ps[i].lo <= ps[i].hi {
      forall i, j | 0 <= i < j < |ps| && ps[i].v6 == ps[j].v6
        ensures Clear(ps[i], ps[j]) <==> forall a :: !(Holds(ps[i], a) && Holds(ps[j], a))
      {
        var p, q := ps[i], ps[j];
        var a := Addr(p.v6, if p.lo <= q.lo then q.lo else p.lo);
        assert Clear(p, q) || (Holds(p, a) && Holds(q, a));
      }
    }
  }

  // ---- What Flush tries ---------------------------------------------------------------------------

  /** The entries to delete are the stale ones, each once and in the order of the dump. */
  lemma {:induction false} DoomedAreTheStale(d: Decider, es: seq<Entry>) returns (at: seq<nat>)
    ensures Picks(at, es, Doomed(d, es)) && forall i: nat | i < |es| :: i in at <==> Stale(d, es[i])
  {
    hide Stale;
    if es == [] {
      at := [];
    } else {
      var init, n := es[..|es| - 1], |es| - 1;
      var front := DoomedAreTheStale(d, init);
      at := front + if Stale(d, es[n]) then [n] else [];
      assert forall k | 0 <= k < |front| :: es[front[k]] == init[front[k]];
      assert forall i: nat :: i in at <==> i in front || (i == n && Stale(d, es[n]));
    }
  }

  /** picked are the elements of es at these places, in order. */
  ghost predicate Picks(at: seq<nat>, es: seq<Entry>, picked: seq<Entry>) {
    && |at| == |picked| && (forall j, k | 0 <= j < k < |at| :: at[j] < at[k])
    && forall k | 0 <= k < |at| :: at[k] < |es| && picked[k] == es[at[k]]
  }
}
